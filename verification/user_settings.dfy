/** The local list of named users (`components/sidebar/UserSettings.jsx`),
    kept in memory and mirrored to browser storage. The storage entry is the
    field `storage`; the clock is the `now` parameter; `onUserIdChange` is
    modelled by assigning the active id `userId`, the prop it feeds. */
module UserSettings {
  import opened Wrappers
  import opened Text

  datatype StoredUser = StoredUser(id: int, name: string, createdAt: string)

  /** No two users share an id. */
  ghost predicate UniqueIds(users: seq<StoredUser>) {
    forall i, j | 0 <= i < j < |users| :: users[i].id != users[j].id
  }

  /** `Math.max(...users.map(u => u.id), 0)`. */
  function MaxId(users: seq<StoredUser>): (m: int)
    ensures m >= 0
    ensures forall u | u in users :: u.id <= m
    ensures m == 0 || exists u | u in users :: u.id == m
  {
    if users == [] then 0
    else
      var rest := MaxId(users[1..]);
      assert forall u | u in users[1..] :: u in users;
      if users[0].id > rest then users[0].id else rest
  }

  /** `users.filter(u => u.id !== id)`. */
  function RemoveId(users: seq<StoredUser>, id: int): (r: seq<StoredUser>)
    ensures |r| <= |users|
    ensures forall u :: u in r <==> u in users && u.id != id
  {
    if users == [] then []
    else (if users[0].id != id then [users[0]] else []) + RemoveId(users[1..], id)
  }

  /** Every kept user is kept as often as it occurs, and the others not at all. */
  lemma {:induction false} RemoveIdCounts(users: seq<StoredUser>, id: int)
    ensures forall u :: multiset(RemoveId(users, id))[u] == if u.id != id then multiset(users)[u] else 0
  {
    if users != [] {
      RemoveIdCounts(users[1..], id);
      assert users == [users[0]] + users[1..];
    }
  }

  /** The kept users stay in their order: filtering two runs one after the
      other gives their results one after the other. */
  lemma {:induction false} RemoveIdAppend(a: seq<StoredUser>, b: seq<StoredUser>, id: int)
    ensures RemoveId(a + b, id) == RemoveId(a, id) + RemoveId(b, id)
  {
    if a == [] {
      assert a + b == b;
    } else {
      assert (a + b)[1..] == a[1..] + b;
      RemoveIdAppend(a[1..], b, id);
    }
  }

  lemma {:induction false} RemoveAbsentId(users: seq<StoredUser>, id: int)
    requires forall u | u in users :: u.id != id
    ensures RemoveId(users, id) == users
  {
    if users != [] {
      assert forall u | u in users[1..] :: u in users;
      RemoveAbsentId(users[1..], id);
    }
  }

  /** With unique ids, deleting one id removes at most one user. */
  lemma {:induction false} RemoveIdUnique(users: seq<StoredUser>, id: int)
    requires UniqueIds(users)
    ensures |RemoveId(users, id)| >= |users| - 1
  {
    if users != [] {
      var tail := users[1..];
      assert UniqueIds(tail) by {
        forall i, j | 0 <= i < j < |tail| ensures tail[i].id != tail[j].id {
          assert tail[i] == users[i + 1] && tail[j] == users[j + 1];
        }
      }
      if users[0].id == id {
        forall u | u in tail ensures u.id != id {
          var j :| 0 <= j < |tail| && tail[j] == u;
          assert users[j + 1] == u;
        }
        RemoveAbsentId(tail, id);
      } else {
        RemoveIdUnique(tail, id);
      }
    }
  }

  lemma {:induction false} RemoveIdKeepsUnique(users: seq<StoredUser>, id: int)
    requires UniqueIds(users)
    ensures UniqueIds(RemoveId(users, id))
  {
    if users != [] {
      var tail := users[1..];
      assert UniqueIds(tail) by {
        forall i, j | 0 <= i < j < |tail| ensures tail[i].id != tail[j].id {
          assert tail[i] == users[i + 1] && tail[j] == users[j + 1];
        }
      }
      RemoveIdKeepsUnique(tail, id);
      var rest := RemoveId(tail, id);
      if users[0].id != id {
        var r := [users[0]] + rest;
        forall i, j | 0 <= i < j < |r| ensures r[i].id != r[j].id {
          if i == 0 {
            assert r[j] in rest;
            var k :| 0 <= k < |tail| && tail[k] == r[j];
            assert users[k + 1] == r[j];
          }
        }
      }
    }
  }

  /** A user whose id exceeds every existing id keeps the ids unique when appended. */
  lemma AppendFreshKeepsUnique(users: seq<StoredUser>, u: StoredUser)
    requires UniqueIds(users) && forall v | v in users :: v.id < u.id
    ensures UniqueIds(users + [u])
  {
    var r := users + [u];
    forall i, j | 0 <= i < j < |r| ensures r[i].id != r[j].id {
      assert r[i] == users[i];
      if j == |users| {
        assert r[i] in users;
      }
    }
  }

  /** The list shown when storage holds none. */
  function DefaultUsers(now: string): seq<StoredUser> {
    [StoredUser(1, "User 1", now)]
  }

  /** What `handleDeleteUser` ends in. */
  datatype DeleteOutcome =
    | Refused   // one user or fewer: nothing changes
    | Deleted
    | Crashed   // the active user was deleted and no user is left: `updatedUsers[0].id` throws

  class UserRegistry {
    var storedUsers: seq<StoredUser>
    /** The persisted copy under the key "ai-research-users". */
    var storage: Option<seq<StoredUser>>
    /** The active user id (the `userId` prop, changed through `onUserIdChange`). */
    var userId: int
    var newUserName: string
    var showAddUser: bool

    /** The lazy initial state: the stored list if there is one, else one default user. */
    constructor (saved: Option<seq<StoredUser>>, activeId: int, now: string)
      ensures storedUsers == (if saved.Some? then saved.value else DefaultUsers(now))
      ensures storage == saved && userId == activeId
      ensures newUserName == "" && !showAddUser
    {
      storedUsers := if saved.Some? then saved.value else DefaultUsers(now);
      storage := saved;
      userId := activeId;
      newUserName := "";
      showAddUser := false;
    }

    /** `saveUsers(users)`: the list and its persisted copy become equal. */
    method SaveUsers(users: seq<StoredUser>)
      modifies this`storedUsers, this`storage
      ensures storedUsers == users && storage == Some(users)
    {
      storedUsers := users;
      storage := Some(users);
    }

    /** `handleCreateNewUser()`, for the name typed into `newUserName`. */
    method CreateNewUser(now: string) returns (created: bool)
      modifies this
      ensures created <==> !IsBlank(old(newUserName))
      ensures !created ==>
        && storedUsers == old(storedUsers) && storage == old(storage) && userId == old(userId)
        && newUserName == old(newUserName) && showAddUser == old(showAddUser)
      ensures created ==>
        && |storedUsers| == |old(storedUsers)| + 1
        && storedUsers[..|old(storedUsers)|] == old(storedUsers)
        && storedUsers[|old(storedUsers)|] == StoredUser(userId, Trim(old(newUserName)), now)
        && userId == MaxId(old(storedUsers)) + 1
        && (forall u | u in old(storedUsers) :: u.id < userId)
        && userId > 0
        && storage == Some(storedUsers)
        && newUserName == "" && !showAddUser
      ensures old(UniqueIds(storedUsers)) ==> UniqueIds(storedUsers)
    {
      if Trim(newUserName) == [] {
        return false;
      }
      var newId := MaxId(storedUsers) + 1;
      var newUser := StoredUser(newId, Trim(newUserName), now);
      var updated := storedUsers + [newUser];
      assert updated[..|storedUsers|] == storedUsers;
      if UniqueIds(storedUsers) {
        AppendFreshKeepsUnique(storedUsers, newUser);
      }
      SaveUsers(updated);
      userId := newId;
      newUserName := "";
      showAddUser := false;
      created := true;
    }

    /** `handleDeleteUser(id)`. */
    method DeleteUser(id: int) returns (outcome: DeleteOutcome)
      modifies this`storedUsers, this`storage, this`userId
      ensures outcome == Refused <==> |old(storedUsers)| <= 1
      ensures outcome == Refused ==>
        storedUsers == old(storedUsers) && storage == old(storage) && userId == old(userId)
      ensures outcome != Refused ==>
        storedUsers == RemoveId(old(storedUsers), id) && storage == Some(storedUsers)
      ensures outcome == Crashed <==> outcome != Refused && old(userId) == id && storedUsers == []
      ensures outcome == Deleted && old(userId) == id ==> userId == storedUsers[0].id
      ensures outcome == Deleted && old(userId) != id ==> userId == old(userId)
      ensures outcome == Crashed ==> userId == old(userId)
      ensures old(UniqueIds(storedUsers)) ==> outcome != Crashed && UniqueIds(storedUsers)
    {
      if |storedUsers| <= 1 {
        return Refused;
      }
      ghost var before := storedUsers;
      var updated := RemoveId(storedUsers, id);
      SaveUsers(updated);
      if UniqueIds(before) {
        RemoveIdUnique(before, id);
        RemoveIdKeepsUnique(before, id);
      }
      if userId == id {
        if updated == [] {
          return Crashed;
        }
        userId := updated[0].id;
      }
      return Deleted;
    }

    /** `currentUser`: the user with the active id, else the first stored user. */
    function CurrentUser(): (r: Option<StoredUser>)
      reads this
      ensures (exists u | u in storedUsers :: u.id == userId) ==> r.Some? && r.value in storedUsers && r.value.id == userId
      ensures (forall u | u in storedUsers :: u.id != userId) ==> r == (if storedUsers == [] then None else Some(storedUsers[0]))
      ensures forall i | 0 <= i < |storedUsers| && storedUsers[i].id == userId && (forall j | 0 <= j < i :: storedUsers[j].id != userId) ::
        r == Some(storedUsers[i])
    {
      FirstWithId(storedUsers, userId, storedUsers)
    }
  }

  /** The first user in `users` with id `id`, else the first of `all`. */
  function FirstWithId(users: seq<StoredUser>, id: int, all: seq<StoredUser>): (r: Option<StoredUser>)
    ensures (exists u | u in users :: u.id == id) ==> r.Some? && r.value in users && r.value.id == id
    ensures (forall u | u in users :: u.id != id) ==> r == (if all == [] then None else Some(all[0]))
    ensures forall i | 0 <= i < |users| && users[i].id == id && (forall j | 0 <= j < i :: users[j].id != id) ::
      r == Some(users[i])
  {
    if users == [] then (if all == [] then None else Some(all[0]))
    else if users[0].id == id then Some(users[0])
    else
      assert forall u | u in users[1..] :: u in users;
      assert forall u | u in users && u != users[0] :: u in users[1..];
      FirstWithId(users[1..], id, all)
  }
}
