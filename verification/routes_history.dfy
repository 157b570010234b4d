/** The history endpoint of the backend (`api/routes_history.py`): get or
    create the user, read the user's sessions newest first, and shape them
    into the JSON the clients read. Tables are in-memory rows; `strftime`
    and `str` of a timestamp are parameters, and so are the failures the
    database and the per-item processing can raise. */
module RoutesHistory {
  import opened Wrappers
  import opened Text
  import opened Sorting
  import opened Sessions

  datatype UserRow = UserRow(id: int, name: string, email: string)

  /** A stored message. Timestamps are seconds; `None` is NULL. */
  datatype MessageRow = MessageRow(id: int, role: Option<string>, content: Option<string>, timestamp: Option<int>)

  datatype SessionRow = SessionRow(id: int, userId: int, query: Option<string>, createdAt: Option<int>,
                                   messages: seq<MessageRow>)

  /** How timestamps are rendered: `strftime("%Y-%m-%d %H:%M:%S")`, which may
      raise (`None`), and `str()`, used when it does. */
  datatype Formatter = Formatter(strftime: int -> Option<string>, fallback: int -> string)

  /** Which kind of exception reached the handler: a SQLAlchemy error or any other. */
  datatype ErrorKind = DatabaseFault | OtherFault

  datatype HttpError = HttpError(status: int, detail: string)

  /** The `HTTPException` raised for a failure of the given kind. */
  function ErrorFor(kind: ErrorKind): (r: HttpError)
    ensures r.status == 500
    ensures kind == DatabaseFault <==> r.detail == "Database error"
    ensures kind == OtherFault <==> r.detail == "Internal server error"
  {
    HttpError(500, if kind == DatabaseFault then "Database error" else "Internal server error")
  }

  /** Python's `value or default` on an optional string. */
  function OrDefault(value: Option<string>, default: string): string {
    if value.Some? && value.value != "" then value.value else default
  }

  /** A timestamp as the response shows it; a missing one is "". */
  function RenderTime(t: Option<int>, fmt: Formatter): (r: string)
    ensures t.None? ==> r == ""
    ensures t.Some? && fmt.strftime(t.value).Some? ==> r == fmt.strftime(t.value).value
    ensures t.Some? && fmt.strftime(t.value).None? ==> r == fmt.fallback(t.value)
  {
    match t
    case None => ""
    case Some(x) => match fmt.strftime(x) case Some(s) => s case None => fmt.fallback(x)
  }

  /** One message of the response: a missing or empty role is "assistant",
      missing content is "". */
  function SerializeMessage(m: MessageRow, fmt: Formatter): (r: Message)
    ensures r.role.Some? && r.content.Some? && r.timestamp.Some?
    ensures r.role.value != ""
    ensures m.role.Some? && m.role.value != "" ==> r.role.value == m.role.value
    ensures m.role.None? || m.role.value == "" ==> r.role.value == "assistant"
    ensures m.content.Some? ==> r.content.value == m.content.value
    ensures m.content.None? ==> r.content.value == ""
    ensures r.timestamp.value == RenderTime(m.timestamp, fmt)
  {
    Message(Some(OrDefault(m.role, "assistant")), Some(OrDefault(m.content, "")), Some(RenderTime(m.timestamp, fmt)))
  }

  /** The items that do not fail, each transformed, in their original order. */
  function KeepMapped<A, B>(xs: seq<A>, fails: A -> bool, f: A -> B): (r: seq<B>)
    ensures |r| <= |xs|
  {
    if xs == [] then []
    else KeepMapped(xs[..|xs| - 1], fails, f) + (if fails(xs[|xs| - 1]) then [] else [f(xs[|xs| - 1])])
  }

  /** Failing items are skipped and only they: the output holds exactly the
      images of the items that do not fail. */
  lemma {:induction false} KeepMappedMembers<A, B>(xs: seq<A>, fails: A -> bool, f: A -> B)
    ensures forall a | a in xs && !fails(a) :: f(a) in KeepMapped(xs, fails, f)
    ensures forall b | b in KeepMapped(xs, fails, f) :: exists a :: a in xs && !fails(a) && b == f(a)
  {
    if xs != [] {
      var init := xs[..|xs| - 1];
      KeepMappedMembers(init, fails, f);
      assert xs == init + [xs[|xs| - 1]];
    }
  }

  /** Order is kept: processing two runs of items one after the other gives
      their outputs one after the other. */
  lemma {:induction false} KeepMappedAppend<A, B>(xs: seq<A>, ys: seq<A>, fails: A -> bool, f: A -> B)
    ensures KeepMapped(xs + ys, fails, f) == KeepMapped(xs, fails, f) + KeepMapped(ys, fails, f)
    decreases |ys|
  {
    if ys == [] {
      assert xs + ys == xs;
    } else {
      var init := ys[..|ys| - 1];
      assert (xs + ys)[..|xs + ys| - 1] == xs + init;
      KeepMappedAppend(xs, init, fails, f);
    }
  }

  /** When nothing fails, every item is transformed in place. */
  lemma {:induction false} KeepMappedNoFailures<A, B>(xs: seq<A>, fails: A -> bool, f: A -> B)
    requires forall i | 0 <= i < |xs| :: !fails(xs[i])
    ensures KeepMapped(xs, fails, f) == seq(|xs|, i requires 0 <= i < |xs| => f(xs[i]))
  {
    if xs != [] {
      KeepMappedNoFailures(xs[..|xs| - 1], fails, f);
    }
  }

  /** One session of the response, with the messages that did not fail. */
  function SerializeSession(s: SessionRow, fmt: Formatter, messageFails: MessageRow -> bool): (r: Session)
    ensures r.sessionId == s.id && r.messages.Some?
    ensures s.query.None? ==> r.query == ""
    ensures s.query.Some? ==> r.query == s.query.value
    ensures r.createdAt == RenderTime(s.createdAt, fmt)
    ensures r.messages == Some(KeepMapped(s.messages, messageFails, m => SerializeMessage(m, fmt)))
  {
    Session(s.id, OrDefault(s.query, ""), RenderTime(s.createdAt, fmt),
            Some(KeepMapped(s.messages, messageFails, m => SerializeMessage(m, fmt))))
  }

  /** The response body for the given session rows. */
  function SerializeSessions(rows: seq<SessionRow>, fmt: Formatter,
                             sessionFails: SessionRow -> bool, messageFails: MessageRow -> bool): seq<Session> {
    KeepMapped(rows, sessionFails, s => SerializeSession(s, fmt, messageFails))
  }

  /** `KeepMapped` of a prefix one item longer. */
  lemma KeepMappedStep<A, B>(xs: seq<A>, i: nat, fails: A -> bool, f: A -> B)
    requires i < |xs|
    ensures KeepMapped(xs[..i + 1], fails, f)
         == KeepMapped(xs[..i], fails, f) + (if fails(xs[i]) then [] else [f(xs[i])])
  {
    assert xs[..i + 1][..i] == xs[..i];
  }

  /** The inner loop of the handler: one session's messages, proved against
      `KeepMapped`. */
  method SerializeMessages(rows: seq<MessageRow>, fmt: Formatter, messageFails: MessageRow -> bool)
    returns (messages: seq<Message>)
    ensures messages == KeepMapped(rows, messageFails, m => SerializeMessage(m, fmt))
  {
    messages := [];
    for j := 0 to |rows|
      invariant messages == KeepMapped(rows[..j], messageFails, m => SerializeMessage(m, fmt))
    {
      KeepMappedStep(rows, j, messageFails, m => SerializeMessage(m, fmt));
      var m := rows[j];
      if !messageFails(m) {
        messages := messages + [SerializeMessage(m, fmt)];
      }
    }
    assert rows[..|rows|] == rows;
  }

  /** The outer loop of the handler, proved against `SerializeSessions`. */
  method SerializeAll(rows: seq<SessionRow>, fmt: Formatter,
                      sessionFails: SessionRow -> bool, messageFails: MessageRow -> bool)
    returns (result: seq<Session>)
    ensures result == SerializeSessions(rows, fmt, sessionFails, messageFails)
  {
    result := [];
    for i := 0 to |rows|
      invariant result == SerializeSessions(rows[..i], fmt, sessionFails, messageFails)
    {
      KeepMappedStep(rows, i, sessionFails, s => SerializeSession(s, fmt, messageFails));
      var s := rows[i];
      if !sessionFails(s) {
        var messages := SerializeMessages(s.messages, fmt, messageFails);
        result := result + [Session(s.id, OrDefault(s.query, ""), RenderTime(s.createdAt, fmt), Some(messages))];
      }
    }
    assert rows[..|rows|] == rows;
  }

  /** The order of the sessions query: newest first; NULL timestamps sort
      first, as in a PostgreSQL descending order. */
  function NewerFirst(): (SessionRow, SessionRow) -> bool {
    (a: SessionRow, b: SessionRow) =>
      a.createdAt.None? || (b.createdAt.Some? && a.createdAt.value >= b.createdAt.value)
  }

  lemma NewerFirstIsTotalPreorder()
    ensures TotalPreorder(NewerFirst())
  {
    var leq := NewerFirst();
    forall a: SessionRow, b: SessionRow ensures leq(a, b) || leq(b, a) {
      if a.createdAt.Some? && b.createdAt.Some? && a.createdAt.value < b.createdAt.value {
        assert leq(b, a);
      }
    }
  }

  /** The user's sessions as the query returns them. */
  function UserSessions(sessions: seq<SessionRow>, userId: int): (r: seq<SessionRow>)
    ensures forall i | 0 <= i < |r| :: r[i].userId == userId && r[i] in sessions
    ensures forall s | s in sessions && s.userId == userId :: s in r
    ensures forall i, j | 0 <= i < j < |r| :: NewerFirst()(r[i], r[j])
    ensures forall s :: multiset(r)[s] == if s.userId == userId then multiset(sessions)[s] else 0
  {
    NewerFirstIsTotalPreorder();
    var mine := Filter(sessions, userId);
    var r := SortBy(mine, NewerFirst());
    SameElements(r, mine);
    r
  }

  /** Two sequences with the same multiset have the same members. */
  lemma SameElements<T>(a: seq<T>, b: seq<T>)
    requires multiset(a) == multiset(b)
    ensures forall x :: x in a <==> x in b
  {
    forall x ensures x in a <==> x in b {
      assert x in a <==> x in multiset(a);
      assert x in b <==> x in multiset(b);
    }
  }

  function Filter(sessions: seq<SessionRow>, userId: int): (r: seq<SessionRow>)
    ensures forall s | s in r :: s in sessions && s.userId == userId
    ensures forall s | s in sessions && s.userId == userId :: s in r
    ensures forall s :: multiset(r)[s] == if s.userId == userId then multiset(sessions)[s] else 0
  {
    if sessions == [] then []
    else
      assert sessions == [sessions[0]] + sessions[1..];
      (if sessions[0].userId == userId then [sessions[0]] else []) + Filter(sessions[1..], userId)
  }

  function NewUser(userId: int): UserRow {
    UserRow(userId, "User " + IntToString(userId), "user" + IntToString(userId) + "@example.com")
  }

  predicate HasUser(users: seq<UserRow>, userId: int) {
    exists i | 0 <= i < |users| :: users[i].id == userId
  }

  /** The `email` column is unique: inserting the new user fails when another
      row already holds its address. */
  predicate EmailTaken(users: seq<UserRow>, email: string) {
    exists i | 0 <= i < |users| :: users[i].email == email
  }

  class Database {
    var users: seq<UserRow>
    var sessions: seq<SessionRow>

    constructor (users0: seq<UserRow>, sessions0: seq<SessionRow>)
      ensures users == users0 && sessions == sessions0
    {
      users := users0;
      sessions := sessions0;
    }

    /** `GET /history/{user_id}`. `lookupFault` is an exception of the user
        lookup, `queryFault` one of the sessions query; `sessionFails` and
        `messageFails` pick the items whose processing raises. */
    method GetHistory(userId: int, lookupFault: Option<ErrorKind>, queryFault: Option<ErrorKind>,
                      fmt: Formatter, sessionFails: SessionRow -> bool, messageFails: MessageRow -> bool)
      returns (response: Result<seq<Session>, HttpError>)
      modifies this`users
      ensures lookupFault.Some? ==> response == Failure(ErrorFor(lookupFault.value)) && users == old(users)
      ensures lookupFault.None? && HasUser(old(users), userId) ==> users == old(users)
      ensures lookupFault.None? && !HasUser(old(users), userId) && EmailTaken(old(users), NewUser(userId).email) ==>
        response == Failure(ErrorFor(DatabaseFault)) && users == old(users)
      ensures lookupFault.None? && !HasUser(old(users), userId) && !EmailTaken(old(users), NewUser(userId).email) ==>
        users == old(users) + [NewUser(userId)]
      ensures response.Success? ==>
        && lookupFault.None? && queryFault.None? && HasUser(users, userId)
        && response.value == SerializeSessions(UserSessions(sessions, userId), fmt, sessionFails, messageFails)
      ensures lookupFault.None? && (HasUser(old(users), userId) || !EmailTaken(old(users), NewUser(userId).email)) ==>
        response == (if queryFault.Some? then Failure(ErrorFor(queryFault.value))
                     else Success(SerializeSessions(UserSessions(sessions, userId), fmt, sessionFails, messageFails)))
    {
      if lookupFault.Some? {
        return Failure(ErrorFor(lookupFault.value));
      }
      if !HasUser(users, userId) {
        var user := NewUser(userId);
        if EmailTaken(users, user.email) {
          return Failure(ErrorFor(DatabaseFault));
        }
        users := users + [user];
        assert users[|users| - 1].id == userId;
      }
      if queryFault.Some? {
        return Failure(ErrorFor(queryFault.value));
      }
      var rows := UserSessions(sessions, userId);
      var result := SerializeAll(rows, fmt, sessionFails, messageFails);
      return Success(result);
    }
  }

  /** Every session in the response belongs to the user, and every session
      of the user whose processing does not fail is in it. */
  lemma ResponseSessions(sessions: seq<SessionRow>, userId: int, fmt: Formatter,
                         sessionFails: SessionRow -> bool, messageFails: MessageRow -> bool)
    ensures var out := SerializeSessions(UserSessions(sessions, userId), fmt, sessionFails, messageFails);
      && (forall s | s in out :: exists row :: row in sessions && row.userId == userId && s.sessionId == row.id)
      && (forall row | row in sessions && row.userId == userId && !sessionFails(row) ::
            SerializeSession(row, fmt, messageFails) in out)
  {
    KeepMappedMembers(UserSessions(sessions, userId), sessionFails, s => SerializeSession(s, fmt, messageFails));
  }
}
