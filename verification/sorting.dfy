/** Stable sorting of a sequence by a total preorder, as `Array.prototype.sort`
    with a comparator and Python's `sorted` with a key both behave. */
module Sorting {

  /** `leq` compares every pair and is transitive. */
  ghost predicate TotalPreorder<T(!new)>(leq: (T, T) -> bool) {
    && (forall a, b :: leq(a, b) || leq(b, a))
    && (forall a, b, c :: leq(a, b) && leq(b, c) ==> leq(a, c))
  }

  ghost predicate Sorted<T>(s: seq<T>, leq: (T, T) -> bool) {
    forall i, j | 0 <= i < j < |s| :: leq(s[i], s[j])
  }

  /** Elements of `s` that tie with `k`, in their order in `s`. */
  function Ties<T>(s: seq<T>, k: T, leq: (T, T) -> bool): seq<T> {
    if s == [] then []
    else (if leq(s[0], k) && leq(k, s[0]) then [s[0]] else []) + Ties(s[1..], k, leq)
  }

  /** A sorted sequence stays sorted under a head that is below all of it. */
  lemma SortedCons<T>(h: T, rest: seq<T>, leq: (T, T) -> bool)
    requires Sorted(rest, leq)
    requires forall i | 0 <= i < |rest| :: leq(h, rest[i])
    ensures Sorted([h] + rest, leq)
  {
    var r := [h] + rest;
    forall i, j | 0 <= i < j < |r| ensures leq(r[i], r[j]) {
      assert r[j] == rest[j - 1];
      if i > 0 {
        assert r[i] == rest[i - 1];
      }
    }
  }

  /** The head of a sorted sequence is below every element of its tail and
      below anything that sorts after it. */
  lemma HeadBelow<T(!new)>(s: seq<T>, x: T, rest: seq<T>, leq: (T, T) -> bool)
    requires TotalPreorder(leq) && Sorted(s, leq) && s != [] && leq(s[0], x)
    requires multiset(rest) == multiset(s[1..]) + multiset{x}
    ensures forall i | 0 <= i < |rest| :: leq(s[0], rest[i])
  {
    forall i | 0 <= i < |rest| ensures leq(s[0], rest[i]) {
      assert rest[i] in multiset(rest);
      if rest[i] != x {
        assert rest[i] in multiset(s[1..]);
        var j :| 0 <= j < |s[1..]| && s[1..][j] == rest[i];
        assert s[1 + j] == rest[i];
      }
    }
  }

  /** Whatever is below the head of a sorted sequence is below all of it. */
  lemma BelowSorted<T(!new)>(x: T, s: seq<T>, leq: (T, T) -> bool)
    requires TotalPreorder(leq) && Sorted(s, leq) && (s == [] || leq(x, s[0]))
    ensures forall i | 0 <= i < |s| :: leq(x, s[i])
  {
    forall i | 0 < i < |s| ensures leq(x, s[i]) {
      assert leq(s[0], s[i]);
    }
  }

  /** Places `x` before the first element it is not greater than. */
  function Insert<T(!new)>(x: T, s: seq<T>, leq: (T, T) -> bool): (r: seq<T>)
    requires TotalPreorder(leq)
    ensures multiset(r) == multiset(s) + multiset{x}
    ensures Sorted(s, leq) ==> Sorted(r, leq)
  {
    if s == [] || leq(x, s[0]) then
      assert Sorted(s, leq) ==> Sorted([x] + s, leq) by {
        if Sorted(s, leq) {
          BelowSorted(x, s, leq);
          SortedCons(x, s, leq);
        }
      }
      [x] + s
    else
      var rest := Insert(x, s[1..], leq);
      assert s == [s[0]] + s[1..];
      assert Sorted(s, leq) ==> Sorted([s[0]] + rest, leq) by {
        if Sorted(s, leq) {
          assert Sorted(s[1..], leq);
          HeadBelow(s, x, rest, leq);
          SortedCons(s[0], rest, leq);
        }
      }
      [s[0]] + rest
  }

  /** Insertion sort: stable, so ties keep the order they had. */
  function SortBy<T(!new)>(s: seq<T>, leq: (T, T) -> bool): (r: seq<T>)
    requires TotalPreorder(leq)
    ensures multiset(r) == multiset(s)
    ensures Sorted(r, leq)
  {
    if s == [] then []
    else
      assert s == [s[0]] + s[1..];
      Insert(s[0], SortBy(s[1..], leq), leq)
  }

  /** `Ties` of a sequence with a known head. */
  lemma TiesCons<T>(h: T, t: seq<T>, k: T, leq: (T, T) -> bool)
    ensures Ties([h] + t, k, leq) == (if leq(h, k) && leq(k, h) then [h] else []) + Ties(t, k, leq)
  {
    assert ([h] + t)[1..] == t;
  }

  /** Under a total preorder, an element that sorts strictly after another
      cannot tie with the same key as it. */
  lemma NoDoubleTie<T(!new)>(x: T, h: T, k: T, leq: (T, T) -> bool)
    requires TotalPreorder(leq) && !leq(x, h)
    ensures !(leq(x, k) && leq(k, x) && leq(h, k) && leq(k, h))
  {
  }

  /** The step of `InsertTies` where `x` moves past the head `h`: `r` is the
      tail `t` with `x` inserted. */
  lemma TiesPastHead<T>(x: T, h: T, t: seq<T>, r: seq<T>, k: T, leq: (T, T) -> bool)
    requires !(leq(x, k) && leq(k, x) && leq(h, k) && leq(k, h))
    requires Ties(r, k, leq) == (if leq(x, k) && leq(k, x) then [x] else []) + Ties(t, k, leq)
    ensures Ties([h] + r, k, leq) == (if leq(x, k) && leq(k, x) then [x] else []) + Ties([h] + t, k, leq)
  {
    TiesCons(h, r, k, leq);
    TiesCons(h, t, k, leq);
    var head: seq<T> := if leq(h, k) && leq(k, h) then [h] else [];
    if leq(x, k) && leq(k, x) {
      assert head == [];
      assert Ties([h] + t, k, leq) == Ties(t, k, leq);
      assert Ties([h] + r, k, leq) == Ties(r, k, leq);
    } else {
      assert Ties(r, k, leq) == Ties(t, k, leq);
    }
  }

  lemma {:induction false} InsertTies<T(!new)>(x: T, s: seq<T>, k: T, leq: (T, T) -> bool)
    requires TotalPreorder(leq)
    ensures Ties(Insert(x, s, leq), k, leq)
         == (if leq(x, k) && leq(k, x) then [x] else []) + Ties(s, k, leq)
  {
    if s == [] || leq(x, s[0]) {
      assert Insert(x, s, leq) == [x] + s;
      TiesCons(x, s, k, leq);
    } else {
      InsertTies(x, s[1..], k, leq);
      NoDoubleTie(x, s[0], k, leq);
      assert Insert(x, s, leq) == [s[0]] + Insert(x, s[1..], leq);
      assert s == [s[0]] + s[1..];
      TiesPastHead(x, s[0], s[1..], Insert(x, s[1..], leq), k, leq);
    }
  }

  /** Sorting keeps the relative order of every class of tied elements. */
  lemma {:induction false} SortByStable<T(!new)>(s: seq<T>, k: T, leq: (T, T) -> bool)
    requires TotalPreorder(leq)
    ensures Ties(SortBy(s, leq), k, leq) == Ties(s, k, leq)
  {
    if s != [] {
      SortByStable(s[1..], k, leq);
      InsertTies(s[0], SortBy(s[1..], leq), k, leq);
    }
  }
}
