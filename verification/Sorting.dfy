/** A stable sort, standing for the library sort the scripts call. */
module Sorting {

  ghost predicate TotalPreorder<T(!new)>(le: (T, T) -> bool) {
    && (forall a, b :: le(a, b) || le(b, a))
    && (forall a, b, c :: le(a, b) && le(b, c) ==> le(a, c))
  }

  ghost predicate SortedBy<T>(le: (T, T) -> bool, s: seq<T>) {
    forall i, j :: 0 <= i < j < |s| ==> le(s[i], s[j])
  }

  function Insert<T>(le: (T, T) -> bool, x: T, s: seq<T>): (r: seq<T>)
    ensures multiset(r) == multiset(s) + multiset{x}
  {
    if s == [] || le(x, s[0]) then [x] + s
    else
      assert s == [s[0]] + s[1..];
      [s[0]] + Insert(le, x, s[1..])
  }

  function Sort<T>(le: (T, T) -> bool, s: seq<T>): (r: seq<T>)
    ensures multiset(r) == multiset(s) && |r| == |s|
  {
    if s == [] then []
    else
      assert s == [s[0]] + s[1..];
      var r := Insert(le, s[0], Sort(le, s[1..]));
      assert |r| == |multiset(r)| == |multiset(s)|;
      r
  }

  lemma {:induction false} InsertMembers<T(!new)>(le: (T, T) -> bool, x: T, s: seq<T>)
    ensures forall y :: y in Insert(le, x, s) <==> y == x || y in s
  {
    forall y ensures y in Insert(le, x, s) <==> y == x || y in s {
      assert y in Insert(le, x, s) <==> y in multiset(Insert(le, x, s));
    }
  }

  lemma {:induction false} InsertSorts<T(!new)>(le: (T, T) -> bool, x: T, s: seq<T>)
    requires TotalPreorder(le) && SortedBy(le, s)
    ensures SortedBy(le, Insert(le, x, s))
  {
    if s != [] && !le(x, s[0]) {
      InsertSorts(le, x, s[1..]);
      InsertMembers(le, x, s[1..]);
      var r := Insert(le, x, s[1..]);
      forall j | 0 <= j < |r| ensures le(s[0], r[j]) {
        assert r[j] in r;
      }
    }
  }

  lemma {:induction false} SortSorts<T(!new)>(le: (T, T) -> bool, s: seq<T>)
    requires TotalPreorder(le)
    ensures SortedBy(le, Sort(le, s))
  {
    if s == [] {
    } else {
      SortSorts(le, s[1..]);
      InsertSorts(le, s[0], Sort(le, s[1..]));
    }
  }

  // ---------------------------------------------------------------- stability

  /** The members that rank the same as `x`, in order. */
  function Alike<T>(le: (T, T) -> bool, x: T, s: seq<T>): seq<T> {
    if s == [] then []
    else (if le(x, s[0]) && le(s[0], x) then [s[0]] else []) + Alike(le, x, s[1..])
  }

  lemma {:induction false} InsertStable<T(!new)>(le: (T, T) -> bool, x: T, y: T, s: seq<T>)
    requires TotalPreorder(le)
    ensures Alike(le, x, Insert(le, y, s)) == Alike(le, x, [y] + s)
  {
    if s == [] || le(y, s[0]) {
      assert Insert(le, y, s) == [y] + s;
    } else {
      InsertStable(le, x, y, s[1..]);
      assert ([s[0]] + Insert(le, y, s[1..]))[1..] == Insert(le, y, s[1..]);
      assert ([y] + s)[1..] == s && ([y] + s[1..])[1..] == s[1..];
    }
  }

  /** Members that rank the same keep their order. */
  lemma {:induction false} SortStable<T(!new)>(le: (T, T) -> bool, x: T, s: seq<T>)
    requires TotalPreorder(le)
    ensures Alike(le, x, Sort(le, s)) == Alike(le, x, s)
  {
    if s == [] {
    } else {
      SortStable(le, x, s[1..]);
      InsertStable(le, x, s[0], Sort(le, s[1..]));
      assert ([s[0]] + Sort(le, s[1..]))[1..] == Sort(le, s[1..]);
    }
  }

  // ---------------------------------------------------------------- permutations

  ghost predicate Pairwise<T>(r: (T, T) -> bool, s: seq<T>) {
    forall i, j :: 0 <= i < j < |s| ==> r(s[i], s[j])
  }

  lemma {:induction false} PairwiseSnoc<T>(r: (T, T) -> bool, s: seq<T>, x: T)
    ensures Pairwise(r, s + [x]) <==> Pairwise(r, s) && forall i :: 0 <= i < |s| ==> r(s[i], x)
  {
    var t := s + [x];
    if Pairwise(r, t) {
      forall i, j | 0 <= i < j < |s| ensures r(s[i], s[j]) { assert t[i] == s[i] && t[j] == s[j]; }
      forall i | 0 <= i < |s| ensures r(s[i], x) { assert t[i] == s[i] && t[|s|] == x; }
    }
  }

  lemma {:induction false} TwoOccurrences<T>(t: seq<T>, i: nat, j: nat)
    requires i < j < |t| && t[i] == t[j]
    ensures multiset(t)[t[i]] >= 2
  {
    assert t == t[..i] + [t[i]] + t[i + 1..j] + [t[j]] + t[j + 1..];
  }

  lemma {:induction false} FindTwo<T>(s: seq<T>, x: T) returns (a: nat, b: nat)
    requires multiset(s)[x] >= 2
    ensures a < b < |s| && s[a] == s[b] == x
  {
    a :| a < |s| && s[a] == x;
    assert s == s[..a] + [x] + s[a + 1..];
    if x in s[a + 1..] {
      var k :| 0 <= k < |s[a + 1..]| && s[a + 1..][k] == x;
      b := a + 1 + k;
    } else {
      assert x in multiset(s[..a]);
      b := a;
      a :| a < b && s[a] == x;
    }
  }

  /** A symmetric relation that holds between any two places of a sequence also holds
      between any two places of its permutations. */
  lemma {:induction false} PairwiseTransfers<T(!new)>(r: (T, T) -> bool, s: seq<T>, t: seq<T>)
    requires forall a, b :: r(a, b) ==> r(b, a)
    requires multiset(s) == multiset(t) && Pairwise(r, s)
    ensures Pairwise(r, t)
  {
    forall i, j | 0 <= i < j < |t| ensures r(t[i], t[j]) {
      if t[i] == t[j] {
        TwoOccurrences(t, i, j);
        var a, b := FindTwo(s, t[i]);
      } else {
        assert t[i] in multiset(t) && t[j] in multiset(t);
        assert t[i] in s && t[j] in s;
      }
    }
  }

  lemma {:induction false} SortMembers<T(!new)>(le: (T, T) -> bool, s: seq<T>)
    ensures forall x :: x in Sort(le, s) <==> x in s
  {
    forall x ensures x in Sort(le, s) <==> x in s {
      assert x in Sort(le, s) <==> x in multiset(Sort(le, s));
    }
  }
}
