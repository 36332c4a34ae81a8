/**
 Boolean-mask row selection over a table held as a sequence of rows: the
 `df[mask]` indexing the dashboard uses for every filter, and the `.shape[0]`
 count taken afterwards is the length of the selected sequence.
 */
module Masks {

  /** `r` is made of some of the rows of `s`, kept in their original order. */
  ghost predicate Subsequence<T>(r: seq<T>, s: seq<T>)
    decreases |s|
  {
    if r == [] then true
    else if s == [] then false
    else (r[0] == s[0] && Subsequence(r[1..], s[1..])) || Subsequence(r, s[1..])
  }

  /**
   The rows of `s` on which the mask `keep` is true, in their original order,
   each as many times as it occurs in `s` (rows carry no identity, so equal
   rows may repeat).
   */
  function Select<T(==,!new)>(s: seq<T>, keep: T -> bool): (r: seq<T>)
    ensures |r| <= |s|
    ensures forall x :: x in r <==> x in s && keep(x)
    ensures forall x :: multiset(r)[x] == (if keep(x) then multiset(s)[x] else 0)
    ensures Subsequence(r, s)
  {
    if s == [] then []
    else
      assert s == [s[0]] + s[1..];
      if keep(s[0]) then
        var rest := Select(s[1..], keep);
        assert ([s[0]] + rest)[1..] == rest;
        [s[0]] + rest
      else Select(s[1..], keep)
  }

  /** A mask and its negation split the table: the two selections together have every row. */
  lemma {:induction false} SelectPartition<T(!new)>(s: seq<T>, p: T -> bool, q: T -> bool)
    requires forall x :: q(x) == !p(x)
    ensures |Select(s, p)| + |Select(s, q)| == |s|
  {
    if s != [] {
      SelectPartition(s[1..], p, q);
    }
  }

  /** Two masks applied one after the other select the same rows in either order. */
  lemma {:induction false} SelectCommutes<T(!new)>(s: seq<T>, p: T -> bool, q: T -> bool)
    ensures Select(Select(s, p), q) == Select(Select(s, q), p)
  {
    if s != [] {
      SelectCommutes(s[1..], p, q);
      var x, t := s[0], s[1..];
      if p(x) {
        assert Select(s, p) == [x] + Select(t, p);
        assert ([x] + Select(t, p))[1..] == Select(t, p);
      }
      if q(x) {
        assert Select(s, q) == [x] + Select(t, q);
        assert ([x] + Select(t, q))[1..] == Select(t, q);
      }
    }
  }

  /** A weaker mask never selects fewer rows. */
  lemma {:induction false} SelectMonotone<T(!new)>(s: seq<T>, p: T -> bool, q: T -> bool)
    requires forall x :: p(x) ==> q(x)
    ensures |Select(s, p)| <= |Select(s, q)|
  {
    if s != [] {
      SelectMonotone(s[1..], p, q);
    }
  }

  /** A mask that holds on every row keeps the table as it is. */
  lemma {:induction false} SelectKeepsAll<T(!new)>(s: seq<T>, p: T -> bool)
    requires forall i :: 0 <= i < |s| ==> p(s[i])
    ensures Select(s, p) == s
  {
    if s != [] {
      SelectKeepsAll(s[1..], p);
    }
  }

  /** A mask that holds on no row selects nothing. */
  lemma {:induction false} SelectKeepsNone<T(!new)>(s: seq<T>, p: T -> bool)
    requires forall i :: 0 <= i < |s| ==> !p(s[i])
    ensures Select(s, p) == []
  {
    if s != [] {
      SelectKeepsNone(s[1..], p);
    }
  }
}
