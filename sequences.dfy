/** Order-preserving filtering of a list, the shape of a Python loop that
    appends to a new list the items that pass a test. */
module Sequences {

  /** The items among the first n of `s` whose flag in `keep` is set, in
      their original order: the list the appending loop has built after n
      iterations. */
  function SelectFirst<T>(s: seq<T>, keep: seq<bool>, n: nat): (r: seq<T>)
    requires |keep| == |s| && n <= |s|
    ensures |r| <= n
  {
    if n == 0 then []
    else SelectFirst(s, keep, n - 1) + (if keep[n - 1] then [s[n - 1]] else [])
  }

  /** The items of `s` whose flag in `keep` is set, in their original order. */
  function Select<T>(s: seq<T>, keep: seq<bool>): seq<T>
    requires |keep| == |s|
  {
    SelectFirst(s, keep, |s|)
  }

  /** `x` is one of the first n items of `s` and its flag is set. */
  ghost predicate FlaggedIn<T>(x: T, s: seq<T>, keep: seq<bool>, n: nat)
    requires |keep| == |s| && n <= |s|
  {
    exists j :: 0 <= j < n && keep[j] && s[j] == x
  }

  /** Every item whose flag is set is kept. */
  lemma {:induction false} SelectKeeps<T>(s: seq<T>, keep: seq<bool>, n: nat)
    requires |keep| == |s| && n <= |s|
    ensures forall j :: 0 <= j < n && keep[j] ==> s[j] in SelectFirst(s, keep, n)
  {
    if n > 0 {
      SelectKeeps(s, keep, n - 1);
    }
  }

  /** Every kept item is an item of `s` whose flag is set. */
  lemma {:induction false} SelectDrawsFrom<T>(s: seq<T>, keep: seq<bool>, n: nat)
    requires |keep| == |s| && n <= |s|
    ensures forall k :: 0 <= k < |SelectFirst(s, keep, n)| ==> FlaggedIn(SelectFirst(s, keep, n)[k], s, keep, n)
  {
    if n > 0 {
      var front := SelectFirst(s, keep, n - 1);
      var r := SelectFirst(s, keep, n);
      SelectDrawsFrom(s, keep, n - 1);
      forall k | 0 <= k < |r|
        ensures FlaggedIn(r[k], s, keep, n)
      {
        if k < |front| {
          assert FlaggedIn(front[k], s, keep, n - 1);
          var j :| 0 <= j < n - 1 && keep[j] && s[j] == front[k];
          assert r[k] == front[k];
        } else {
          assert keep[n - 1] && r[k] == s[n - 1];
        }
      }
    }
  }

  /** Elements of a list without repetitions. */
  predicate Distinct<T(==)>(s: seq<T>)
  {
    forall i, j :: 0 <= i < j < |s| ==> s[i] != s[j]
  }

  /** Filtering a list without repetitions gives a list without repetitions. */
  lemma {:induction false} SelectDistinct<T>(s: seq<T>, keep: seq<bool>, n: nat)
    requires |keep| == |s| && n <= |s| && Distinct(s)
    ensures Distinct(SelectFirst(s, keep, n))
  {
    if n > 0 {
      SelectDistinct(s, keep, n - 1);
      var front := SelectFirst(s, keep, n - 1);
      if keep[n - 1] {
        SelectDrawsFrom(s, keep, n - 1);
        forall i | 0 <= i < |front| ensures front[i] != s[n - 1] {
          assert FlaggedIn(front[i], s, keep, n - 1);
          var j :| 0 <= j < n - 1 && keep[j] && s[j] == front[i];
        }
      }
    }
  }

  /** Every item of `a` is an item of `b`. */
  predicate Within<T(==)>(a: seq<T>, b: seq<T>)
  {
    forall i :: 0 <= i < |a| ==> a[i] in b
  }

  /** Every kept item is an item of the list. */
  lemma SelectIn<T>(s: seq<T>, keep: seq<bool>)
    requires |keep| == |s|
    ensures Within(Select(s, keep), s)
  {
    SelectDrawsFrom(s, keep, |s|);
    forall k | 0 <= k < |Select(s, keep)| ensures Select(s, keep)[k] in s {
      assert FlaggedIn(Select(s, keep)[k], s, keep, |s|);
    }
  }
}
