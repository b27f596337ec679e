/** Order-preserving filter and map over sequences, used as the reference
    meaning of the "for each entity: if ...: append(...)" loops of the watcher. */
module Seqs {
  import opened Optional

  /** The elements of `s` that satisfy `keep`, in their original order. */
  function Filter<T>(s: seq<T>, keep: T -> bool): (r: seq<T>)
    ensures |r| <= |s|
    ensures forall x :: x in r ==> x in s && keep(x)
    decreases |s|
  {
    if |s| == 0 then []
    else if keep(s[0]) then [s[0]] + Filter(s[1..], keep)
    else Filter(s[1..], keep)
  }

  /** `f` applied to every element of `s`, position by position. */
  function Map<T, U>(s: seq<T>, f: T -> U): (r: seq<U>)
    ensures |r| == |s|
    ensures forall i :: 0 <= i < |s| ==> r[i] == f(s[i])
    decreases |s|
  {
    if |s| == 0 then [] else [f(s[0])] + Map(s[1..], f)
  }

  /** The last element of `s` that satisfies `keep`, if any. */
  function LastWhere<T>(s: seq<T>, keep: T -> bool): (r: Option<T>)
    ensures r.Some? ==> r.value in s && keep(r.value)
    ensures r.None? <==> forall x :: x in s ==> !keep(x)
    decreases |s|
  {
    if |s| == 0 then None
    else if keep(s[|s| - 1]) then Some(s[|s| - 1])
    else
      assert forall x :: x in s ==> x in s[..|s| - 1] || x == s[|s| - 1];
      LastWhere(s[..|s| - 1], keep)
  }

  /** The last match of a non-empty sequence is the last match of its tail,
      or its head when the tail has none. */
  lemma {:induction false} LastWhereCons<T>(s: seq<T>, keep: T -> bool)
    requires |s| > 0
    ensures LastWhere(s, keep) ==
      (var r := LastWhere(s[1..], keep); if r.Some? then r else if keep(s[0]) then Some(s[0]) else None)
    decreases |s|
  {
    if |s| > 1 {
      assert s[1..][..|s[1..]| - 1] == s[..|s| - 1][1..];
      if !keep(s[|s| - 1]) {
        LastWhereCons(s[..|s| - 1], keep);
      }
    }
  }
}
