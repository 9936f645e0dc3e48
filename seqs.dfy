/** Concatenating the texts a function gives for each element of a sequence, in order, and searching a text for a character. */
module Seqs {

  function ConcatMap<T>(xs: seq<T>, f: T -> string): string {
    if xs == [] then "" else f(xs[0]) + ConcatMap(xs[1..], f)
  }

  /** The concatenation of a split sequence is the concatenation of its parts. */
  lemma {:induction false} ConcatMapAppend<T>(xs: seq<T>, ys: seq<T>, f: T -> string)
    ensures ConcatMap(xs + ys, f) == ConcatMap(xs, f) + ConcatMap(ys, f)
  {
    if xs == [] {
      assert xs + ys == ys;
    } else {
      ConcatMapAppend(xs[1..], ys, f);
      assert (xs + ys)[1..] == xs[1..] + ys;
    }
  }

  /** Appending one element appends its text. */
  lemma ConcatMapSnoc<T>(xs: seq<T>, x: T, f: T -> string)
    ensures ConcatMap(xs + [x], f) == ConcatMap(xs, f) + f(x)
  {
    ConcatMapAppend(xs, [x], f);
    assert ConcatMap([x], f) == f(x) + ConcatMap([], f);
  }

  /** A prefix one element longer is the shorter prefix followed by that element. */
  lemma PrefixSnoc<T>(xs: seq<T>, i: nat)
    requires i < |xs|
    ensures xs[..i + 1] == xs[..i] + [xs[i]]
  {
  }

  function SumLengths<T>(xs: seq<T>, f: T -> string): nat {
    if xs == [] then 0 else |f(xs[0])| + SumLengths(xs[1..], f)
  }

  /** The concatenation is exactly as long as its pieces together. */
  lemma {:induction false} ConcatMapLength<T>(xs: seq<T>, f: T -> string)
    ensures |ConcatMap(xs, f)| == SumLengths(xs, f)
  {
    if xs != [] {
      ConcatMapLength(xs[1..], f);
    }
  }

  predicate Lacks(s: string, c: char) {
    forall i :: 0 <= i < |s| ==> s[i] != c
  }

  /** The position of the first `c` in `s`, or `|s|` when there is none. */
  function Find(s: string, c: char): (r: nat)
    ensures r <= |s|
    ensures r < |s| ==> s[r] == c
    ensures Lacks(s[..r], c)
  {
    if s == [] then 0
    else if s[0] == c then 0
    else
      var r := 1 + Find(s[1..], c);
      assert s[..r] == [s[0]] + s[1..][..r - 1];
      r
  }

  /** Searching `a + [c] + b` when `a` has no `c` stops right after `a`. */
  lemma CutAt(a: string, c: char, b: string)
    requires Lacks(a, c)
    ensures var s := a + [c] + b; Find(s, c) == |a| && s[..|a|] == a && s[|a| + 1..] == b
  {
    var s := a + [c] + b;
    assert s[..|a|] == a;
    assert s[|a| + 1..] == b;
    assert s[|a|] == c;
    assert forall i :: 0 <= i < |a| ==> s[i] == a[i];
    var r := Find(s, c);
    assert r <= |a| by {
      assert Lacks(s[..r], c);
    }
  }
}
