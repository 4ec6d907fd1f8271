/** Swift `Array` operations the view controller relies on (`indexOf`,
    `removeAtIndex`, mapping each element), stated over Dafny sequences. */
module Sequences {

  datatype Option<T> = None | Some(value: T)

  /** `Array.indexOf(_:)`: the position of the first element equal to `x`,
      or `None` when no element is. */
  function IndexOf<T(==)>(s: seq<T>, x: T): (r: Option<nat>)
    ensures r.None? <==> x !in s
    ensures r.Some? ==> r.value < |s| && s[r.value] == x && x !in s[..r.value]
  {
    if s == [] then None
    else if s[0] == x then Some(0)
    else match IndexOf(s[1..], x)
      case None => None
      case Some(i) =>
        assert s[..i + 1] == [s[0]] + s[1..][..i];
        Some(i + 1)
  }

  /** `indexOf` followed by `removeAtIndex` on the index found: the first
      element equal to `x` goes, and nothing changes when there is none. */
  function RemoveFirst<T(==)>(s: seq<T>, x: T): (r: seq<T>)
    ensures x !in s ==> r == s
    ensures x in s ==> |r| == |s| - 1 && multiset(r) == multiset(s) - multiset{x}
  {
    match IndexOf(s, x)
    case None => s
    case Some(i) =>
      assert s == s[..i] + [x] + s[i + 1..];
      s[..i] + s[i + 1..]
  }

  /** Only the FIRST occurrence is removed: everything before it and
      everything after it (later occurrences of `x` included) stays, in order. */
  lemma {:induction false} RemoveFirstSplit<T>(a: seq<T>, x: T, b: seq<T>)
    requires x !in a
    ensures RemoveFirst(a + [x] + b, x) == a + b
  {
    var s := a + [x] + b;
    assert s[|a|] == x;
    var i := IndexOf(s, x).value;
    assert s[..i] == a && s[i + 1..] == b;
  }

  /** Appending `x` and then removing the first `x` gives back a sequence of
      the old length holding the old elements, and exactly the old sequence
      when `x` was not in it. */
  lemma {:induction false} AppendThenRemoveFirst<T>(s: seq<T>, x: T)
    ensures |RemoveFirst(s + [x], x)| == |s|
    ensures multiset(RemoveFirst(s + [x], x)) == multiset(s)
    ensures x !in s ==> RemoveFirst(s + [x], x) == s
  {
    assert x in s + [x];
    if x !in s {
      RemoveFirstSplit(s, x, []);
      assert s + [x] + [] == s + [x];
    }
  }

  /** When `x` is already present, appending another `x` and then removing the
      first `x` moves that first occurrence to the end. */
  lemma RemoveFirstAfterAppend<T>(s: seq<T>, x: T)
    requires x in s
    ensures RemoveFirst(s + [x], x) == RemoveFirst(s, x) + [x]
  {
    var i := IndexOf(s, x).value;
    var a, b := s[..i], s[i + 1..];
    assert s == a + [x] + b;
    assert s + [x] == a + [x] + (b + [x]);
    RemoveFirstSplit(a, x, b + [x]);
    RemoveFirstSplit(a, x, b);
  }

  /** The sequence of `f` applied to each element, in order (a loop that
      appends one transformed element per element of `s`). */
  function Map<A, B>(s: seq<A>, f: A -> B): (r: seq<B>)
    ensures |r| == |s|
    ensures forall i :: 0 <= i < |s| ==> r[i] == f(s[i])
  {
    if s == [] then [] else Map(s[..|s| - 1], f) + [f(s[|s| - 1])]
  }

  /** Mapping treats each element on its own. */
  lemma MapDistributes<A, B>(a: seq<A>, b: seq<A>, f: A -> B)
    ensures Map(a + b, f) == Map(a, f) + Map(b, f)
  {
    assert forall i :: 0 <= i < |a| ==> (a + b)[i] == a[i];
    assert forall i :: |a| <= i < |a + b| ==> (a + b)[i] == b[i - |a|];
  }

  /** Mapping one more element appends its image. */
  lemma MapAppendOne<A, B>(s: seq<A>, x: A, f: A -> B)
    ensures Map(s + [x], f) == Map(s, f) + [f(x)]
  {
    assert forall i :: 0 <= i < |s| ==> (s + [x])[i] == s[i];
  }

  /** Mapping a sequence with one more element adds that element's image to
      the multiset of images. */
  lemma MapMultisetSplit<A, B>(a: seq<A>, x: A, b: seq<A>, f: A -> B)
    ensures multiset(Map(a + [x] + b, f)) == multiset(Map(a + b, f)) + multiset{f(x)}
  {
    MapDistributes(a + [x], b, f);
    MapDistributes(a, [x], f);
    MapDistributes(a, b, f);
  }
}
