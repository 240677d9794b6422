/** Sequence operations behind `Array.prototype.find` and `Array.prototype.filter`. */
module Seqs {
  import opened Wrappers

  /** The index of the first element satisfying `p`, if any. */
  function FindIndex<T>(xs: seq<T>, p: T -> bool): (r: Option<nat>)
    ensures r.Some? ==> r.value < |xs| && p(xs[r.value])
    ensures r.Some? ==> forall j :: 0 <= j < r.value ==> !p(xs[j])
    ensures r.None? <==> forall j :: 0 <= j < |xs| ==> !p(xs[j])
  {
    if xs == [] then None
    else if p(xs[0]) then Some(0)
    else match FindIndex(xs[1..], p)
      case None => None
      case Some(i) => Some(i + 1)
  }

  /** `xs.find(p)`: the first element satisfying `p`, if any. */
  function Find<T>(xs: seq<T>, p: T -> bool): (r: Option<T>)
    ensures r.Some? ==> r.value in xs && p(r.value)
    ensures r.None? <==> forall j :: 0 <= j < |xs| ==> !p(xs[j])
  {
    match FindIndex(xs, p)
    case None => None
    case Some(i) => Some(xs[i])
  }

  /** Appending elements never changes an existing first match. */
  lemma FindIndexAppend<T>(xs: seq<T>, ys: seq<T>, p: T -> bool)
    ensures FindIndex(xs + ys, p) ==
      match FindIndex(xs, p)
      case Some(i) => Some(i)
      case None => match FindIndex(ys, p)
        case Some(j) => Some(|xs| + j)
        case None => None
  {
    var zs := xs + ys;
    match FindIndex(xs, p)
    case Some(i) =>
      assert zs[i] == xs[i];
      assert forall j :: 0 <= j < i ==> zs[j] == xs[j];
      FirstMatchUnique(zs, p, i);
    case None =>
      match FindIndex(ys, p)
      case Some(j) =>
        assert zs[|xs| + j] == ys[j];
        assert forall k :: 0 <= k < |xs| + j ==> (k < |xs| ==> zs[k] == xs[k]) && (k >= |xs| ==> zs[k] == ys[k - |xs|]);
        FirstMatchUnique(zs, p, |xs| + j);
      case None =>
        assert forall k :: 0 <= k < |zs| ==> (k < |xs| ==> zs[k] == xs[k]) && (k >= |xs| ==> zs[k] == ys[k - |xs|]);
  }

  /** Any index that is a first match is the one `FindIndex` returns. */
  lemma FirstMatchUnique<T>(xs: seq<T>, p: T -> bool, i: nat)
    requires i < |xs| && p(xs[i])
    requires forall j :: 0 <= j < i ==> !p(xs[j])
    ensures FindIndex(xs, p) == Some(i)
  {
  }

  /** `xs.filter(p)`. */
  function Filter<T>(xs: seq<T>, p: T -> bool): (r: seq<T>)
    ensures |r| <= |xs|
    ensures forall j :: 0 <= j < |r| ==> r[j] in xs && p(r[j])
    ensures forall j :: 0 <= j < |xs| && p(xs[j]) ==> xs[j] in r
  {
    if xs == [] then []
    else (if p(xs[0]) then [xs[0]] else []) + Filter(xs[1..], p)
  }

  /** Filtering keeps the relative order: it distributes over concatenation. */
  lemma {:induction false} FilterConcat<T>(xs: seq<T>, ys: seq<T>, p: T -> bool)
    ensures Filter(xs + ys, p) == Filter(xs, p) + Filter(ys, p)
  {
    if xs == [] {
      assert xs + ys == ys;
    } else {
      assert (xs + ys)[1..] == xs[1..] + ys;
      FilterConcat(xs[1..], ys, p);
    }
  }

  /** Filtering keeps every satisfying element as many times as it occurs. */
  lemma {:induction false} FilterCount<T>(xs: seq<T>, p: T -> bool, y: T)
    ensures multiset(Filter(xs, p))[y] == if p(y) then multiset(xs)[y] else 0
  {
    if xs != [] {
      FilterCount(xs[1..], p, y);
      assert xs == [xs[0]] + xs[1..];
    }
  }

  /** A filter that every element passes changes nothing. */
  lemma {:induction false} FilterAllPass<T>(xs: seq<T>, p: T -> bool)
    requires forall j :: 0 <= j < |xs| ==> p(xs[j])
    ensures Filter(xs, p) == xs
  {
    if xs != [] {
      FilterAllPass(xs[1..], p);
    }
  }

  /** The test `s => s !== x`. */
  function Differs<T(==)>(x: T): T -> bool {
    y => y != x
  }

  /** `xs.filter(s => s !== x)`. */
  function RemoveAll<T(==)>(xs: seq<T>, x: T): (r: seq<T>)
    ensures x !in r
    ensures forall j :: 0 <= j < |r| ==> r[j] in xs
    ensures forall j :: 0 <= j < |xs| && xs[j] != x ==> multiset(r)[xs[j]] == multiset(xs)[xs[j]]
  {
    var r := Filter(xs, Differs(x));
    forall j | 0 <= j < |xs| && xs[j] != x
      ensures multiset(r)[xs[j]] == multiset(xs)[xs[j]]
    {
      FilterCount(xs, Differs(x), xs[j]);
    }
    r
  }
}
