/** Order-preserving selection from a sequence, the shape of Rust's
    `iter().filter(..).cloned().collect()`. */
module Filtering {

  /** The elements of `s` that satisfy `p`, in the order they have in `s`.
      Every element kept satisfies `p`. */
  function Filter<T(!new)>(s: seq<T>, p: T -> bool): (r: seq<T>)
    ensures |r| <= |s|
    ensures forall i :: 0 <= i < |r| ==> p(r[i])
  {
    if s == [] then []
    else
      var rest := Filter(s[1..], p);
      if p(s[0]) then [s[0]] + rest else rest
  }

  /** The selection holds every qualifying element as often as `s` does,
      and nothing else. */
  lemma {:induction false} FilterCounts<T(!new)>(s: seq<T>, p: T -> bool)
    ensures forall x :: x in Filter(s, p) <==> x in s && p(x)
    ensures forall x :: multiset(Filter(s, p))[x] == if p(x) then multiset(s)[x] else 0
    decreases |s|
  {
    if s != [] {
      FilterCounts(s[1..], p);
      assert s == [s[0]] + s[1..];
      assert multiset(s) == multiset{s[0]} + multiset(s[1..]);
    }
  }

  /** The positions `k`, `k + 1`, ... of `s` whose element satisfies `p`,
      in increasing order. */
  function SelectedIndices<T(!new)>(s: seq<T>, p: T -> bool, k: nat): seq<nat>
    requires k <= |s|
    decreases |s| - k
  {
    if k == |s| then []
    else if p(s[k]) then [k] + SelectedIndices(s, p, k + 1)
    else SelectedIndices(s, p, k + 1)
  }

  /** `r` is the subsequence of `s` at the strictly increasing positions
      `idx`, and those are exactly the positions from `k` on whose element
      satisfies `p`. */
  ghost predicate IsOrderedSelection<T(!new)>(s: seq<T>, k: nat, r: seq<T>, idx: seq<nat>, p: T -> bool)
  {
    && PicksAt(s, k, r, idx)
    && StrictlyIncreasing(idx)
    && (forall i :: k <= i < |s| ==> (p(s[i]) <==> i in idx))
  }

  /** `r[j]` is the element of `s` at position `idx[j]`, which is at least `k`. */
  ghost predicate PicksAt<T>(s: seq<T>, k: nat, r: seq<T>, idx: seq<nat>)
  {
    |idx| == |r| && forall j :: 0 <= j < |idx| ==> k <= idx[j] < |s| && r[j] == s[idx[j]]
  }

  ghost predicate StrictlyIncreasing(idx: seq<nat>)
  {
    forall j, j' :: 0 <= j < j' < |idx| ==> idx[j] < idx[j']
  }

  lemma {:induction false} FilterSuffixIsOrderedSelection<T(!new)>(s: seq<T>, p: T -> bool, k: nat)
    requires k <= |s|
    ensures IsOrderedSelection(s, k, Filter(s[k..], p), SelectedIndices(s, p, k), p)
  {
    SuffixPicks(s, p, k);
    SelectedIndicesMembers(s, p, k);
  }

  lemma {:induction false} SuffixPicks<T(!new)>(s: seq<T>, p: T -> bool, k: nat)
    requires k <= |s|
    ensures PicksAt(s, k, Filter(s[k..], p), SelectedIndices(s, p, k))
    ensures StrictlyIncreasing(SelectedIndices(s, p, k))
    decreases |s| - k
  {
    if k < |s| {
      SuffixPicks(s, p, k + 1);
      var rest, restIdx := Filter(s[k + 1..], p), SelectedIndices(s, p, k + 1);
      assert s[k..] == [s[k]] + s[k + 1..];
      FilterCons(s[k], s[k + 1..], p);
      if p(s[k]) {
        ConsPick(s, k, rest, restIdx);
      }
    }
  }

  lemma {:induction false} SelectedIndicesMembers<T(!new)>(s: seq<T>, p: T -> bool, k: nat)
    requires k <= |s|
    ensures forall i :: k <= i < |s| ==> (p(s[i]) <==> i in SelectedIndices(s, p, k))
    ensures forall i :: i in SelectedIndices(s, p, k) ==> k <= i
    decreases |s| - k
  {
    if k < |s| {
      SelectedIndicesMembers(s, p, k + 1);
    }
  }

  lemma FilterCons<T(!new)>(x: T, s: seq<T>, p: T -> bool)
    ensures Filter([x] + s, p) == if p(x) then [x] + Filter(s, p) else Filter(s, p)
  {
    assert ([x] + s)[1..] == s;
  }

  lemma ConsPick<T>(s: seq<T>, k: nat, rest: seq<T>, restIdx: seq<nat>)
    requires k < |s| && PicksAt(s, k + 1, rest, restIdx) && StrictlyIncreasing(restIdx)
    ensures PicksAt(s, k, [s[k]] + rest, [k] + restIdx) && StrictlyIncreasing([k] + restIdx)
  {
  }

  /** What `Filter` returns is the in-order subsequence of the elements
      that satisfy the predicate, each position taken once. */
  lemma FilterIsOrderedSelection<T(!new)>(s: seq<T>, p: T -> bool)
    ensures IsOrderedSelection(s, 0, Filter(s, p), SelectedIndices(s, p, 0), p)
  {
    FilterSuffixIsOrderedSelection(s, p, 0);
    assert s[0..] == s;
  }

  /** Filtering keeps the whole sequence when every element qualifies. */
  lemma {:induction false} FilterKeepsAll<T(!new)>(s: seq<T>, p: T -> bool)
    requires forall i :: 0 <= i < |s| ==> p(s[i])
    ensures Filter(s, p) == s
    decreases |s|
  {
    if s != [] {
      FilterKeepsAll(s[1..], p);
      assert s == [s[0]] + s[1..];
    }
  }

  /** Filtering by a predicate `q` stronger than `p` first by `p` and then
      by `q` selects the same subsequence, in the same order, as `q` alone. */
  lemma {:induction false} FilterOfFilter<T(!new)>(s: seq<T>, p: T -> bool, q: T -> bool)
    requires forall x :: q(x) ==> p(x)
    ensures Filter(Filter(s, p), q) == Filter(s, q)
    decreases |s|
  {
    if s != [] {
      FilterOfFilter(s[1..], p, q);
      if p(s[0]) {
        var rest := Filter(s[1..], p);
        assert ([s[0]] + rest)[1..] == rest;
      }
    }
  }

  /** Appending an element extends the selection by that element exactly
      when it qualifies. */
  lemma {:induction false} FilterAppend<T(!new)>(s: seq<T>, x: T, p: T -> bool)
    ensures Filter(s + [x], p) == Filter(s, p) + (if p(x) then [x] else [])
    decreases |s|
  {
    if s == [] {
      assert [] + [x] == [x];
    } else {
      FilterAppend(s[1..], x, p);
      assert s + [x] == [s[0]] + (s[1..] + [x]);
      assert s == [s[0]] + s[1..];
      FilterCons(s[0], s[1..] + [x], p);
      FilterCons(s[0], s[1..], p);
    }
  }
}
