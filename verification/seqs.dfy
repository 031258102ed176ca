/** Option, as the session and lookup results of the application use it
    (`null` / `undefined` on one side, a value on the other). */
module Wrappers {

  datatype Option<+T> = None | Some(value: T)

}

/** Sequence helpers shared by the route handlers and the components:
    JavaScript's `Array.prototype.filter`, `Array.from(new Set(..))`,
    the add-if-absent / remove-if-present toggle, `slice`, an ordering
    by an integer key (the ORM's `orderBy`), and integer ceiling division
    (`Math.ceil(a / b)`). */
module Seqs {

  /** `xs` occurs in `ys` in the same order, possibly with gaps. */
  predicate IsSubsequence<T(==)>(xs: seq<T>, ys: seq<T>)
    decreases |ys|
  {
    if |xs| == 0 then true
    else if |ys| == 0 then false
    else if xs[0] == ys[0] then IsSubsequence(xs[1..], ys[1..])
    else IsSubsequence(xs, ys[1..])
  }

  predicate NoDuplicates<T(==)>(xs: seq<T>) {
    forall i, j :: 0 <= i < j < |xs| ==> xs[i] != xs[j]
  }

  /** `xs.filter(p)`: the order-preserving subsequence of the elements
      that satisfy `p`. */
  function Filter<T(==,!new)>(p: T -> bool, xs: seq<T>): (r: seq<T>)
    ensures |r| <= |xs|
    ensures forall x :: x in r <==> x in xs && p(x)
    ensures IsSubsequence(r, xs)
    ensures (forall i :: 0 <= i < |xs| ==> p(xs[i])) <==> r == xs
    ensures |r| == 0 <==> forall i :: 0 <= i < |xs| ==> !p(xs[i])
  {
    if |xs| == 0 then []
    else
      var rest := Filter(p, xs[1..]);
      assert forall i :: 1 <= i < |xs| ==> xs[i] == xs[1..][i - 1];
      if p(xs[0]) then
        assert ([xs[0]] + rest)[1..] == rest;
        [xs[0]] + rest
      else
        assert |rest| > 0 ==> rest[0] in rest;
        assert rest != xs by { assert xs[0] !in rest; }
        rest
  }

  /** Filtering keeps every satisfying element as often as it occurs and
      drops the others entirely. */
  lemma {:induction false} FilterMultiplicity<T(!new)>(p: T -> bool, xs: seq<T>)
    ensures forall x :: multiset(Filter(p, xs))[x] == if p(x) then multiset(xs)[x] else 0
    decreases |xs|
  {
    if |xs| > 0 {
      FilterMultiplicity(p, xs[1..]);
      assert xs == [xs[0]] + xs[1..];
    }
  }

  /** Filtering distributes over concatenation. */
  lemma {:induction false} FilterConcat<T(!new)>(p: T -> bool, a: seq<T>, b: seq<T>)
    ensures Filter(p, a + b) == Filter(p, a) + Filter(p, b)
    decreases |a|
  {
    if |a| == 0 {
      assert a + b == b;
    } else {
      assert (a + b)[1..] == a[1..] + b;
      FilterConcat(p, a[1..], b);
    }
  }

  /** Two predicates that agree on every element filter alike. */
  lemma {:induction false} FilterCongruent<T(!new)>(p: T -> bool, q: T -> bool, xs: seq<T>)
    requires forall x :: p(x) == q(x)
    ensures Filter(p, xs) == Filter(q, xs)
    decreases |xs|
  {
    if |xs| > 0 {
      FilterCongruent(p, q, xs[1..]);
    }
  }

  /** Number of elements satisfying `p`: `xs.filter(p).length`. */
  lemma FilterCountBounds<T(!new)>(p: T -> bool, xs: seq<T>)
    ensures 0 <= |Filter(p, xs)| <= |xs|
    ensures |Filter(p, xs)| == |xs| <==> forall i :: 0 <= i < |xs| ==> p(xs[i])
    ensures |Filter(p, xs)| == 0 <==> forall i :: 0 <= i < |xs| ==> !p(xs[i])
  {
    var r := Filter(p, xs);
    if |r| == |xs| {
      SubsequenceOfSameLength(r, xs);
    }
  }

  /** A subsequence as long as the sequence is the sequence itself. */
  lemma {:induction false} SubsequenceOfSameLength<T>(xs: seq<T>, ys: seq<T>)
    requires IsSubsequence(xs, ys) && |xs| == |ys|
    ensures xs == ys
    decreases |ys|
  {
    if |xs| != 0 {
      if xs[0] == ys[0] {
        SubsequenceOfSameLength(xs[1..], ys[1..]);
        assert xs == [xs[0]] + xs[1..];
        assert ys == [ys[0]] + ys[1..];
      } else {
        SubsequenceNotLonger(xs, ys[1..]);
        assert false;
      }
    }
  }

  lemma {:induction false} SubsequenceNotLonger<T>(xs: seq<T>, ys: seq<T>)
    requires IsSubsequence(xs, ys)
    ensures |xs| <= |ys|
    decreases |ys|
  {
    if |xs| != 0 {
      if xs[0] == ys[0] {
        SubsequenceNotLonger(xs[1..], ys[1..]);
      } else {
        SubsequenceNotLonger(xs, ys[1..]);
      }
    }
  }

  /** All occurrences of `v` removed, the rest kept in order. */
  function RemoveAll<T(==,!new)>(xs: seq<T>, v: T): (r: seq<T>)
    ensures v !in r
    ensures forall w :: w != v ==> (w in r <==> w in xs)
    ensures IsSubsequence(r, xs)
    ensures v !in xs <==> r == xs
  {
    Filter(x => x != v, xs)
  }

  /** The selection toggle of the filter panels: a present value is
      removed (every occurrence), an absent one is appended. */
  function Toggle<T(==,!new)>(sel: seq<T>, v: T): (r: seq<T>)
    ensures v in r <==> v !in sel
    ensures forall w :: w != v ==> (w in r <==> w in sel)
    ensures v !in sel ==> r == sel + [v]
    ensures v in sel ==> IsSubsequence(r, sel) && |r| < |sel|
  {
    if v in sel then
      var r := RemoveAll(sel, v);
      assert |r| < |sel| by {
        SubsequenceNotLonger(r, sel);
        if |r| == |sel| {
          SubsequenceOfSameLength(r, sel);
        }
      }
      r
    else sel + [v]
  }

  /** Toggling an absent value twice gives back the original selection. */
  lemma ToggleTwiceRestores<T(!new)>(sel: seq<T>, v: T)
    requires v !in sel
    ensures Toggle(Toggle(sel, v), v) == sel
  {
    var p := (x: T) => x != v;
    FilterConcat(p, sel, [v]);
    assert Filter(p, [v]) == [];
    assert Filter(p, sel) == sel;
  }

  /** Toggling a present value twice keeps the same members, with `v`
      moved to the end: the selection round-trips as a set, not as a
      sequence. */
  lemma ToggleTwicePresent<T(!new)>(sel: seq<T>, v: T)
    requires v in sel
    ensures Toggle(Toggle(sel, v), v) == RemoveAll(sel, v) + [v]
    ensures forall w :: w in Toggle(Toggle(sel, v), v) <==> w in sel
  {
  }

  /** Index of the first occurrence of `v` in `xs`. */
  function FirstIndex<T(==)>(xs: seq<T>, v: T): (i: nat)
    requires v in xs
    ensures i < |xs| && xs[i] == v
    ensures forall j :: 0 <= j < i ==> xs[j] != v
  {
    if xs[0] == v then 0
    else
      var k := FirstIndex(xs[1..], v);
      assert forall j :: 1 <= j < k + 1 ==> xs[j] == xs[1..][j - 1];
      k + 1
  }

  /** `Array.from(new Set(xs))`: each value once, in the order of its
      first occurrence (a `Set` iterates in insertion order). */
  function Distinct<T(==,!new)>(xs: seq<T>): (r: seq<T>)
    ensures NoDuplicates(r)
    ensures forall x :: x in r <==> x in xs
    ensures forall i, j :: 0 <= i < j < |r| ==> FirstIndex(xs, r[i]) < FirstIndex(xs, r[j])
    decreases |xs|
  {
    if |xs| == 0 then []
    else
      var init := xs[..|xs| - 1];
      var last := xs[|xs| - 1];
      var r := Distinct(init);
      assert xs == init + [last];
      forall x | x in init
        ensures FirstIndex(xs, x) == FirstIndex(init, x)
      {
        FirstIndexOfPrefix(init, [last], x);
      }
      if last in r then r
      else
        assert FirstIndex(xs, last) == |xs| - 1;
        r + [last]
  }

  lemma FirstIndexOfPrefix<T>(a: seq<T>, b: seq<T>, v: T)
    requires v in a
    ensures FirstIndex(a + b, v) == FirstIndex(a, v)
  {
    var i := FirstIndex(a, v);
    var k := FirstIndex(a + b, v);
    assert (a + b)[i] == v;
  }

  /** `s.slice(start, end)` for non-negative arguments: both ends are
      clamped to the length of `s`. */
  function Slice<T>(s: seq<T>, start: nat, end: nat): (r: seq<T>)
    ensures |r| == if start < end && start < |s| then Min(end, |s|) - start else 0
    ensures forall i :: 0 <= i < |r| ==> start + i < |s| && r[i] == s[start + i]
  {
    var a := Min(start, |s|);
    var b := Min(end, |s|);
    if a < b then s[a..b] else []
  }

  function Min(a: int, b: int): int { if a <= b then a else b }

  function Max(a: int, b: int): int { if a <= b then b else a }

  /** `xs` is in non-decreasing order of `key`. */
  predicate SortedBy<T>(key: T -> int, xs: seq<T>) {
    forall i, j :: 0 <= i < j < |xs| ==> key(xs[i]) <= key(xs[j])
  }

  function Insert<T(==)>(key: T -> int, x: T, xs: seq<T>): (r: seq<T>)
    requires SortedBy(key, xs)
    ensures SortedBy(key, r)
    ensures multiset(r) == multiset(xs) + multiset{x}
  {
    if |xs| == 0 then [x]
    else if key(x) <= key(xs[0]) then [x] + xs
    else
      var rest := Insert(key, x, xs[1..]);
      assert xs == [xs[0]] + xs[1..];
      forall y | y in rest ensures key(xs[0]) <= key(y) {
        assert y in multiset(rest);
        assert y == x || y in multiset(xs[1..]);
      }
      [xs[0]] + rest
  }

  /** An ordering of `xs` by `key`, ascending: a permutation of `xs` that
      is sorted. The database leaves the relative order of equal keys
      unspecified, and so does this contract. */
  function SortBy<T(==)>(key: T -> int, xs: seq<T>): (r: seq<T>)
    ensures SortedBy(key, r)
    ensures multiset(r) == multiset(xs)
    ensures |r| == |xs|
  {
    if |xs| == 0 then []
    else
      assert xs == [xs[0]] + xs[1..];
      Insert(key, xs[0], SortBy(key, xs[1..]))
  }

  /** `Math.ceil(a / b)` for a non-negative `a` and a positive `b`: the
      least number of `b`-sized pages that hold `a` items. */
  function CeilDiv(a: nat, b: nat): (r: nat)
    requires b > 0
    ensures a <= r * b
    ensures r == 0 || (r - 1) * b < a
    ensures r == 0 <==> a == 0
  {
    var q := (a + b - 1) / b;
    var m := (a + b - 1) % b;
    assert a + b - 1 == q * b + m && 0 <= m < b;
    assert q * b == a + b - 1 - m;
    assert (q - 1) * b == q * b - b;
    q
  }
}
