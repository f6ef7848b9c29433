/** List comprehensions the code uses over and over: filtering, flattening
    and dropping repeated elements while keeping first-seen order. */
module Seqs {

  /** `[x for x in xs if p(x)]`. */
  function Filter<T>(xs: seq<T>, p: T -> bool): (r: seq<T>)
    ensures |r| <= |xs|
    ensures forall i :: 0 <= i < |r| ==> p(r[i]) && r[i] in xs
  {
    if xs == [] then []
    else if p(xs[0]) then [xs[0]] + Filter(xs[1..], p)
    else Filter(xs[1..], p)
  }

  lemma {:induction false} FilterAppend<T>(xs: seq<T>, ys: seq<T>, p: T -> bool)
    ensures Filter(xs + ys, p) == Filter(xs, p) + Filter(ys, p)
  {
    if xs == [] {
      assert xs + ys == ys;
    } else {
      assert (xs + ys)[0] == xs[0];
      assert (xs + ys)[1..] == xs[1..] + ys;
      FilterAppend(xs[1..], ys, p);
    }
  }

  /** Filtering one more element of a prefix, as a loop that appends does. */
  lemma FilterSnoc<T>(xs: seq<T>, i: nat, p: T -> bool)
    requires i < |xs|
    ensures p(xs[i]) ==> Filter(xs[..i + 1], p) == Filter(xs[..i], p) + [xs[i]]
    ensures !p(xs[i]) ==> Filter(xs[..i + 1], p) == Filter(xs[..i], p)
  {
    assert xs[..i + 1] == xs[..i] + [xs[i]];
    FilterAppend(xs[..i], [xs[i]], p);
    assert Filter([xs[i]], p) == if p(xs[i]) then [xs[i]] else [];
    assert Filter(xs[..i], p) + [] == Filter(xs[..i], p);
  }

  /** Every element satisfying `p` is kept. */
  lemma {:induction false} FilterKeeps<T>(xs: seq<T>, p: T -> bool, x: T)
    requires x in xs && p(x)
    ensures x in Filter(xs, p)
  {
    if xs[0] != x { FilterKeeps(xs[1..], p, x); }
  }

  /** An element is in the filtered list exactly when it is in the list and
      satisfies `p`. */
  lemma FilterMember<T>(xs: seq<T>, p: T -> bool, x: T)
    ensures x in Filter(xs, p) <==> x in xs && p(x)
  {
    if x in xs && p(x) {
      FilterKeeps(xs, p, x);
    }
    if x in Filter(xs, p) {
      var r := Filter(xs, p);
      var i :| 0 <= i < |r| && r[i] == x;
    }
  }

  /** A list whose every element satisfies `p` is its own filter. */
  lemma {:induction false} FilterAll<T>(xs: seq<T>, p: T -> bool)
    requires forall i :: 0 <= i < |xs| ==> p(xs[i])
    ensures Filter(xs, p) == xs
  {
    if xs != [] { FilterAll(xs[1..], p); }
  }

  /** Filtering by a predicate and by its negation splits a list. */
  lemma {:induction false} FilterSplit<T>(xs: seq<T>, p: T -> bool, q: T -> bool)
    requires forall x :: q(x) == !p(x)
    ensures |Filter(xs, p)| + |Filter(xs, q)| == |xs|
  {
    if xs != [] { FilterSplit(xs[1..], p, q); }
  }

  /** A prefix one longer is the prefix with the next element appended. */
  lemma TakeSnoc<T>(xs: seq<T>, i: nat)
    requires i < |xs|
    ensures xs[..i + 1] == xs[..i] + [xs[i]]
  {
    assert xs[..i + 1][i] == xs[i];
  }

  /** The longest prefix of `xs` whose every element satisfies `p`: what a
      loop over `xs` reaches before the first element that makes it stop. */
  function TakeWhile<T>(xs: seq<T>, p: T -> bool): (r: seq<T>)
    ensures |r| <= |xs| && r == xs[..|r|]
    ensures forall i :: 0 <= i < |r| ==> p(xs[i])
    ensures |r| < |xs| ==> !p(xs[|r|])
  {
    if xs == [] || !p(xs[0]) then []
    else
      var t := TakeWhile(xs[1..], p);
      assert forall i :: 1 <= i <= |t| ==> xs[i] == xs[1..][i - 1];
      [xs[0]] + t
  }

  /** A loop that got through `i` elements and stops at the next one (or
      at the end) has gone through exactly `TakeWhile`. */
  lemma TakeWhileAt<T>(xs: seq<T>, p: T -> bool, i: nat)
    requires i <= |xs|
    requires forall j :: 0 <= j < i ==> p(xs[j])
    requires i < |xs| ==> !p(xs[i])
    ensures TakeWhile(xs, p) == xs[..i]
  {
  }

  /** Concatenation of a list of lists. */
  function Flatten<T>(xss: seq<seq<T>>): (r: seq<T>) {
    if xss == [] then [] else xss[0] + Flatten(xss[1..])
  }

  lemma {:induction false} FlattenSnoc<T>(xss: seq<seq<T>>, i: nat)
    requires i < |xss|
    ensures Flatten(xss[..i + 1]) == Flatten(xss[..i]) + xss[i]
  {
    if i > 0 {
      assert xss[..i + 1][1..] == xss[1..][..i];
      assert xss[..i][1..] == xss[1..][..i - 1];
      FlattenSnoc(xss[1..], i - 1);
    }
  }

  /** The distinct elements of `xs` in order of first occurrence. */
  function Dedup<T(==,!new)>(xs: seq<T>): (r: seq<T>)
    ensures forall x :: x in r <==> x in xs
  {
    if xs == [] then []
    else
      var d := Dedup(xs[..|xs| - 1]);
      assert xs == xs[..|xs| - 1] + [xs[|xs| - 1]];
      if xs[|xs| - 1] in d then d else d + [xs[|xs| - 1]]
  }

  ghost predicate Distinct<T>(xs: seq<T>) {
    forall i, j :: 0 <= i < j < |xs| ==> xs[i] != xs[j]
  }

  /** A new element appended keeps a sequence distinct. */
  lemma DistinctSnoc<T>(xs: seq<T>, x: T)
    requires Distinct(xs) && x !in xs
    ensures Distinct(xs + [x])
  {
    var ys := xs + [x];
    forall i, j | 0 <= i < j < |ys| ensures ys[i] != ys[j] {
      assert ys[i] == xs[i];
      if j < |xs| { assert ys[j] == xs[j]; }
    }
  }

  lemma {:induction false} DedupDistinct<T(!new)>(xs: seq<T>)
    ensures Distinct(Dedup(xs))
  {
    if xs != [] { DedupDistinct(xs[..|xs| - 1]); }
  }

  /** A list with no repeats is its own de-duplication. */
  lemma {:induction false} DedupOfDistinct<T(!new)>(xs: seq<T>)
    requires Distinct(xs)
    ensures Dedup(xs) == xs
  {
    if xs != [] {
      DedupOfDistinct(xs[..|xs| - 1]);
      assert xs == xs[..|xs| - 1] + [xs[|xs| - 1]];
    }
  }
}
