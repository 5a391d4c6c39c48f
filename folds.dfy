/** The two loop shapes every script repeats: a dictionary filled line by line, where a later
    key overwrites an earlier one, and a list that gets one element per matching input. */
module Folds {
  import opened Wrappers

  // ---------------------------------------------------------------- dictionary, last write wins

  /** The dictionary left by `for x in xs: if f(x) gives (k, v): d[k] = v`, starting empty. */
  function FoldMap<T, K, V>(xs: seq<T>, f: T -> Option<(K, V)>): map<K, V>
    decreases |xs|
  {
    if xs == [] then map[]
    else
      var m := FoldMap(xs[..|xs| - 1], f);
      match f(xs[|xs| - 1])
      case None => m
      case Some(kv) => m[kv.0 := kv.1]
  }

  /** `x` writes the key `k`. */
  predicate Writes<T, K(==), V>(f: T -> Option<(K, V)>, x: T, k: K) {
    f(x).Some? && f(x).value.0 == k
  }

  /** The index of the last element of `xs` that writes `k`, or -1. */
  function LastWriter<T, K(==), V>(xs: seq<T>, f: T -> Option<(K, V)>, k: K): (r: int)
    ensures -1 <= r < |xs|
    ensures r >= 0 ==> Writes(f, xs[r], k)
    ensures forall j :: r < j < |xs| ==> !Writes(f, xs[j], k)
    decreases |xs|
  {
    if xs == [] then -1
    else if Writes(f, xs[|xs| - 1], k) then |xs| - 1
    else LastWriter(xs[..|xs| - 1], f, k)
  }

  /** A key is present exactly when some element writes it, and it holds the value the last
      such element wrote. */
  lemma {:induction false} FoldMapLastWins<T, K, V>(xs: seq<T>, f: T -> Option<(K, V)>, k: K)
    ensures k in FoldMap(xs, f) <==> LastWriter(xs, f, k) >= 0
    ensures k in FoldMap(xs, f) ==> FoldMap(xs, f)[k] == f(xs[LastWriter(xs, f, k)]).value.1
    decreases |xs|
  {
    if xs != [] {
      FoldMapLastWins(xs[..|xs| - 1], f, k);
    }
  }

  /** The same, with the writer named by an index. */
  lemma FoldMapLookup<T, K, V>(xs: seq<T>, f: T -> Option<(K, V)>, k: K)
    ensures k in FoldMap(xs, f) <==> exists i :: 0 <= i < |xs| && Writes(f, xs[i], k)
    ensures k in FoldMap(xs, f) ==> exists i :: (0 <= i < |xs| && Writes(f, xs[i], k)
      && FoldMap(xs, f)[k] == f(xs[i]).value.1
      && forall j :: i < j < |xs| ==> !Writes(f, xs[j], k))
  {
    FoldMapLastWins(xs, f, k);
    var w := LastWriter(xs, f, k);
    if w >= 0 {
      assert 0 <= w < |xs| && Writes(f, xs[w], k);
    }
  }

  /** `m[k]` is as a dictionary filled from `xs` by `f` leaves it: present exactly when some
      element writes `k`, and then the value of the last element that does. */
  predicate LastWins<T, K(==), V(==)>(m: map<K, V>, xs: seq<T>, f: T -> Option<(K, V)>, k: K) {
    && (k in m <==> exists i :: 0 <= i < |xs| && Writes(f, xs[i], k))
    && (k in m ==> exists i :: (0 <= i < |xs| && Writes(f, xs[i], k) && m[k] == f(xs[i]).value.1
          && forall j :: i < j < |xs| ==> !Writes(f, xs[j], k)))
  }

  lemma FoldMapWins<T, K, V>(xs: seq<T>, f: T -> Option<(K, V)>, k: K)
    ensures LastWins(FoldMap(xs, f), xs, f, k)
  {
    FoldMapLookup(xs, f, k);
  }

  /** The loop itself. */
  method FillMap<T, K, V>(xs: seq<T>, f: T -> Option<(K, V)>) returns (m: map<K, V>)
    ensures m == FoldMap(xs, f)
  {
    m := map[];
    for i := 0 to |xs|
      invariant m == FoldMap(xs[..i], f)
    {
      assert xs[..i + 1][..i] == xs[..i];
      match f(xs[i]) {
        case None =>
        case Some(kv) => m := m[kv.0 := kv.1];
      }
    }
    assert xs[..|xs|] == xs;
  }

  /** Appending after a concatenation is appending to its second part. */
  lemma AppendAssoc<T>(a: seq<T>, b: seq<T>, c: seq<T>)
    ensures a + b + c == a + (b + c)
  {
  }

  // ---------------------------------------------------------------- list, one element per match

  /** The list left by `for x in xs: if f(x) gives u: out.append(u)`, starting empty. */
  function FilterMap<T, U>(xs: seq<T>, f: T -> Option<U>): seq<U>
    decreases |xs|
  {
    if xs == [] then []
    else
      FilterMap(xs[..|xs| - 1], f)
      + match f(xs[|xs| - 1]) case None => [] case Some(u) => [u]
  }

  /** What one element contributes. */
  function Emit<T, U>(x: T, f: T -> Option<U>): seq<U> {
    match f(x) case None => [] case Some(u) => [u]
  }

  /** The output of a concatenation is the concatenation of the outputs: order is kept and
      nothing is merged or dropped across a boundary. */
  lemma {:induction false} FilterMapAppend<T, U>(a: seq<T>, b: seq<T>, f: T -> Option<U>)
    ensures FilterMap(a + b, f) == FilterMap(a, f) + FilterMap(b, f)
    decreases |b|
  {
    if b == [] {
      assert a + b == a;
    } else {
      var b' := b[..|b| - 1];
      assert (a + b)[..|a + b| - 1] == a + b';
      assert (a + b)[|a + b| - 1] == b[|b| - 1];
      FilterMapAppend(a, b', f);
    }
  }

  /** Every element contributes exactly what `f` says about it, in input order. */
  lemma {:induction false} FilterMapCons<T, U>(x: T, xs: seq<T>, f: T -> Option<U>)
    ensures FilterMap([x] + xs, f) == Emit(x, f) + FilterMap(xs, f)
  {
    FilterMapAppend([x], xs, f);
    assert [x][..0] == [];
  }

  /** One output element per input element at most. */
  lemma {:induction false} FilterMapLength<T, U>(xs: seq<T>, f: T -> Option<U>)
    ensures |FilterMap(xs, f)| <= |xs|
    decreases |xs|
  {
    if xs != [] {
      FilterMapLength(xs[..|xs| - 1], f);
    }
  }

  /** `u` is in the output exactly when some input element yields it. */
  lemma {:induction false} FilterMapMember<T, U>(xs: seq<T>, f: T -> Option<U>, u: U)
    ensures u in FilterMap(xs, f) <==> exists i :: 0 <= i < |xs| && f(xs[i]) == Some(u)
    decreases |xs|
  {
    if xs != [] {
      var init := xs[..|xs| - 1];
      FilterMapMember(init, f, u);
      assert forall i :: 0 <= i < |init| ==> init[i] == xs[i];
    }
  }

  /** Extending the prefix by one element appends what that element contributes. */
  lemma FilterMapStep<T, U>(xs: seq<T>, i: int, f: T -> Option<U>)
    requires 0 <= i < |xs|
    ensures FilterMap(xs[..i + 1], f) == FilterMap(xs[..i], f) + Emit(xs[i], f)
  {
    assert xs[..i + 1][..i] == xs[..i];
  }

  /** The loop itself. */
  method Collect<T, U>(xs: seq<T>, f: T -> Option<U>) returns (out: seq<U>)
    ensures out == FilterMap(xs, f)
  {
    out := [];
    for i := 0 to |xs|
      invariant out == FilterMap(xs[..i], f)
    {
      assert xs[..i + 1][..i] == xs[..i];
      match f(xs[i]) {
        case None =>
        case Some(u) => out := out + [u];
      }
    }
    assert xs[..|xs|] == xs;
  }

  // ---------------------------------------------------------------- set, one element per match

  /** The set left by `for x in xs: if f(x) gives u: s.add(u)`, starting empty. */
  function FilterSet<T, U>(xs: seq<T>, f: T -> Option<U>): set<U>
    decreases |xs|
  {
    if xs == [] then {}
    else
      FilterSet(xs[..|xs| - 1], f)
      + match f(xs[|xs| - 1]) case None => {} case Some(u) => {u}
  }

  /** `u` is in the set exactly when some input element yields it. */
  lemma {:induction false} FilterSetMember<T, U>(xs: seq<T>, f: T -> Option<U>, u: U)
    ensures u in FilterSet(xs, f) <==> exists i :: 0 <= i < |xs| && f(xs[i]) == Some(u)
    decreases |xs|
  {
    if xs != [] {
      var init := xs[..|xs| - 1];
      FilterSetMember(init, f, u);
      assert forall i :: 0 <= i < |init| ==> init[i] == xs[i];
    }
  }

  /** The union of `f(x)` over the elements of `xs`: `for x in xs: s.update(f(x))`. */
  function UnionOf<T, U>(xs: seq<T>, f: T -> set<U>): set<U>
    decreases |xs|
  {
    if xs == [] then {} else UnionOf(xs[..|xs| - 1], f) + f(xs[|xs| - 1])
  }

  lemma {:induction false} UnionOfMember<T, U>(xs: seq<T>, f: T -> set<U>, u: U)
    ensures u in UnionOf(xs, f) <==> exists i :: 0 <= i < |xs| && u in f(xs[i])
    decreases |xs|
  {
    if xs != [] {
      var init := xs[..|xs| - 1];
      UnionOfMember(init, f, u);
      assert forall i :: 0 <= i < |init| ==> init[i] == xs[i];
    }
  }

  /** The concatenation of `g(x)` over the elements of `xs`: `for x in xs: out.extend(g(x))`. */
  function FlatMap<T, U>(xs: seq<T>, g: T -> seq<U>): seq<U>
    decreases |xs|
  {
    if xs == [] then [] else FlatMap(xs[..|xs| - 1], g) + g(xs[|xs| - 1])
  }

  lemma {:induction false} FlatMapMember<T, U>(xs: seq<T>, g: T -> seq<U>, u: U)
    ensures u in FlatMap(xs, g) <==> exists i :: 0 <= i < |xs| && u in g(xs[i])
    decreases |xs|
  {
    if xs != [] {
      var init := xs[..|xs| - 1];
      FlatMapMember(init, g, u);
      assert forall i :: 0 <= i < |init| ==> init[i] == xs[i];
    }
  }

  /** Extending the prefix by one element appends what that element contributes. */
  lemma FlatMapStep<T, U>(xs: seq<T>, i: int, g: T -> seq<U>)
    requires 0 <= i < |xs|
    ensures FlatMap(xs[..i + 1], g) == FlatMap(xs[..i], g) + g(xs[i])
  {
    assert xs[..i + 1][..i] == xs[..i];
  }

  /** The parts contribute independently and in order. */
  lemma {:induction false} FlatMapAppend<T, U>(a: seq<T>, b: seq<T>, g: T -> seq<U>)
    ensures FlatMap(a + b, g) == FlatMap(a, g) + FlatMap(b, g)
    decreases |b|
  {
    if b == [] {
      assert a + b == a;
    } else {
      var init := b[..|b| - 1];
      assert (a + b)[..|a + b| - 1] == a + init;
      FlatMapAppend(a, init, g);
    }
  }

  // ---------------------------------------------------------------- first match

  /** The index of the first element satisfying `p`, or -1: `next(i for i, x in enumerate(xs) if p(x))`. */
  function FirstIndex<T>(xs: seq<T>, p: T -> bool): (r: int)
    ensures -1 <= r < |xs|
    ensures r >= 0 ==> p(xs[r]) && forall j :: 0 <= j < r ==> !p(xs[j])
    ensures r == -1 <==> forall j :: 0 <= j < |xs| ==> !p(xs[j])
    decreases |xs|
  {
    if xs == [] then -1
    else if p(xs[0]) then 0
    else
      var k := FirstIndex(xs[1..], p);
      assert forall j :: 1 <= j < |xs| ==> xs[j] == xs[1..][j - 1];
      if k < 0 then -1 else k + 1
  }

  /** A scan that stopped at the first element satisfying `p`. */
  lemma FirstIndexAt<T>(xs: seq<T>, p: T -> bool, i: int)
    requires 0 <= i < |xs| && p(xs[i]) && forall j :: 0 <= j < i ==> !p(xs[j])
    ensures FirstIndex(xs, p) == i
  {
  }

  /** The index of the last element satisfying `p`, or -1. */
  function LastIndex<T>(xs: seq<T>, p: T -> bool): (r: int)
    ensures -1 <= r < |xs|
    ensures r >= 0 ==> p(xs[r]) && forall j :: r < j < |xs| ==> !p(xs[j])
    ensures r == -1 <==> forall j :: 0 <= j < |xs| ==> !p(xs[j])
    decreases |xs|
  {
    if xs == [] then -1
    else if p(xs[|xs| - 1]) then |xs| - 1
    else
      assert forall j :: 0 <= j < |xs| - 1 ==> xs[j] == xs[..|xs| - 1][j];
      LastIndex(xs[..|xs| - 1], p)
  }

  /** Extending the prefix by one element: that element if it satisfies `p`, else as before; and
      membership grows by that element. */
  lemma LastIndexStep<T>(xs: seq<T>, i: int, p: T -> bool)
    requires 0 <= i < |xs|
    ensures LastIndex(xs[..i + 1], p) == if p(xs[i]) then i else LastIndex(xs[..i], p)
    ensures xs[..i + 1] == xs[..i] + [xs[i]]
  {
    assert xs[..i + 1][..i] == xs[..i];
  }

  // ---------------------------------------------------------------- counting

  /** How many elements satisfy `p`. */
  function Count<T>(xs: seq<T>, p: T -> bool): (n: nat)
    ensures n <= |xs|
    decreases |xs|
  {
    if xs == [] then 0 else Count(xs[..|xs| - 1], p) + (if p(xs[|xs| - 1]) then 1 else 0)
  }

  lemma {:induction false} CountAppend<T>(a: seq<T>, b: seq<T>, p: T -> bool)
    ensures Count(a + b, p) == Count(a, p) + Count(b, p)
    decreases |b|
  {
    if b == [] {
      assert a + b == a;
    } else {
      assert (a + b)[..|a + b| - 1] == a + b[..|b| - 1];
      CountAppend(a, b[..|b| - 1], p);
    }
  }

  lemma CountStep<T>(xs: seq<T>, i: int, p: T -> bool)
    requires 0 <= i < |xs|
    ensures Count(xs[..i + 1], p) == Count(xs[..i], p) + (if p(xs[i]) then 1 else 0)
  {
    assert xs[..i + 1][..i] == xs[..i];
  }

  lemma CountCons<T>(x: T, xs: seq<T>, p: T -> bool)
    ensures Count([x] + xs, p) == (if p(x) then 1 else 0) + Count(xs, p)
  {
    CountAppend([x], xs, p);
    assert [x][..0] == [];
  }

  /** When every element satisfies `p`, all of them are counted. */
  lemma {:induction false} CountAll<T>(xs: seq<T>, p: T -> bool)
    requires forall i :: 0 <= i < |xs| ==> p(xs[i])
    ensures Count(xs, p) == |xs|
    decreases |xs|
  {
    if xs != [] {
      CountAll(xs[..|xs| - 1], p);
    }
  }

  /** The test of a boolean result: `if ok: n += 1`. */
  predicate IsTrue(b: bool) { b }

  /** `n = 0; for x in xs: if p(x): n += 1`. */
  method CountWhere<T>(xs: seq<T>, p: T -> bool) returns (n: nat)
    ensures n == Count(xs, p)
  {
    n := 0;
    for i := 0 to |xs|
      invariant n == Count(xs[..i], p)
    {
      CountStep(xs, i, p);
      if p(xs[i]) {
        n := n + 1;
      }
    }
    assert xs[..|xs|] == xs;
  }
}
