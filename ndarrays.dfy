/** N-dimensional arrays as a shape plus the elements in row-major (C) order,
    and NumPy's rule for broadcasting an array to a larger shape. */
module NdArrays {
  import opened Outcomes

  function Last(s: seq<nat>): nat
    requires s != []
  {
    s[|s| - 1]
  }

  function Init(s: seq<nat>): seq<nat>
    requires s != []
  {
    s[..|s| - 1]
  }

  /** Number of elements of an array of this shape; a 0-d array holds one. */
  function Product(shape: seq<nat>): nat
  {
    if shape == [] then 1 else Product(Init(shape)) * Last(shape)
  }

  lemma ProductOfVector(n: nat)
    ensures Product([n]) == n
  {
    assert Init([n]) == [];
  }

  datatype NdArray<E> = NdArray(shape: seq<nat>, data: seq<E>)
  {
    function Ndim(): nat
    {
      |shape|
    }

    predicate Valid()
    {
      |data| == Product(shape)
    }
  }

  /** A NumPy array: as many elements as its shape says. */
  type Array<E> = a: NdArray<E> | a.Valid() witness NdArray([0], [])

  /** np.full(n, x): a 1-d array of length n whose every entry is x. */
  function Full<E>(n: nat, x: E): (r: Array<E>)
    ensures r.shape == [n]
    ensures forall i :: 0 <= i < |r.data| ==> r.data[i] == x
  {
    ProductOfVector(n);
    NdArray([n], seq(n, _ => x))
  }

  /** NumPy's broadcasting rule: align the shapes on the right; every axis of
      `from` is 1 or equals the matching axis of `to`, and `to` has at least
      as many axes. */
  predicate Broadcastable(from: seq<nat>, to: seq<nat>): (b: bool)
    ensures b ==> |from| <= |to|
    decreases |from|
  {
    from == []
    || (to != [] && (Last(from) == 1 || Last(from) == Last(to)) && Broadcastable(Init(from), Init(to)))
  }

  /** The axes of `from`, aligned with the trailing axes of `to`: each is 1
      or equal to its partner. */
  predicate Aligned(from: seq<nat>, to: seq<nat>)
  {
    |from| <= |to| && forall i :: 0 <= i < |from| ==> from[i] == 1 || from[i] == to[|to| - |from| + i]
  }

  /** The recursive rule is the right-aligned, axis-by-axis rule. */
  lemma {:induction false} BroadcastableAligned(from: seq<nat>, to: seq<nat>)
    ensures Broadcastable(from, to) <==> Aligned(from, to)
    decreases |from|
  {
    if from != [] && to != [] {
      BroadcastableAligned(Init(from), Init(to));
      if Aligned(from, to) {
        forall i | 0 <= i < |from| - 1
          ensures Init(from)[i] == 1 || Init(from)[i] == Init(to)[|Init(to)| - |Init(from)| + i]
        {
          assert from[i] == Init(from)[i];
          assert to[|to| - |from| + i] == Init(to)[|Init(to)| - |Init(from)| + i];
        }
        assert Last(from) == from[|from| - 1];
      }
      if Broadcastable(from, to) {
        forall i | 0 <= i < |from|
          ensures from[i] == 1 || from[i] == to[|to| - |from| + i]
        {
          if i < |from| - 1 {
            assert from[i] == Init(from)[i];
            assert to[|to| - |from| + i] == Init(to)[|Init(to)| - |Init(from)| + i];
          }
        }
      }
    }
  }

  lemma DivBelow(k: nat, p: nat, t: nat)
    requires k < p * t
    ensures t > 0 && k / t < p
  {
    assert t != 0;
    var q := k / t;
    assert q * t <= k;
    assert (p - q) * t == p * t - q * t;
  }

  lemma RowMajorBelow(s: nat, p: nat, d: nat, j: nat)
    requires s < p && j < d
    ensures s * d + j < p * d
  {
    assert s * d <= (p - 1) * d;
    assert (p - 1) * d == p * d - d;
  }

  /** Row-major flat index of the coordinates c in an array of this shape. */
  function Flatten(shape: seq<nat>, c: seq<nat>): nat
    requires |c| == |shape|
  {
    if shape == [] then 0 else Flatten(Init(shape), Init(c)) * Last(shape) + Last(c)
  }

  /** The coordinates of flat index k in an array of this shape (np.unravel_index). */
  function Unflatten(shape: seq<nat>, k: nat): (c: seq<nat>)
    requires k < Product(shape)
    ensures |c| == |shape|
    ensures forall i :: 0 <= i < |c| ==> c[i] < shape[i]
  {
    if shape == [] then []
    else
      DivBelow(k, Product(Init(shape)), Last(shape));
      Unflatten(Init(shape), k / Last(shape)) + [k % Last(shape)]
  }

  /** Where the element at coordinates c of the broadcast comes from: the
      axes of `from` are matched with the trailing axes of `to`, and an axis
      of length 1 is read at coordinate 0. */
  function SourceCoordinates(from: seq<nat>, to: seq<nat>, c: seq<nat>): (s: seq<nat>)
    requires |from| <= |to| == |c|
    ensures |s| == |from|
  {
    seq(|from|, i requires 0 <= i < |from| => if from[i] == 1 then 0 else c[|to| - |from| + i])
  }

  /** Flat index into an array of shape `from` of the element that lands at
      flat index k of its broadcast to shape `to`: the coordinates of k,
      mapped back by SourceCoordinates, flattened again. */
  function SourceIndex(from: seq<nat>, to: seq<nat>, k: nat): (i: nat)
    requires Broadcastable(from, to) && k < Product(to)
    ensures i < Product(from)
    ensures |from| <= |to| && i == Flatten(from, SourceCoordinates(from, to, Unflatten(to, k)))
    decreases |from|
  {
    if from == [] then 0
    else
      var t, d := Last(to), Last(from);
      DivBelow(k, Product(Init(to)), t);
      var j := if d == 1 then 0 else k % t;
      var outer := SourceIndex(Init(from), Init(to), k / t);
      RowMajorBelow(outer, Product(Init(from)), d, j);
      SourceCoordinatesStep(from, to, k);
      outer * d + j
  }

  /** One axis of SourceCoordinates: the last axis is the last coordinate (or
      0), the others are those of the shapes without their last axis. */
  lemma SourceCoordinatesStep(from: seq<nat>, to: seq<nat>, k: nat)
    requires from != [] && |from| <= |to| && k < Product(to)
    ensures Last(to) > 0 && k / Last(to) < Product(Init(to))
    ensures var s := SourceCoordinates(from, to, Unflatten(to, k));
            Last(s) == (if Last(from) == 1 then 0 else k % Last(to))
            && Init(s) == SourceCoordinates(Init(from), Init(to), Unflatten(Init(to), k / Last(to)))
  {
    var t := Last(to);
    DivBelow(k, Product(Init(to)), t);
    var c' := Unflatten(Init(to), k / t);
    var c := Unflatten(to, k);
    assert c == c' + [k % t];
    var s := SourceCoordinates(from, to, c);
    var s' := SourceCoordinates(Init(from), Init(to), c');
    assert Last(s) == (if Last(from) == 1 then 0 else k % t) by {
      assert c[|to| - 1] == k % t;
    }
    forall i | 0 <= i < |from| - 1
      ensures Init(s)[i] == s'[i]
    {
      assert c[|to| - |from| + i] == c'[|Init(to)| - |Init(from)| + i];
    }
    assert Init(s) == s';
  }

  /** np.broadcast_to followed by np.copy: a new array of shape `to`, or the
      ValueError NumPy raises when the shapes do not broadcast. */
  function BroadcastTo<E>(a: Array<E>, to: seq<nat>): (r: Result<Array<E>>)
    ensures r.Ok? <==> Broadcastable(a.shape, to)
    ensures r.Ok? ==> r.value.shape == to && a.Ndim() <= r.value.Ndim()
    ensures r.Ok? ==> forall k :: 0 <= k < |r.value.data| ==>
              r.value.data[k] == a.data[SourceIndex(a.shape, to, k)]
    ensures r.Err? ==> r.error == NotBroadcastable(a.shape, to)
  {
    if Broadcastable(a.shape, to) then
      Ok(NdArray(to, seq(Product(to), k requires 0 <= k < Product(to) => a.data[SourceIndex(a.shape, to, k)])))
    else
      Err(NotBroadcastable(a.shape, to))
  }

  /** Every shape broadcasts to itself, and each element stays in place. */
  lemma SourceIndexSameShape(s: seq<nat>, k: nat)
    requires k < Product(s)
    ensures Broadcastable(s, s) && SourceIndex(s, s, k) == k
  {
    BroadcastableSelf(s);
    var c := Unflatten(s, k);
    assert SourceCoordinates(s, s, c) == c;
    FlattenUnflatten(s, k);
  }

  /** Flattening the coordinates of a flat index gives the index back. */
  lemma {:induction false} FlattenUnflatten(shape: seq<nat>, k: nat)
    requires k < Product(shape)
    ensures Flatten(shape, Unflatten(shape, k)) == k
    decreases |shape|
  {
    if shape != [] {
      var t := Last(shape);
      DivBelow(k, Product(Init(shape)), t);
      FlattenUnflatten(Init(shape), k / t);
      var c := Unflatten(shape, k);
      assert Init(c) == Unflatten(Init(shape), k / t);
      assert k / t * t + k % t == k;
    }
  }

  lemma {:induction false} BroadcastableSelf(s: seq<nat>)
    ensures Broadcastable(s, s)
    decreases |s|
  {
    if s != [] {
      BroadcastableSelf(Init(s));
    }
  }

  /** Broadcasting an array to its own shape gives back the same array. */
  lemma BroadcastToOwnShape<E>(a: Array<E>)
    ensures BroadcastTo(a, a.shape) == Ok(a)
  {
    BroadcastableSelf(a.shape);
    var r := BroadcastTo(a, a.shape);
    forall k | 0 <= k < |a.data|
      ensures r.value.data[k] == a.data[k]
    {
      SourceIndexSameShape(a.shape, k);
    }
    assert r.value.data == a.data;
  }

  /** A 0-d array broadcasts to any shape, every entry a copy of its one element. */
  lemma BroadcastScalar<E>(a: Array<E>, to: seq<nat>)
    requires a.Ndim() == 0
    ensures BroadcastTo(a, to).Ok?
    ensures forall k :: 0 <= k < |BroadcastTo(a, to).value.data| ==> BroadcastTo(a, to).value.data[k] == a.data[0]
  {
  }

  lemma ColumnSource(k: nat)
    requires k < 6
    ensures Broadcastable([2, 1], [2, 3]) && Product([2, 3]) == 6
    ensures SourceIndex([2, 1], [2, 3], k) == k / 3
  {
    assert Init([2, 1]) == [2] && Init([2]) == [] && Init([2, 3]) == [2];
    assert SourceIndex([2], [2], k / 3) == k / 3;
  }

  /** A column of two rows broadcast to three columns repeats each row's
      element along its row: [[x], [y]] becomes [[x, x, x], [y, y, y]]. */
  lemma BroadcastColumn<E>(x: E, y: E)
    ensures Product([2, 1]) == 2
    ensures BroadcastTo(NdArray([2, 1], [x, y]), [2, 3]).Ok?
    ensures BroadcastTo(NdArray([2, 1], [x, y]), [2, 3]).value.data == [x, x, x, y, y, y]
  {
    assert Init([2, 1]) == [2] && Init([2]) == [] && Init([2, 3]) == [2];
    assert Product([2, 1]) == 2;
    assert Broadcastable([2, 1], [2, 3]);
    var r := BroadcastTo(NdArray([2, 1], [x, y]), [2, 3]);
    forall k | 0 <= k < 6
      ensures r.value.data[k] == [x, x, x, y, y, y][k]
    {
      ColumnSource(k);
    }
  }

  /** np.full(n, x) is the broadcast of the one-element vector [x] to length n. */
  lemma FullIsBroadcast<E>(x: E, n: nat)
    ensures BroadcastTo(NdArray([1], [x]), [n]) == Ok(Full(n, x))
  {
    assert Broadcastable([1], [n]) by {
      assert Init([1]) == [] && Last([1]) == 1;
    }
    var r := BroadcastTo(NdArray([1], [x]), [n]);
    forall k | 0 <= k < n
      ensures r.value.data[k] == x
    {
      assert SourceIndex([1], [n], k) < 1;
    }
    assert r.value.data == Full(n, x).data;
  }
}
