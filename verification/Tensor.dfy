/** Initializer tensors (`TensorData`): a tree whose nodes are values and aligned sub-tensors, and the flat
    list of elements it stands for. */
module Tensor {

  datatype Option<+T> = None | Some(value: T)

  // ----- Shapes -----

  ghost predicate Positive(shape: seq<nat>) {
    forall i :: 0 <= i < |shape| ==> shape[i] > 0
  }

  function Product(dims: seq<nat>): nat {
    if dims == [] then 1 else dims[0] * Product(dims[1..])
  }

  /** The number of elements of a tensor that begins at dimension `b`; a scalar begins at -1. */
  function Capacity(shape: seq<nat>, b: int): nat
    requires -1 <= b <= |shape|
  {
    if b == -1 then 1 else Product(shape[b..])
  }

  lemma {:induction false} CapacityPositive(shape: seq<nat>, b: int)
    requires Positive(shape) && -1 <= b <= |shape|
    ensures Capacity(shape, b) > 0
    decreases |shape| - b
  {
    if 0 <= b < |shape| {
      CapacityPositive(shape, b + 1);
      assert shape[b..][1..] == shape[b + 1..];
    }
  }

  lemma CapacityStep(shape: seq<nat>, b: nat)
    requires b < |shape|
    ensures Capacity(shape, b) == shape[b] * Capacity(shape, b + 1)
  {
    assert shape[b..][1..] == shape[b + 1..];
  }

  /** The capacity of each dimension divides that of the ones before it. */
  lemma {:induction false} CapacityDivides(shape: seq<nat>, b: nat, c: nat) returns (q: nat)
    requires Positive(shape) && b <= c <= |shape|
    ensures Capacity(shape, b) == q * Capacity(shape, c) && q > 0
    decreases c - b
  {
    if b == c {
      q := 1;
    } else {
      CapacityStep(shape, b);
      var p := CapacityDivides(shape, b + 1, c);
      q := shape[b] * p;
      assert shape[b] * (p * Capacity(shape, c)) == q * Capacity(shape, c);
      Positives(shape[b], p);
    }
  }

  lemma Positives(x: nat, y: nat)
    requires x > 0 && y > 0
    ensures x * y > 0
  {
  }

  /** `_dimLen`, filled from the last dimension to the first. */
  method DimLengths(shape: seq<nat>) returns (dimLen: seq<nat>)
    ensures |dimLen| == |shape| && forall i :: 0 <= i < |shape| ==> dimLen[i] == Capacity(shape, i + 1)
  {
    dimLen := [];
    if |shape| > 0 {
      dimLen := [1];
      assert shape[|shape|..] == [];
      var i := |shape| - 1;
      while i > 0
        invariant 0 <= i < |shape| && |dimLen| == |shape| - i
        invariant forall k :: 0 <= k < |dimLen| ==> dimLen[k] == Capacity(shape, i + k + 1)
      {
        CapacityStep(shape, i);
        var l := dimLen[0] * shape[i];
        assert l == Capacity(shape, i);
        dimLen := [l] + dimLen;
        i := i - 1;
      }
    }
  }

  // ----- Trees -----

  /** What a tensor holds: a value, or sub-tensors with `size` elements allocated so far. */
  datatype Tree<T> = Scalar(v: Option<T>) | Sub(begin: nat, subs: seq<Tree<T>>, size: nat)

  function BeginOf<T>(t: Tree<T>): int {
    if t.Scalar? then -1 else t.begin
  }

  function CapacityOf<T>(shape: seq<nat>, t: Tree<T>): nat
    requires -1 <= BeginOf(t) <= |shape|
  {
    Capacity(shape, BeginOf(t))
  }

  ghost predicate Begins<T>(shape: seq<nat>, ts: seq<Tree<T>>) {
    forall i :: 0 <= i < |ts| ==> -1 <= BeginOf(ts[i]) <= |shape|
  }

  function SumOf<T>(shape: seq<nat>, ts: seq<Tree<T>>): nat
    requires Begins(shape, ts)
  {
    if ts == [] then 0 else SumOf(shape, ts[..|ts| - 1]) + CapacityOf(shape, ts[|ts| - 1])
  }

  /** Every sub-tensor lies at a multiple of its own capacity, and together they are as large as allocated. */
  ghost predicate Good<T>(shape: seq<nat>, t: Tree<T>)
    decreases t, 1
  {
    match t
    case Scalar(_) => true
    case Sub(b, subs, size) =>
      && b < |shape| && size <= Capacity(shape, b)
      && GoodSubs(shape, b, subs) && Begins(shape, subs) && size == SumOf(shape, subs) && Aligned(shape, subs)
  }

  /** The sub-tensors begin at later dimensions, and a value has been given. */
  ghost predicate GoodSubs<T>(shape: seq<nat>, b: nat, ts: seq<Tree<T>>)
    decreases ts, 0
  {
    forall i :: 0 <= i < |ts| ==> Good(shape, ts[i]) && (if ts[i].Scalar? then ts[i].v.Some? else b < ts[i].begin)
  }

  ghost predicate Aligned<T>(shape: seq<nat>, ts: seq<Tree<T>>)
    requires Begins(shape, ts)
  {
    forall i :: 0 <= i < |ts| && CapacityOf(shape, ts[i]) > 0 ==> SumOf(shape, ts[..i]) % CapacityOf(shape, ts[i]) == 0
  }

  function Repeat<T>(x: T, n: nat): (s: seq<T>)
    ensures |s| == n && forall i :: 0 <= i < n ==> s[i] == x
  {
    if n == 0 then [] else [x] + Repeat(x, n - 1)
  }

  function Padding(all: nat, size: nat): nat {
    if size <= all then all - size else 0
  }

  /** The elements in order, with the default value where nothing was given. */
  ghost function Flat<T>(shape: seq<nat>, d: T, t: Tree<T>): seq<T>
    decreases t, 1
  {
    match t
    case Scalar(v) => [if v.Some? then v.value else d]
    case Sub(b, subs, size) => FlatAll(shape, d, subs) + Repeat(d, if b <= |shape|
        then Padding(Capacity(shape, b), size) else 0)
  }

  ghost function FlatAll<T>(shape: seq<nat>, d: T, ts: seq<Tree<T>>): seq<T>
    decreases ts, 0
  {
    if ts == [] then [] else Flat(shape, d, ts[0]) + FlatAll(shape, d, ts[1..])
  }

  lemma {:induction false} SumFromFront<T>(shape: seq<nat>, ts: seq<Tree<T>>)
    requires Begins(shape, ts) && ts != []
    ensures SumOf(shape, ts) == CapacityOf(shape, ts[0]) + SumOf(shape, ts[1..])
  {
    if |ts| > 1 {
      assert ts[1..][..|ts| - 2] == ts[..|ts| - 1][1..];
      SumFromFront(shape, ts[..|ts| - 1]);
    }
  }

  lemma {:induction false} FlatLength<T>(shape: seq<nat>, d: T, t: Tree<T>)
    requires Positive(shape) && Good(shape, t)
    ensures -1 <= BeginOf(t) <= |shape| && |Flat(shape, d, t)| == CapacityOf(shape, t)
    decreases t, 1
  {
    if t.Sub? {
      FlatAllLength(shape, d, t.subs);
    }
  }

  lemma {:induction false} FlatAllLength<T>(shape: seq<nat>, d: T, ts: seq<Tree<T>>)
    requires Positive(shape) && Begins(shape, ts) && forall i :: 0 <= i < |ts| ==> Good(shape, ts[i])
    ensures |FlatAll(shape, d, ts)| == SumOf(shape, ts)
    decreases ts, 0
  {
    if ts != [] {
      FlatLength(shape, d, ts[0]);
      FlatAllLength(shape, d, ts[1..]);
      SumFromFront(shape, ts);
    }
  }

  // ----- Looking up one element -----

  /** `getElement`: nothing when the index is out of bounds. */
  function GetElement<T>(shape: seq<nat>, d: T, t: Tree<T>, index: int): Option<T>
    decreases t, 1
  {
    if BeginOf(t) > |shape| || index < 0 || index >= CapacityOf(shape, t) then None
    else
      match t
      case Scalar(v) => Some(if v.Some? then v.value else d)
      case Sub(b, subs, size) => if index >= size then Some(d) else GetFrom(shape, d, subs, index)
  }

  /** The search over the sub-tensors. */
  function GetFrom<T>(shape: seq<nat>, d: T, ts: seq<Tree<T>>, index: int): Option<T>
    decreases ts, 0
  {
    if ts == [] || BeginOf(ts[0]) > |shape| then None
    else
      var size := CapacityOf(shape, ts[0]);
      if index < size then GetElement(shape, d, ts[0], index) else GetFrom(shape, d, ts[1..], index - size)
  }

  /** Looking up an element agrees with the flat list, and fails outside of it. */
  lemma {:induction false} GetElementIsFlat<T>(shape: seq<nat>, d: T, t: Tree<T>, index: int)
    requires Positive(shape) && Good(shape, t)
    ensures |Flat(shape, d, t)| == CapacityOf(shape, t)
    ensures GetElement(shape, d, t, index) == if 0 <= index < CapacityOf(shape, t) then Some(Flat(shape, d, t)[index])
            else None
    decreases t, 1
  {
    FlatLength(shape, d, t);
    if t.Sub? && 0 <= index < CapacityOf(shape, t) {
      FlatAllLength(shape, d, t.subs);
      if index < t.size {
        GetFromIsFlat(shape, d, t.subs, index);
      }
    }
  }

  lemma {:induction false} GetFromIsFlat<T>(shape: seq<nat>, d: T, ts: seq<Tree<T>>, index: nat)
    requires Positive(shape) && Begins(shape, ts) && forall i :: 0 <= i < |ts| ==> Good(shape, ts[i])
    requires index < SumOf(shape, ts)
    ensures |FlatAll(shape, d, ts)| == SumOf(shape, ts)
    ensures GetFrom(shape, d, ts, index) == Some(FlatAll(shape, d, ts)[index])
    decreases ts, 0
  {
    FlatAllLength(shape, d, ts);
    SumFromFront(shape, ts);
    FlatLength(shape, d, ts[0]);
    RestBegins(shape, ts);
    hide *;
    GetFromIs(shape, d, ts, index);
    FlatAllIs(shape, d, ts);
    var size := CapacityOf(shape, ts[0]);
    if index < size {
      GetElementIsFlat(shape, d, ts[0], index);
    } else {
      FlatAllLength(shape, d, ts[1..]);
      GetFromIsFlat(shape, d, ts[1..], index - size);
    }
  }

  lemma GetFromIs<T>(shape: seq<nat>, d: T, ts: seq<Tree<T>>, index: int)
    requires ts != [] && -1 <= BeginOf(ts[0]) <= |shape|
    ensures GetFrom(shape, d, ts, index) ==
            if index < CapacityOf(shape, ts[0]) then GetElement(shape, d, ts[0], index)
            else GetFrom(shape, d, ts[1..], index - CapacityOf(shape, ts[0]))
  {
    hide GetElement, CapacityOf;
  }

  lemma FlatAllIs<T>(shape: seq<nat>, d: T, ts: seq<Tree<T>>)
    requires ts != []
    ensures FlatAll(shape, d, ts) == Flat(shape, d, ts[0]) + FlatAll(shape, d, ts[1..])
  {
    hide Flat;
  }

  lemma RestBegins<T>(shape: seq<nat>, ts: seq<Tree<T>>)
    requires Begins(shape, ts) && ts != []
    ensures -1 <= BeginOf(ts[0]) <= |shape| && Begins(shape, ts[1..])
  {
  }

  // ----- Positions and multi-dimensional indices -----

  function Indices(shape: seq<nat>, b: nat, idx: int): seq<int>
    requires b <= |shape|
    decreases |shape| - b
  {
    if b == |shape| then []
    else
      var len := Capacity(shape, b + 1);
      if len == 0 then [0] + Indices(shape, b + 1, idx)
      else [idx / len] + Indices(shape, b + 1, idx - idx / len * len)
  }

  function Position(shape: seq<nat>, b: nat, index: seq<int>): int
    requires b <= |shape| && |index| == |shape| - b
    decreases |shape| - b
  {
    if b == |shape| then 0 else index[0] * Capacity(shape, b + 1) + Position(shape, b + 1, index[1..])
  }

  /** `Tensor::index`: the remainder is divided by the capacity of one dimension after the other. */
  method Index(shape: seq<nat>, idx: int) returns (ret: seq<int>)
    requires Positive(shape) && 0 <= idx
    ensures ret == Indices(shape, 0, idx)
  {
    var dimLen := DimLengths(shape);
    ret := [];
    var rest := idx;
    for i := 0 to |shape|
      invariant 0 <= rest && ret + Indices(shape, i, rest) == Indices(shape, 0, idx)
    {
      hide Indices, Capacity, Positive;
      IndicesStep(shape, i, rest);
      var x := rest / dimLen[i];
      assert ret + ([x] + Indices(shape, i + 1, rest - x * dimLen[i])) == (ret + [x])
          + Indices(shape, i + 1, rest - x * dimLen[i]);
      rest := rest - x * dimLen[i];
      ret := ret + [x];
    }
    assert Indices(shape, |shape|, rest) == [];
  }

  lemma IndicesStep(shape: seq<nat>, b: nat, idx: int)
    requires Positive(shape) && b < |shape| && idx >= 0
    ensures var len := Capacity(shape, b + 1);
            && len > 0 && idx - idx / len * len >= 0
            && Indices(shape, b, idx) == [idx / len] + Indices(shape, b + 1, idx - idx / len * len)
  {
    CapacityPositive(shape, b + 1);
    var len := Capacity(shape, b + 1);
    assert idx == idx / len * len + idx % len;
  }

  lemma {:induction false} IndicesBound(shape: seq<nat>, b: nat, idx: int)
    requires Positive(shape) && b <= |shape| && 0 <= idx < Capacity(shape, b)
    ensures |Indices(shape, b, idx)| == |shape| - b
    ensures forall k :: 0 <= k < |shape| - b ==> 0 <= Indices(shape, b, idx)[k] < shape[b + k]
    ensures Position(shape, b, Indices(shape, b, idx)) == idx
    decreases |shape| - b
  {
    if b < |shape| {
      var len := Capacity(shape, b + 1);
      CapacityPositive(shape, b + 1);
      CapacityStep(shape, b);
      var x := idx / len;
      DigitBound(idx, len, shape[b]);
      IndicesBound(shape, b + 1, idx - x * len);
      var rest := Indices(shape, b + 1, idx - x * len);
      assert Indices(shape, b, idx) == [x] + rest;
      assert Indices(shape, b, idx)[1..] == rest;
    } else {
      assert shape[b..] == [];
    }
  }

  lemma DigitBound(idx: int, len: nat, n: nat)
    requires len > 0 && 0 <= idx < n * len
    ensures 0 <= idx / len < n && 0 <= idx - idx / len * len < len
  {
    var q := idx / len;
    assert idx == q * len + idx % len;
    if q >= n {
      Mono(n, q, len);
    }
  }

  /** A position and its indices determine each other. */
  lemma {:induction false} IndicesOfPosition(shape: seq<nat>, b: nat, index: seq<int>)
    requires Positive(shape) && b <= |shape| && |index| == |shape| - b
    requires forall k :: 0 <= k < |index| ==> 0 <= index[k] < shape[b + k]
    ensures 0 <= Position(shape, b, index) < Capacity(shape, b)
    ensures Indices(shape, b, Position(shape, b, index)) == index
    decreases |shape| - b
  {
    if b < |shape| {
      var len := Capacity(shape, b + 1);
      CapacityPositive(shape, b + 1);
      CapacityStep(shape, b);
      IndicesOfPosition(shape, b + 1, index[1..]);
      var p := Position(shape, b + 1, index[1..]);
      DigitOf(index[0], len, p, shape[b]);
    } else {
      assert shape[b..] == [];
    }
  }

  lemma DigitOf(x: int, len: nat, p: int, n: nat)
    requires 0 <= p < len && 0 <= x < n
    ensures 0 <= x * len + p < n * len && (x * len + p) / len == x
  {
    assert (x + 1) * len <= n * len by { Mono(x + 1, n, len); }
    assert (x + 1) * len == x * len + len;
    assert x * len >= 0;
    DivUnique(x * len + p, len, x);
  }

  lemma DivUnique(a: int, len: nat, x: int)
    requires len > 0 && x * len <= a < x * len + len
    ensures a / len == x
  {
    var q := a / len;
    assert a == q * len + a % len;
    assert (q + 1) * len == q * len + len && (x + 1) * len == x * len + len;
    if q < x {
      Mono(q + 1, x, len);
    } else if q > x {
      Mono(x + 1, q, len);
    }
  }

  lemma Mono(x: int, y: int, z: nat)
    requires x <= y
    ensures x * z <= y * z
  {
  }
}
