/** Building a tensor in place (`TensorData::append`, `TensorData::makeSubTensor`). */
module TensorBuild {
  import opened Tensor

  // ----- One step on trees -----

  lemma {:induction false} FlatAllAppend<T>(shape: seq<nat>, d: T, ts: seq<Tree<T>>, t: Tree<T>)
    ensures FlatAll(shape, d, ts + [t]) == FlatAll(shape, d, ts) + Flat(shape, d, t)
  {
    if ts == [] {
      assert [t][1..] == [];
      assert FlatAll(shape, d, [t]) == Flat(shape, d, t);
      assert ts + [t] == [t];
    } else {
      assert (ts + [t])[0] == ts[0] && (ts + [t])[1..] == ts[1..] + [t];
      FlatAllAppend(shape, d, ts[1..], t);
    }
  }

  /** A sub-tensor put at the end of what is allocated keeps the tree in order. */
  lemma PutGood<T>(shape: seq<nat>, t: Tree<T>, c: Tree<T>)
    requires Positive(shape) && Good(shape, t) && t.Sub? && Good(shape, c)
    requires if c.Scalar? then c.v.Some? else t.begin < c.begin
    requires -1 <= BeginOf(c) <= |shape| && t.size + CapacityOf(shape, c) <= Capacity(shape, t.begin)
    requires CapacityOf(shape, c) > 0 ==> t.size % CapacityOf(shape, c) == 0
    ensures Good(shape, Sub(t.begin, t.subs + [c], t.size + CapacityOf(shape, c)))
  {
    var subs := t.subs + [c];
    assert subs[..|subs| - 1] == t.subs;
    assert SumOf(shape, subs) == t.size + CapacityOf(shape, c);
    forall i | 0 <= i < |subs| && CapacityOf(shape, subs[i]) > 0
      ensures SumOf(shape, subs[..i]) % CapacityOf(shape, subs[i]) == 0
    {
      if i < |t.subs| {
        assert subs[..i] == t.subs[..i] && subs[i] == t.subs[i];
      }
    }
  }

  /** Appending a value gives the first free element that value, and changes nothing else. */
  lemma AppendFlat<T>(shape: seq<nat>, d: T, t: Tree<T>, e: T)
    requires Positive(shape) && Good(shape, t) && t.Sub? && t.size < Capacity(shape, t.begin)
    ensures var t' := Sub(t.begin, t.subs + [Scalar(Some(e))], t.size + 1);
            && Good(shape, t') && |Flat(shape, d, t)| == Capacity(shape, t.begin)
            && Flat(shape, d, t') == Flat(shape, d, t)[t.size := e]
  {
    var c := Scalar(Some(e));
    PutGood(shape, t, c);
    FlatLength(shape, d, t);
    FlatAllLength(shape, d, t.subs);
    FlatAllAppend(shape, d, t.subs, c);
    var all := Capacity(shape, t.begin);
    assert Repeat(d, all - t.size) == [d] + Repeat(d, all - t.size - 1);
  }

  /** A new empty sub-tensor takes room, and no element changes. */
  lemma SubTensorFlat<T>(shape: seq<nat>, d: T, t: Tree<T>, b: nat)
    requires Positive(shape) && Good(shape, t) && t.Sub? && t.begin < b < |shape|
    requires t.size + Capacity(shape, b) <= Capacity(shape, t.begin) && t.size % AtLeastOne(Capacity(shape, b)) == 0
    ensures var t' := Sub(t.begin, t.subs + [Sub(b, [], 0)], t.size + Capacity(shape, b));
            Good(shape, t') && Flat(shape, d, t') == Flat(shape, d, t)
  {
    var c: Tree<T> := Sub(b, [], 0);
    CapacityPositive(shape, b);
    PutGood(shape, t, c);
    FlatAllAppend(shape, d, t.subs, c);
    var all, len := Capacity(shape, t.begin), Capacity(shape, b);
    assert FlatAll(shape, d, c.subs) == [];
    assert Flat(shape, d, c) == Repeat(d, len);
    hide Good, FlatAll, Capacity, Repeat;
    RepeatSplit(d, len, all - t.size - len);
  }

  function AtLeastOne(n: nat): nat {
    if n == 0 then 1 else n
  }

  lemma {:induction false} RepeatSplit<T>(d: T, m: nat, n: nat)
    ensures Repeat(d, m + n) == Repeat(d, m) + Repeat(d, n)
  {
  }

  // ----- Which sub-tensor is made -----

  /** The first dimension from `b` on whose sub-tensors fit behind `size` elements without a gap. */
  function FirstAligned(shape: seq<nat>, size: nat, b: nat): Option<nat>
    requires b <= |shape|
    decreases |shape| - b
  {
    if b == |shape| then None
    else if Capacity(shape, b) > 0 && size % Capacity(shape, b) == 0 then Some(b)
    else FirstAligned(shape, size, b + 1)
  }

  /** When a sub-tensor is made, and at which dimension it begins. */
  function MadeAt(shape: seq<nat>, begin: nat, size: nat): Option<nat>
    requires begin < |shape|
  {
    var b := FirstAligned(shape, size, begin + 1);
    if b.Some? && b.value <= |shape| && 0 < b.value && size < Capacity(shape, b.value - 1) then b else None
  }

  lemma {:induction false} FirstAlignedIs(shape: seq<nat>, size: nat, b: nat)
    requires Positive(shape) && b <= |shape|
    ensures FirstAligned(shape, size, b).Some? ==>
              var c := FirstAligned(shape, size, b).value;
              b <= c < |shape| && Capacity(shape, c) > 0 && size % Capacity(shape, c) == 0
              && forall i :: b <= i < c ==> Capacity(shape, i) > 0 && size % Capacity(shape, i) != 0
    ensures FirstAligned(shape, size, b).None? ==> forall i ::
              b <= i < |shape| ==> Capacity(shape, i) > 0 && size % Capacity(shape, i) != 0
    decreases |shape| - b
  {
    if b < |shape| {
      CapacityPositive(shape, b);
      if size % Capacity(shape, b) != 0 {
        FirstAlignedIs(shape, size, b + 1);
      }
    }
  }

  /** Room for one more block among whole ones. */
  lemma OneMoreFits(size: nat, len: nat, n: nat)
    requires len > 0 && size % len == 0
    ensures size / len + 1 <= n <==> size + len <= n * len
    ensures size / len + 1 <= n <==> size < n * len
  {
    var q := size / len;
    assert size == q * len;
    assert (q + 1) * len == size + len;
    if q + 1 <= n {
      Mono(q + 1, n, len);
    } else {
      Mono(n, q, len);
    }
  }

  /** What is made fits, and lies at a multiple of its own capacity: the largest such that is aligned. */
  lemma MadeFits(shape: seq<nat>, begin: nat, size: nat)
    requires Positive(shape) && begin < |shape| && MadeAt(shape, begin, size).Some?
    ensures var b := MadeAt(shape, begin, size).value;
            && begin < b < |shape| && size % AtLeastOne(Capacity(shape, b)) == 0
            && size + Capacity(shape, b) <= Capacity(shape, begin)
            && forall i :: begin < i < b ==> size % AtLeastOne(Capacity(shape, i)) != 0
  {
    FirstAlignedIs(shape, size, begin + 1);
    var b := MadeAt(shape, begin, size).value;
    CapacityStep(shape, b - 1);
    OneMoreFits(size, Capacity(shape, b), shape[b - 1]);
    var q := CapacityDivides(shape, begin, b - 1);
    CapacityPositive(shape, b - 1);
    AtLeast(q, Capacity(shape, b - 1));
  }

  lemma AtLeast(q: nat, x: nat)
    requires q > 0
    ensures x <= q * x
  {
    Mono(1, q, x);
  }

  /** A nested initializer is legal when the aligned sub-tensor fits in what is left. */
  ghost predicate Legal(shape: seq<nat>, begin: nat, size: nat)
    requires begin < |shape|
  {
    var b := FirstAligned(shape, size, begin + 1);
    b.Some? && b.value <= |shape| && size + Capacity(shape, b.value) <= Capacity(shape, begin)
  }

  /** Exactly which legal nested initializers are accepted: those that come before as many elements as the
      next larger sub-tensor holds. */
  lemma MadeWhen(shape: seq<nat>, begin: nat, size: nat)
    requires Positive(shape) && begin < |shape|
    ensures MadeAt(shape, begin, size).Some? <==>
              Legal(shape, begin, size) && size < Capacity(shape, FirstAligned(shape, size, begin + 1).value - 1)
  {
    FirstAlignedIs(shape, size, begin + 1);
    if MadeAt(shape, begin, size).Some? {
      MadeFits(shape, begin, size);
    }
  }

  /** `int[4][3][2] = {1, 2, 3, 4, 5, 6, 7, 8, {...}}`: there is room, and the initializer is refused. */
  lemma LegalButRefused()
    ensures var shape: seq<nat> := [4, 3, 2];
            Positive(shape) && Legal(shape, 0, 8) && MadeAt(shape, 0, 8).None?
  {
    var shape: seq<nat> := [4, 3, 2];
    assert shape[0..] == [4, 3, 2] && shape[1..] == [3, 2] && shape[2..] == [2];
    assert [4, 3, 2][1..] == [3, 2] && [3, 2][1..] == [2] && [2][1..] == [];
    assert Product([2]) == 2 && Product([3, 2]) == 6 && Product([4, 3, 2]) == 24;
    assert Capacity(shape, 2) == 2 && Capacity(shape, 1) == 6 && Capacity(shape, 0) == 24;
    assert FirstAligned(shape, 8, 2) == Some(2);
  }

  // ----- The objects -----

  class TensorData<T(==)> {
    const shape: seq<nat>
    const begin: int
    var subs: seq<TensorData<T>>
    var value: Option<T>
    var size: nat

    constructor (shape: seq<nat>, begin: int)
      requires Positive(shape) && -1 <= begin < |shape|
      ensures Valid() && this.shape == shape && this.begin == begin && subs == [] && value == None && size == 0
    {
      this.shape, this.begin := shape, begin;
      subs, value, size := [], None, 0;
      new;
      EmptyValid(this);
    }

    function DimCapacity(): nat
      requires -1 <= begin < |shape|
    {
      Capacity(shape, begin)
    }

    /** What every call keeps, about this node alone: the capacities of its sub-tensors never change. */
    ghost predicate Valid()
      reads this
    {
      && Positive(shape) && -1 <= begin < |shape|
      && (begin == -1 ==> subs == [] && size == (if value.Some? then 1 else 0))
      && (begin >= 0 ==> InOrder(shape, begin, subs, size))
    }

    method Append(element: T) returns (ok: bool)
      requires Valid()
      modifies this
      ensures Valid() && ok == (old(size) < DimCapacity())
      ensures !ok ==> subs == old(subs) && value == old(value) && size == old(size)
      ensures ok ==> size == old(size) + 1
      ensures ok && begin == -1 ==> value == Some(element)
      ensures ok && begin >= 0 ==>
                && |subs| == |old(subs)| + 1 && subs == old(subs) + [subs[|old(subs)|]] && value == old(value)
                && fresh(subs[|old(subs)|]) && subs[|old(subs)|].Valid()
                && subs[|old(subs)|].shape == shape && subs[|old(subs)|].begin == -1
                    && subs[|old(subs)|].value == Some(element)
                && subs[|old(subs)|].subs == []
    {
      if begin == -1 {
        if size == 0 {
          value := Some(element);
          size := 1;
          return true;
        }
        return false;
      }
      if size < DimCapacity() {
        var data := new TensorData<T>(shape, -1);
        data.value, data.size := Some(element), 1;
        assert Capacity(shape, -1) == 1;
        InOrderMore(shape, begin, subs, size, data);
        subs := subs + [data];
        size := size + 1;
        return true;
      }
      return false;
    }

    method MakeSubTensor() returns (ret: TensorData?<T>)
      requires Valid() && begin >= 0
      modifies this
      ensures Valid() && value == old(value)
      ensures (ret != null) == MadeAt(shape, begin, old(size)).Some?
      ensures ret == null ==> subs == old(subs) && size == old(size)
      ensures ret != null ==>
                && fresh(ret) && ret.Valid() && ret.shape == shape
                    && ret.begin == MadeAt(shape, begin, old(size)).value && ret.subs == [] && ret.size == 0
                && subs == old(subs) + [ret] && size == old(size) + Capacity(shape, ret.begin)
    {
      hide *;
      InOrderIs(this);
      var next := ChooseDimension(shape, begin, size);
      if next.None? { return null; }
      MadeFits(shape, begin, size);
      var sub := new TensorData<T>(shape, next.value);
      InOrderMore(shape, begin, subs, size, sub);
      subs := subs + [sub];
      size := size + Capacity(shape, next.value);
      InOrderIs(this);
      return sub;
    }
  }

  lemma InOrderIs<T>(n: TensorData<T>)
    ensures n.Valid() ==> Positive(n.shape) && -1 <= n.begin < |n.shape|
    ensures 0 <= n.begin < |n.shape| && Positive(n.shape) ==> (n.Valid() <==> InOrder(n.shape, n.begin, n.subs, n.size))
  {
  }

  /** The search in `makeSubTensor`: quotient by quotient until one leaves no remainder. */
  method ChooseDimension(shape: seq<nat>, begin: nat, size: nat) returns (b: Option<nat>)
    requires Positive(shape) && begin < |shape|
    ensures b == MadeAt(shape, begin, size)
  {
    if |shape| <= 1 + begin {
      return None;
    }
    var nextBegin := begin + 1;
    CapacityPositive(shape, nextBegin);
    var currentDataTake := size / Capacity(shape, nextBegin);
    while size - currentDataTake * Capacity(shape, nextBegin) != 0
      invariant begin < nextBegin < |shape| && Capacity(shape, nextBegin) > 0
      invariant currentDataTake == size / Capacity(shape, nextBegin)
      invariant FirstAligned(shape, size, begin + 1) == FirstAligned(shape, size, nextBegin)
      decreases |shape| - nextBegin
    {
      Remainder(size, Capacity(shape, nextBegin));
      hide Capacity;
      nextBegin := nextBegin + 1;
      if nextBegin >= |shape| {
        return None;
      }
      CapacityPositive(shape, nextBegin);
      currentDataTake := size / Capacity(shape, nextBegin);
    }
    Remainder(size, Capacity(shape, nextBegin));
    CapacityStep(shape, nextBegin - 1);
    hide Capacity;
    OneMoreFits(size, Capacity(shape, nextBegin), shape[nextBegin - 1]);
    if currentDataTake + 1 > shape[nextBegin - 1] {
      return None;
    }
    return Some(nextBegin);
  }

  lemma Remainder(a: nat, b: nat)
    requires b > 0
    ensures a - a / b * b == a % b
  {
    assert a == a / b * b + a % b;
  }

  lemma EmptyValid<T>(n: TensorData<T>)
    requires Positive(n.shape) && -1 <= n.begin < |n.shape| && n.subs == [] && n.value == None && n.size == 0
    ensures n.Valid()
  {
  }

  /** Sub-tensors begin at later dimensions. */
  ghost predicate Nodes<T>(shape: seq<nat>, begin: int, ns: seq<TensorData<T>>) {
    forall i :: 0 <= i < |ns| ==> ns[i].shape == shape && (ns[i].begin == -1 || begin < ns[i].begin < |shape|)
  }

  ghost function Allocated<T>(shape: seq<nat>, begin: int, ns: seq<TensorData<T>>): nat
    requires begin >= 0 && Nodes(shape, begin, ns)
  {
    if ns == [] then 0 else Allocated(shape, begin, ns[..|ns| - 1]) + Capacity(shape, ns[|ns| - 1].begin)
  }

  lemma AllocatedMore<T>(shape: seq<nat>, begin: int, ns: seq<TensorData<T>>, n: TensorData<T>)
    requires begin >= 0 && Nodes(shape, begin, ns) && n.shape == shape && -1 <= n.begin < |shape|
             && (n.begin == -1 || begin < n.begin)
    ensures Nodes(shape, begin, ns + [n]) && Allocated(shape, begin, ns + [n]) == Allocated(shape, begin, ns)
            + Capacity(shape, n.begin)
    ensures forall i :: 0 <= i < |ns| ==> (ns + [n])[..i] == ns[..i]
    ensures (ns + [n])[..|ns|] == ns
  {
    assert (ns + [n])[..|ns + [n]| - 1] == ns;
  }

  /** The sub-tensors of a node: together as large as `size`, within its capacity, each at a multiple of its own
      capacity. */
  ghost predicate InOrder<T>(shape: seq<nat>, begin: int, ns: seq<TensorData<T>>, size: nat)
    requires 0 <= begin < |shape|
  {
    && Nodes(shape, begin, ns) && size == Allocated(shape, begin, ns) && size <= Capacity(shape, begin)
    && forall i :: 0 <= i < |ns| ==> Allocated(shape, begin, ns[..i]) % AtLeastOne(Capacity(shape, ns[i].begin)) == 0
  }

  lemma InOrderMore<T>(shape: seq<nat>, begin: int, ns: seq<TensorData<T>>, size: nat, n: TensorData<T>)
    requires 0 <= begin < |shape| && InOrder(shape, begin, ns, size)
    requires n.shape == shape && -1 <= n.begin < |shape| && (n.begin == -1 || begin < n.begin)
    requires size % AtLeastOne(Capacity(shape, n.begin)) == 0
             && size + Capacity(shape, n.begin) <= Capacity(shape, begin)
    ensures InOrder(shape, begin, ns + [n], size + Capacity(shape, n.begin))
  {
    AllocatedMore(shape, begin, ns, n);
    hide Capacity;
  }

  // ----- What the objects stand for -----

  /** The fields of a node. */
  datatype Node<T> = Node(subs: seq<TensorData<T>>, value: Option<T>, size: nat)

  /** The contents of some nodes of the heap. */
  type Store<T> = map<TensorData<T>, Node<T>>

  ghost function Stored<T>(nodes: set<TensorData<T>>): Store<T>
    reads nodes
  {
    map n | n in nodes :: Node(n.subs, n.value, n.size)
  }

  ghost predicate NodeOk<T>(shape: seq<nat>, n: TensorData<T>, k: Node<T>) {
    && n.shape == shape && -1 <= n.begin < |shape|
    && (n.begin == -1 ==> k.subs == [] && k.size == (if k.value.Some? then 1 else 0))
    && (n.begin >= 0 ==> InOrder(shape, n.begin, k.subs, k.size))
  }

  lemma ValidIs<T>(shape: seq<nat>, n: TensorData<T>)
    requires Positive(shape)
    ensures n.shape == shape ==> (n.Valid() <==> NodeOk(shape, n, Node(n.subs, n.value, n.size)))
  {
  }

  /** A set of nodes of one tensor with all their sub-tensors; a value among the sub-tensors has been given. */
  ghost predicate Closed<T>(shape: seq<nat>, h: Store<T>) {
    forall n :: n in h ==>
      && NodeOk(shape, n, h[n])
      && forall i :: 0 <= i < |h[n].subs|
          ==> h[n].subs[i] in h && (h[n].subs[i].begin == -1 ==> h[h[n].subs[i]].value.Some?)
  }

  ghost function Rank<T>(n: TensorData<T>): nat {
    if n.begin < 0 || n.begin > |n.shape| then 0 else |n.shape| - n.begin
  }

  ghost predicate Below<T>(ns: seq<TensorData<T>>, h: Store<T>, r: nat) {
    forall i :: 0 <= i < |ns| ==> ns[i] in h && Rank(ns[i]) < r
  }

  /** The tree below a node. */
  ghost function Snapshot<T>(shape: seq<nat>, n: TensorData<T>, h: Store<T>): Tree<T>
    requires Closed(shape, h) && n in h
    decreases Rank(n), 1, 0
  {
    if n.begin == -1 then Scalar(h[n].value) else Sub(n.begin, SnapshotAll(shape, h[n].subs, h, Rank(n)), h[n].size)
  }

  ghost function SnapshotAll<T>(shape: seq<nat>, ns: seq<TensorData<T>>, h: Store<T>, r: nat): (ts: seq<Tree<T>>)
    requires Closed(shape, h) && Below(ns, h, r)
    ensures |ts| == |ns|
    decreases r, 0, |ns|
  {
    if ns == [] then [] else SnapshotAll(shape, ns[..|ns| - 1], h, r) + [Snapshot(shape, ns[|ns| - 1], h)]
  }

  lemma {:induction false} SnapshotAt<T>(shape: seq<nat>, ns: seq<TensorData<T>>, h: Store<T>, r: nat, i: nat)
    requires Closed(shape, h) && Below(ns, h, r) && i < |ns|
    ensures ns[i] in h && SnapshotAll(shape, ns, h, r)[i] == Snapshot(shape, ns[i], h)
    decreases |ns|
  {
    hide Closed, Snapshot;
    if i < |ns| - 1 {
      SnapshotAt(shape, ns[..|ns| - 1], h, r, i);
    }
  }

  ghost predicate SubGood<T>(shape: seq<nat>, begin: nat, ns: seq<TensorData<T>>, ts: seq<Tree<T>>, i: nat) {
    && i < |ts| && i < |ns| && Good(shape, ts[i]) && BeginOf(ts[i]) == ns[i].begin && -1 <= BeginOf(ts[i]) < |shape|
    && if ts[i].Scalar? then ts[i].v.Some? else begin < ts[i].begin
  }

  lemma {:induction false} SumIsAllocated<T>(shape: seq<nat>, begin: int, ns: seq<TensorData<T>>, ts: seq<Tree<T>>)
    requires begin >= 0 && Nodes(shape, begin, ns) && |ts| == |ns|
    requires forall i :: 0 <= i < |ts| ==> BeginOf(ts[i]) == ns[i].begin && -1 <= BeginOf(ts[i]) < |shape|
    ensures Begins(shape, ts) && SumOf(shape, ts) == Allocated(shape, begin, ns)
  {
    if ns != [] {
      SumIsAllocated(shape, begin, ns[..|ns| - 1], ts[..|ts| - 1]);
    }
  }

  lemma PrefixSum<T>(shape: seq<nat>, begin: nat, ns: seq<TensorData<T>>, ts: seq<Tree<T>>, i: nat)
    requires |ns| == |ts| && Nodes(shape, begin, ns) && i <= |ns|
    requires forall i :: 0 <= i < |ts| ==> SubGood(shape, begin, ns, ts, i)
    ensures Begins(shape, ts[..i]) && Begins(shape, ts) && SumOf(shape, ts[..i]) == Allocated(shape, begin, ns[..i])
  {
    hide Good, Allocated, SumOf, Capacity;
    forall k | 0 <= k < |ts| ensures BeginOf(ts[k]) == ns[k].begin && -1 <= BeginOf(ts[k]) < |shape| {
      assert SubGood(shape, begin, ns, ts, k);
    }
    SumIsAllocated(shape, begin, ns[..i], ts[..i]);
  }

  lemma TreeGood<T>(shape: seq<nat>, begin: nat, ns: seq<TensorData<T>>, ts: seq<Tree<T>>, size: nat)
    requires begin < |shape| && |ns| == |ts| && InOrder(shape, begin, ns, size)
    requires forall i :: 0 <= i < |ts| ==> SubGood(shape, begin, ns, ts, i)
    ensures Good(shape, Sub(begin, ts, size))
  {
    hide *;
    InOrderParts(shape, begin, ns, size);
    PrefixSum(shape, begin, ns, ts, |ts|);
    assert ts[..|ts|] == ts && ns[..|ns|] == ns;
    forall i | 0 <= i < |ts| ensures SubPlaced(shape, begin, ts, i) {
      InOrderAt(shape, begin, ns, size, i);
      PrefixSum(shape, begin, ns, ts, i);
      SubIs(shape, begin, ns, ts, i);
    }
    GoodFrom(shape, begin, ts, size);
  }

  /** One sub-tensor is good, and at a multiple of its capacity. */
  ghost predicate SubPlaced<T>(shape: seq<nat>, begin: nat, ts: seq<Tree<T>>, i: nat)
    requires Begins(shape, ts) && i < |ts|
  {
    && Good(shape, ts[i]) && (if ts[i].Scalar? then ts[i].v.Some? else begin < ts[i].begin)
    && (CapacityOf(shape, ts[i]) > 0 ==> SumOf(shape, ts[..i]) % CapacityOf(shape, ts[i]) == 0)
  }

  lemma GoodFrom<T>(shape: seq<nat>, begin: nat, ts: seq<Tree<T>>, size: nat)
    requires begin < |shape| && Begins(shape, ts) && size == SumOf(shape, ts) && size <= Capacity(shape, begin)
    requires forall i :: 0 <= i < |ts| ==> SubPlaced(shape, begin, ts, i)
    ensures Good(shape, Sub(begin, ts, size))
  {
    SubsPlaced(shape, begin, ts);
    hide GoodSubs, SumOf, Capacity, Aligned, SubPlaced;
  }

  lemma SubsPlaced<T>(shape: seq<nat>, begin: nat, ts: seq<Tree<T>>)
    requires Begins(shape, ts) && forall i :: 0 <= i < |ts| ==> SubPlaced(shape, begin, ts, i)
    ensures GoodSubs(shape, begin, ts) && Aligned(shape, ts)
  {
    hide Good, SumOf, Capacity;
    forall i | 0 <= i < |ts|
      ensures Good(shape, ts[i]) && (if ts[i].Scalar? then ts[i].v.Some? else begin < ts[i].begin)
      ensures CapacityOf(shape, ts[i]) > 0 ==> SumOf(shape, ts[..i]) % CapacityOf(shape, ts[i]) == 0
    {
      assert SubPlaced(shape, begin, ts, i);
    }
  }

  lemma InOrderParts<T>(shape: seq<nat>, begin: int, ns: seq<TensorData<T>>, size: nat)
    requires 0 <= begin < |shape| && InOrder(shape, begin, ns, size)
    ensures Nodes(shape, begin, ns) && size == Allocated(shape, begin, ns) && size <= Capacity(shape, begin)
  {
  }

  lemma InOrderAt<T>(shape: seq<nat>, begin: int, ns: seq<TensorData<T>>, size: nat, i: nat)
    requires 0 <= begin < |shape| && InOrder(shape, begin, ns, size) && i < |ns|
    ensures -1 <= ns[i].begin <= |shape| && Nodes(shape, begin, ns[..i])
    ensures Capacity(shape, ns[i].begin) > 0 ==> Allocated(shape, begin, ns[..i]) % Capacity(shape, ns[i].begin) == 0
  {
  }

  lemma SubIs<T>(shape: seq<nat>, begin: nat, ns: seq<TensorData<T>>, ts: seq<Tree<T>>, i: nat)
    requires i < |ts| == |ns| && SubGood(shape, begin, ns, ts, i) && Begins(shape, ts) && -1 <= ns[i].begin <= |shape|
    requires Capacity(shape, ns[i].begin) > 0 ==> SumOf(shape, ts[..i]) % Capacity(shape, ns[i].begin) == 0
    ensures SubPlaced(shape, begin, ts, i)
  {
    hide Good, SumOf, Capacity;
  }

  /** Whatever was built by appending values and making sub-tensors is in order. */
  lemma {:induction false} SnapshotGood<T>(shape: seq<nat>, n: TensorData<T>, h: Store<T>)
    requires Closed(shape, h) && n in h
    ensures var t := Snapshot(shape, n, h); Good(shape, t) && BeginOf(t) == n.begin && -1 <= n.begin < |shape|
    decreases Rank(n)
  {
    assert NodeOk(shape, n, h[n]);
    if n.begin != -1 {
      var ts := SnapshotAll(shape, h[n].subs, h, Rank(n));
      forall i | 0 <= i < |ts| ensures SubGood(shape, n.begin, h[n].subs, ts, i) {
        hide Good, InOrder;
        SnapshotAt(shape, h[n].subs, h, Rank(n), i);
        assert h[n].subs[i] in h;
        SubRank(shape, n, h, i);
        SnapshotGood(shape, h[n].subs[i], h);
        LeafHasValue(shape, n, h, i);
      }
      hide SnapshotAll, Closed;
      TreeGood(shape, n.begin, h[n].subs, ts, h[n].size);
    }
  }

  lemma SubRank<T>(shape: seq<nat>, n: TensorData<T>, h: Store<T>, i: nat)
    requires Closed(shape, h) && n in h && n.begin != -1 && i < |h[n].subs|
    ensures Rank(h[n].subs[i]) < Rank(n)
  {
    assert NodeOk(shape, n, h[n]);
  }

  lemma LeafHasValue<T>(shape: seq<nat>, n: TensorData<T>, h: Store<T>, i: nat)
    requires Closed(shape, h) && n in h && n.begin != -1 && i < |h[n].subs|
    ensures h[n].subs[i] in h
    ensures var t := Snapshot(shape, h[n].subs[i], h); if t.Scalar? then t.v.Some? else n.begin < t.begin
  {
    assert NodeOk(shape, n, h[n]);
  }

  // ----- What a call changes -----

  /** Outside of `n`, `h'` has what `h` has. */
  ghost predicate OnlyAt<T>(n: TensorData<T>, h: Store<T>, h': Store<T>) {
    n in h && h.Keys <= h'.Keys && forall m :: m in h && m != n ==> h'[m] == h[m]
  }

  /** Nodes of lower rank than the one that changed stand for the same trees. */
  lemma {:induction false} SnapshotSame<T>(shape: seq<nat>, n: TensorData<T>, m: TensorData<T>, h: Store<T>,
                                           h': Store<T>)
    requires Closed(shape, h) && Closed(shape, h') && OnlyAt(n, h, h') && m in h && Rank(m) < Rank(n)
    ensures Snapshot(shape, m, h') == Snapshot(shape, m, h)
    decreases Rank(m), 1, 0
  {
    if m.begin != -1 {
      SnapshotsSame(shape, n, h[m].subs, h, h', Rank(m));
    }
  }

  lemma {:induction false} SnapshotsSame<T>(shape: seq<nat>, n: TensorData<T>, ns: seq<TensorData<T>>, h: Store<T>,
                                            h': Store<T>, r: nat)
    requires Closed(shape, h) && Closed(shape, h') && OnlyAt(n, h, h') && Below(ns, h, r) && r <= Rank(n)
    ensures Below(ns, h', r) && SnapshotAll(shape, ns, h', r) == SnapshotAll(shape, ns, h, r)
    decreases r, 0, |ns|
  {
    if ns != [] {
      SnapshotsSame(shape, n, ns[..|ns| - 1], h, h', r);
      SnapshotSame(shape, n, ns[|ns| - 1], h, h');
    }
  }

  /** Linking one more sub-tensor appends its tree. */
  lemma LinkedSnapshot<T>(shape: seq<nat>, n: TensorData<T>, c: TensorData<T>, h: Store<T>, h': Store<T>)
    requires Closed(shape, h) && Closed(shape, h') && OnlyAt(n, h, h') && n.begin != -1 && c in h'
             && h'[n].subs == h[n].subs + [c]
    ensures Snapshot(shape, n, h).Sub?
    ensures Snapshot(shape, n, h') == Sub(n.begin, Snapshot(shape, n, h).subs + [Snapshot(shape, c, h')], h'[n].size)
  {
    var r := Rank(n);
    var ns := h[n].subs;
    assert h'[n].subs[..|h'[n].subs| - 1] == ns;
    SnapshotsSame(shape, n, ns, h, h', r);
  }

  lemma LinkedClosed<T>(shape: seq<nat>, n: TensorData<T>, c: TensorData<T>, h: Store<T>, h': Store<T>)
    requires Closed(shape, h) && OnlyAt(n, h, h') && h'.Keys == h.Keys + {c} && c !in h && NodeOk(shape, n, h'[n])
             && n.begin != -1
    requires h'[n].subs == h[n].subs + [c] && NodeOk(shape, c, h'[c]) && h'[c].subs == []
             && (c.begin == -1 ==> h'[c].value.Some?)
    ensures Closed(shape, h')
  {
    forall m | m in h'
      ensures NodeOk(shape, m, h'[m])
      ensures forall i ::
                0 <= i < |h'[m].subs| ==>
                    h'[m].subs[i] in h' && (h'[m].subs[i].begin == -1 ==> h'[h'[m].subs[i]].value.Some?)
    {
      if m in h { assert NodeOk(shape, m, h[m]); }
      hide NodeOk;
    }
  }

  /** One more sub-tensor `c` under `n`. */
  ghost predicate Links<T>(shape: seq<nat>, n: TensorData<T>, c: TensorData<T>, h: Store<T>, h': Store<T>) {
    && n in h && c !in h && h'.Keys == h.Keys + {c} && OnlyAt(n, h, h') && n.begin >= 0
    && NodeOk(shape, n, h'[n]) && h'[n].subs == h[n].subs + [c]
    && NodeOk(shape, c, h'[c]) && h'[c].subs == [] && (c.begin == -1 ==> h'[c].value.Some?)
  }

  lemma Appended<T>(shape: seq<nat>, n: TensorData<T>, c: TensorData<T>, h: Store<T>, h': Store<T>, e: T, d: T)
    requires Positive(shape) && Closed(shape, h) && Links(shape, n, c, h, h') && c.begin == -1 && h'[c].value == Some(e)
    requires h'[n].size == h[n].size + 1
    ensures Closed(shape, h')
    ensures var before := Flat(shape, d, Snapshot(shape, n, h));
            h[n].size < |before| && Flat(shape, d, Snapshot(shape, n, h')) == before[h[n].size := e]
  {
    var t := Snapshot(shape, n, h);
    LinkedClosed(shape, n, c, h, h');
    hide Flat, Good, InOrder, Closed, Capacity, SnapshotAll, NodeOk;
    LinkedSnapshot(shape, n, c, h, h');
    SnapshotGood(shape, n, h);
    NodeRoom(shape, n, h'[n]);
    AppendFlat(shape, d, t, e);
  }

  lemma NodeRoom<T>(shape: seq<nat>, n: TensorData<T>, k: Node<T>)
    requires NodeOk(shape, n, k) && n.begin >= 0
    ensures n.begin < |shape| && k.size <= Capacity(shape, n.begin)
  {
  }

  lemma SubMade<T>(shape: seq<nat>, n: TensorData<T>, c: TensorData<T>, h: Store<T>, h': Store<T>, d: T)
    requires Positive(shape) && Closed(shape, h) && Links(shape, n, c, h, h') && n.begin < |shape|
    requires MadeAt(shape, n.begin, h[n].size) == Some(c.begin) && h'[c].size == 0
    requires c.begin < |shape| && h'[n].size == h[n].size + Capacity(shape, c.begin)
    ensures Closed(shape, h') && Flat(shape, d, Snapshot(shape, n, h')) == Flat(shape, d, Snapshot(shape, n, h))
  {
    var t := Snapshot(shape, n, h);
    LinkedClosed(shape, n, c, h, h');
    MadeFits(shape, n.begin, h[n].size);
    hide Flat, Good, InOrder, Closed, Capacity, NodeOk, MadeAt;
    LinkedSnapshot(shape, n, c, h, h');
    SnapshotGood(shape, n, h);
    SubTensorFlat(shape, d, t, c.begin);
  }

  lemma ClosedNode<T>(shape: seq<nat>, n: TensorData<T>, nodes: set<TensorData<T>>)
    requires Positive(shape) && Closed(shape, Stored(nodes)) && n in nodes
    ensures n in Stored(nodes) && n.Valid() && n.shape == shape && -1 <= n.begin < |shape|
    ensures Stored(nodes)[n] == Node(n.subs, n.value, n.size) && n.DimCapacity() == Capacity(shape, n.begin)
  {
    assert n in Stored(nodes) && NodeOk(shape, n, Stored(nodes)[n]);
    hide Closed, InOrder, Capacity;
    ValidIs(shape, n);
  }

  /** `n` has got `c`, which is new; `h` is what `nodes` held before. */
  lemma NowLinked<T>(shape: seq<nat>, n: TensorData<T>, c: TensorData<T>, nodes: set<TensorData<T>>, h: Store<T>)
    requires Positive(shape) && n in nodes && c !in nodes && n.begin >= 0 && n.shape == shape && c.shape == shape
    requires h.Keys == nodes && forall m :: m in nodes && m != n ==> h[m] == Node(m.subs, m.value, m.size)
    requires n.Valid() && c.Valid() && n.subs == h[n].subs + [c] && c.subs == [] && (c.begin == -1 ==> c.value.Some?)
    ensures Links(shape, n, c, h, Stored(nodes + {c}))
  {
    hide InOrder;
    ValidIs(shape, n);
    ValidIs(shape, c);
  }

  lemma StoredKeys<T>(nodes: set<TensorData<T>>)
    ensures Stored(nodes).Keys == nodes && forall m :: m in nodes ==> Stored(nodes)[m] == Node(m.subs, m.value, m.size)
  {
  }

  // ----- The tensor as a whole -----

  /** `n` is below `r`, `o` elements from its start. */
  ghost predicate LiesAt<T>(shape: seq<nat>, r: TensorData<T>, n: TensorData<T>, h: Store<T>, o: nat)
    requires Closed(shape, h) && r in h
    decreases Rank(r), 1, 0
  {
    if r == n then o == 0
    else r.begin != -1 && NodeOk(shape, r, h[r]) && LiesAmong(shape, r.begin, h[r].subs, n, h, o, Rank(r))
  }

  /** `n` is in one of the sub-tensors. */
  ghost predicate LiesAmong<T>(shape: seq<nat>, begin: int, ns: seq<TensorData<T>>, n: TensorData<T>, h: Store<T>,
                               o: nat, r: nat)
    requires Closed(shape, h) && Below(ns, h, r) && begin >= 0 && Nodes(shape, begin, ns)
    decreases r, 0, |ns|
  {
    ns != [] &&
    var init, last := ns[..|ns| - 1], ns[|ns| - 1];
    var taken := Allocated(shape, begin, init);
    LiesAmong(shape, begin, init, n, h, o, r) || (taken <= o && LiesAt(shape, last, n, h, o - taken))
  }

  /** What is below a node ends where the node ends. */
  lemma {:induction false} LiesWithin<T>(shape: seq<nat>, r: TensorData<T>, n: TensorData<T>, h: Store<T>, o: nat)
    requires Closed(shape, h) && r in h && n in h && LiesAt(shape, r, n, h, o)
    ensures -1 <= n.begin < |shape| && -1 <= r.begin < |shape|
            && o + Capacity(shape, n.begin) <= Capacity(shape, r.begin)
    decreases Rank(r), 1, 0
  {
    assert NodeOk(shape, n, h[n]) && NodeOk(shape, r, h[r]);
    if r != n {
      hide Capacity;
      LiesAmongWithin(shape, r.begin, h[r].subs, n, h, o, Rank(r));
    }
  }

  lemma {:induction false} LiesAmongWithin<T>(shape: seq<nat>, begin: int, ns: seq<TensorData<T>>, n: TensorData<T>,
                                              h: Store<T>, o: nat, r: nat)
    requires Closed(shape, h) && Below(ns, h, r) && begin >= 0 && Nodes(shape, begin, ns) && n in h
             && LiesAmong(shape, begin, ns, n, h, o, r)
    ensures -1 <= n.begin < |shape| && o + Capacity(shape, n.begin) <= Allocated(shape, begin, ns)
    decreases r, 0, |ns|
  {
    hide Capacity;
    var init, last := ns[..|ns| - 1], ns[|ns| - 1];
    var taken := Allocated(shape, begin, init);
    if LiesAmong(shape, begin, init, n, h, o, r) {
      LiesAmongWithin(shape, begin, init, n, h, o, r);
    } else {
      LiesWithin(shape, last, n, h, o - taken);
    }
  }

  /** `after` is `before` with `e` wherever the element `size` of `n` is, if it is `marked`. */
  ghost predicate Changed<T>(shape: seq<nat>, r: TensorData<T>, n: TensorData<T>, h: Store<T>, marked: bool, size: nat,
                             e: T,
                             before: seq<T>, after: seq<T>)
    requires Closed(shape, h) && r in h
  {
    && |after| == |before|
    && forall j :: 0 <= j < |after| ==>
         after[j] == if marked && size <= j && LiesAt(shape, r, n, h, j - size) then e else before[j]
  }

  ghost predicate AllChanged<T>(shape: seq<nat>, begin: int, ns: seq<TensorData<T>>, n: TensorData<T>, h: Store<T>,
                                r: nat, marked: bool,
                                size: nat, e: T, before: seq<T>, after: seq<T>)
    requires Closed(shape, h) && Below(ns, h, r) && begin >= 0 && Nodes(shape, begin, ns)
  {
    && |after| == |before| == Allocated(shape, begin, ns)
    && forall j :: 0 <= j < |after| ==>
         after[j] == if marked && size <= j && LiesAmong(shape, begin, ns, n, h, j - size, r) then e else before[j]
  }

  /** One call on `n` changes the elements of `n` as it should. */
  ghost predicate Called<T>(shape: seq<nat>, n: TensorData<T>, h: Store<T>, h': Store<T>, d: T, marked: bool, e: T) {
    && Positive(shape) && Closed(shape, h) && Closed(shape, h') && OnlyAt(n, h, h') && -1 <= n.begin < |shape|
    && h[n].size < Capacity(shape, n.begin)
    && Changed(shape, n, n, h, marked, h[n].size, e, Flat(shape, d, Snapshot(shape, n, h)),
        Flat(shape, d, Snapshot(shape, n, h')))
  }

  /** And then it changes the elements of every tensor around `n` there, and no other. */
  lemma {:induction false} RootChanged<T>(shape: seq<nat>, r: TensorData<T>, n: TensorData<T>, h: Store<T>,
                                          h': Store<T>, d: T, marked: bool, e: T)
    requires Called(shape, n, h, h', d, marked, e) && r in h
    ensures Changed(shape, r, n, h, marked, h[n].size, e, Flat(shape, d, Snapshot(shape, r, h)),
              Flat(shape, d, Snapshot(shape, r, h')))
    decreases Rank(r), 1, 0
  {
    if r != n {
      assert NodeOk(shape, r, h[r]) && h'[r] == h[r];
      if r.begin != -1 {
        RootOf(shape, r, n, h, h', d, marked, e);
      }
    }
  }

  lemma {:induction false} RootOf<T>(shape: seq<nat>, r: TensorData<T>, n: TensorData<T>, h: Store<T>, h': Store<T>,
                                     d: T, marked: bool, e: T)
    requires Called(shape, n, h, h', d, marked, e) && r in h && r != n && r.begin != -1
    ensures Changed(shape, r, n, h, marked, h[n].size, e, Flat(shape, d, Snapshot(shape, r, h)),
              Flat(shape, d, Snapshot(shape, r, h')))
    decreases Rank(r), 0, |h[r].subs| + 1
  {
    assert NodeOk(shape, r, h[r]) && h'[r] == h[r];
    hide *;
    var ns := h[r].subs;
    SubsBelow(shape, r, h);
    SubsBelow(shape, r, h');
    CalledParts(shape, n, h, h', d, marked, e);
    AllRootsChanged(shape, r.begin, ns, n, h, h', Rank(r), d, marked, e);
    FlatOfSubs(shape, r, h, d);
    FlatOfSubs(shape, r, h', d);
    PaddedChanged(shape, r, n, h, marked, e, FlatAll(shape, d, SnapshotAll(shape, ns, h, Rank(r))),
                  FlatAll(shape, d, SnapshotAll(shape, ns, h', Rank(r))), Repeat(d, PaddingOf(shape, r, h)));
  }

  ghost function PaddingOf<T>(shape: seq<nat>, r: TensorData<T>, h: Store<T>): nat
    requires r in h
  {
    if 0 <= r.begin <= |shape| then Padding(Capacity(shape, r.begin), h[r].size) else 0
  }

  lemma CalledParts<T>(shape: seq<nat>, n: TensorData<T>, h: Store<T>, h': Store<T>, d: T, marked: bool, e: T)
    requires Called(shape, n, h, h', d, marked, e)
    ensures Positive(shape) && Closed(shape, h) && Closed(shape, h') && OnlyAt(n, h, h') && -1 <= n.begin < |shape|
    ensures n in h && h[n].size < Capacity(shape, n.begin) && h.Keys <= h'.Keys && forall m ::
              m in h && m != n ==> h'[m] == h[m]
  {
  }

  lemma FlatOfSubs<T>(shape: seq<nat>, r: TensorData<T>, h: Store<T>, d: T)
    requires Closed(shape, h) && r in h && r.begin != -1 && Below(h[r].subs, h, Rank(r)) && -1 <= r.begin
    ensures Flat(shape, d, Snapshot(shape, r, h)) ==
            FlatAll(shape, d, SnapshotAll(shape, h[r].subs, h, Rank(r))) + Repeat(d, PaddingOf(shape, r, h))
  {
  }

  /** The default values behind the sub-tensors do not change. */
  lemma PaddedChanged<T>(shape: seq<nat>, r: TensorData<T>, n: TensorData<T>, h: Store<T>, marked: bool, e: T,
                         before: seq<T>,
                         after: seq<T>, pad: seq<T>)
    requires Closed(shape, h) && r in h && n in h && r != n && r.begin >= 0 && -1 <= n.begin < |shape|
             && h[n].size < Capacity(shape, n.begin)
    requires Below(h[r].subs, h, Rank(r)) && Nodes(shape, r.begin, h[r].subs) && NodeOk(shape, r, h[r])
    requires AllChanged(shape, r.begin, h[r].subs, n, h, Rank(r), marked, h[n].size, e, before, after)
    ensures Changed(shape, r, n, h, marked, h[n].size, e, before + pad, after + pad)
  {
    hide Closed, Capacity, NodeOk, Nodes;
    var size, ns := h[n].size, h[r].subs;
    forall j | 0 <= j < |after + pad|
      ensures (after + pad)[j] == if marked && size <= j && LiesAt(shape, r, n, h, j - size) then e
              else (before + pad)[j]
    {
      if size <= j && LiesAmong(shape, r.begin, ns, n, h, j - size, Rank(r)) {
        LiesAmongWithin(shape, r.begin, ns, n, h, j - size, Rank(r));
      }
    }
  }

  lemma SubsBelow<T>(shape: seq<nat>, r: TensorData<T>, h: Store<T>)
    requires Closed(shape, h) && r in h && r.begin != -1
    ensures NodeOk(shape, r, h[r]) && Below(h[r].subs, h, Rank(r)) && r.begin >= 0 && Nodes(shape, r.begin, h[r].subs)
  {
  }

  lemma {:induction false} AllRootsChanged<T>(shape: seq<nat>, begin: int, ns: seq<TensorData<T>>, n: TensorData<T>,
                                              h: Store<T>, h': Store<T>,
                                              r: nat, d: T, marked: bool, e: T)
    requires Called(shape, n, h, h', d, marked, e) && begin >= 0 && Nodes(shape, begin, ns) && Below(ns, h, r)
             && Below(ns, h', r)
    ensures AllChanged(shape, begin, ns, n, h, r, marked, h[n].size, e,
                       FlatAll(shape, d, SnapshotAll(shape, ns, h, r)),
                           FlatAll(shape, d, SnapshotAll(shape, ns, h', r)))
    decreases r, 0, |ns|
  {
    if ns != [] {
      var init, last := ns[..|ns| - 1], ns[|ns| - 1];
      AllRootsChanged(shape, begin, init, n, h, h', r, d, marked, e);
      RootChanged(shape, last, n, h, h', d, marked, e);
      OneMoreChanged(shape, begin, ns, n, h, h', r, d, marked, e);
    }
  }

  lemma FlatOfNode<T>(shape: seq<nat>, r: TensorData<T>, h: Store<T>, d: T)
    requires Positive(shape) && Closed(shape, h) && r in h
    ensures -1 <= r.begin < |shape| && |Flat(shape, d, Snapshot(shape, r, h))| == Capacity(shape, r.begin)
  {
    hide Closed, Flat, Capacity, Good, Snapshot;
    SnapshotGood(shape, r, h);
    FlatLength(shape, d, Snapshot(shape, r, h));
  }

  /** A list of sub-tensors and one more: the elements of both, one after the other. */
  lemma FlatSplit<T>(shape: seq<nat>, ns: seq<TensorData<T>>, h: Store<T>, r: nat, d: T)
    requires Closed(shape, h) && Below(ns, h, r) && ns != []
    ensures Below(ns[..|ns| - 1], h, r) && ns[|ns| - 1] in h
    ensures FlatAll(shape, d, SnapshotAll(shape, ns, h, r)) ==
            FlatAll(shape, d, SnapshotAll(shape, ns[..|ns| - 1], h, r))
                + Flat(shape, d, Snapshot(shape, ns[|ns| - 1], h))
  {
    hide Closed, Flat, FlatAll, Snapshot;
    FlatAllAppend(shape, d, SnapshotAll(shape, ns[..|ns| - 1], h, r), Snapshot(shape, ns[|ns| - 1], h));
  }

  lemma OneMoreChanged<T>(shape: seq<nat>, begin: int, ns: seq<TensorData<T>>, n: TensorData<T>, h: Store<T>,
                          h': Store<T>,
                          r: nat, d: T, marked: bool, e: T)
    requires Called(shape, n, h, h', d, marked, e) && begin >= 0 && Nodes(shape, begin, ns) && Below(ns, h, r)
             && Below(ns, h', r) && ns != []
    requires var init := ns[..|ns| - 1];
             AllChanged(shape, begin, init, n, h, r, marked, h[n].size, e,
                        FlatAll(shape, d, SnapshotAll(shape, init, h, r)),
                            FlatAll(shape, d, SnapshotAll(shape, init, h', r)))
    requires var last := ns[|ns| - 1];
             Changed(shape, last, n, h, marked, h[n].size, e, Flat(shape, d, Snapshot(shape, last, h)),
                 Flat(shape, d, Snapshot(shape, last, h')))
    ensures AllChanged(shape, begin, ns, n, h, r, marked, h[n].size, e,
                       FlatAll(shape, d, SnapshotAll(shape, ns, h, r)),
                           FlatAll(shape, d, SnapshotAll(shape, ns, h', r)))
  {
    var init, last := ns[..|ns| - 1], ns[|ns| - 1];
    CalledParts(shape, n, h, h', d, marked, e);
    FlatOfNode(shape, last, h, d);
    FlatSplit(shape, ns, h, r, d);
    FlatSplit(shape, ns, h', r, d);
    hide Called;
    JoinedChanged(shape, begin, ns, n, h, r, marked, e,
                  FlatAll(shape, d, SnapshotAll(shape, init, h, r)), FlatAll(shape, d, SnapshotAll(shape, init, h', r)),
                  Flat(shape, d, Snapshot(shape, last, h)), Flat(shape, d, Snapshot(shape, last, h')));
  }

  lemma JoinedChanged<T>(shape: seq<nat>, begin: int, ns: seq<TensorData<T>>, n: TensorData<T>, h: Store<T>, r: nat,
                         marked: bool, e: T,
                         before: seq<T>, after: seq<T>, before1: seq<T>, after1: seq<T>)
    requires Closed(shape, h) && begin >= 0 && Nodes(shape, begin, ns) && Below(ns, h, r) && ns != []
    requires n in h && -1 <= n.begin < |shape| && h[n].size < Capacity(shape, n.begin)
    requires AllChanged(shape, begin, ns[..|ns| - 1], n, h, r, marked, h[n].size, e, before, after)
    requires Changed(shape, ns[|ns| - 1], n, h, marked, h[n].size, e, before1, after1)
             && |before1| == Capacity(shape, ns[|ns| - 1].begin)
    ensures AllChanged(shape, begin, ns, n, h, r, marked, h[n].size, e, before + before1, after + after1)
  {
    hide Closed, Capacity, LiesAt, NodeOk;
    var init, last, size := ns[..|ns| - 1], ns[|ns| - 1], h[n].size;
    forall j | 0 <= j < |after + after1|
      ensures (after + after1)[j] ==
              if marked && size <= j && LiesAmong(shape, begin, ns, n, h, j - size, r) then e else (before + before1)[j]
    {
      if size <= j && LiesAmong(shape, begin, init, n, h, j - size, r) {
        LiesAmongWithin(shape, begin, init, n, h, j - size, r);
      }
    }
  }

  /** What `Appended` and `SubMade` say of the node, as a change. */
  lemma CalledIs<T>(shape: seq<nat>, n: TensorData<T>, h: Store<T>, h': Store<T>, d: T, marked: bool, e: T)
    requires Positive(shape) && Closed(shape, h) && Closed(shape, h') && OnlyAt(n, h, h') && -1 <= n.begin < |shape|
    requires h[n].size < Capacity(shape, n.begin)
    requires var before := Flat(shape, d, Snapshot(shape, n, h));
             h[n].size < |before| && Flat(shape, d, Snapshot(shape, n, h')) == if marked then before[h[n].size := e]
                 else before
    ensures Called(shape, n, h, h', d, marked, e)
  {
    hide Closed, Flat, Snapshot, Capacity;
    forall o: nat ensures LiesAt(shape, n, n, h, o) <==> o == 0 {}
  }

  lemma NothingChanged<T>(shape: seq<nat>, h: Store<T>, h': Store<T>, r: TensorData<T>, n: TensorData<T>, size: nat,
                          d: T, e: T)
    requires Closed(shape, h) && r in h && h' == h
    ensures Closed(shape, h') && r in h'
    ensures Changed(shape, r, n, h, false, size, e, Flat(shape, d, Snapshot(shape, r, h)),
              Flat(shape, d, Snapshot(shape, r, h')))
  {
  }

  lemma Unmarked<T>(shape: seq<nat>, r: TensorData<T>, n: TensorData<T>, h: Store<T>, size: nat, e: T, before: seq<T>,
                    after: seq<T>)
    requires Closed(shape, h) && r in h && Changed(shape, r, n, h, false, size, e, before, after)
    ensures after == before
  {
  }

  /** `append` on a node of a tensor: the node's first free element becomes the value, no other changes, in the
      node and in every tensor `r` around it. */
  method AppendTo<T(==)>(shape: seq<nat>, n: TensorData<T>, ghost nodes: set<TensorData<T>>, element: T, ghost d: T)
    returns (ok: bool, ghost nodes': set<TensorData<T>>, ghost before: seq<T>)
    requires Positive(shape) && Closed(shape, Stored(nodes)) && n in nodes && n.begin >= 0
    modifies n
    ensures nodes <= nodes' && fresh(nodes' - nodes) && Closed(shape, Stored(nodes')) && n in Stored(nodes')
    ensures -1 <= n.begin < |shape| && ok == (old(n.size) < Capacity(shape, n.begin))
    ensures before == Flat(shape, d, old(Snapshot(shape, n, Stored(nodes)))) && (ok ==> old(n.size) < |before|)
    ensures Flat(shape, d, Snapshot(shape, n, Stored(nodes'))) == if ok then before[old(n.size) := element] else before
    ensures forall r :: r in nodes ==>
              r in Stored(nodes') &&
              Changed(shape, r, n, old(Stored(nodes)), ok, old(n.size), element,
                      Flat(shape, d, old(Snapshot(shape, r, Stored(nodes)))),
                          Flat(shape, d, Snapshot(shape, r, Stored(nodes'))))
  {
    ghost var h := Stored(nodes);
    before := Flat(shape, d, Snapshot(shape, n, h));
    hide *;
    StoredKeys(nodes);
    ClosedNode(shape, n, nodes);
    ok := n.Append(element);
    nodes' := nodes;
    if ok {
      ghost var c := n.subs[|n.subs| - 1];
      nodes' := nodes + {c};
      NowLinked(shape, n, c, nodes, h);
      StoredAt(nodes', n);
      StoredAt(nodes', c);
      Appended(shape, n, c, h, Stored(nodes'), element, d);
      LinksParts(shape, n, c, h, Stored(nodes'));
      CalledIs(shape, n, h, Stored(nodes'), d, true, element);
      forall r | r in nodes
        ensures r in Stored(nodes')
        ensures Changed(shape, r, n, h, true, h[n].size, element, Flat(shape, d, Snapshot(shape, r, h)),
                  Flat(shape, d, Snapshot(shape, r, Stored(nodes'))))
      {
        RootChanged(shape, r, n, h, Stored(nodes'), d, true, element);
      }
    } else {
      SameStore(h, nodes);
      StoredAt(nodes', n);
      forall r | r in nodes
        ensures r in Stored(nodes')
        ensures Changed(shape, r, n, h, false, h[n].size, element, Flat(shape, d, Snapshot(shape, r, h)),
                  Flat(shape, d, Snapshot(shape, r, Stored(nodes'))))
      {
        NothingChanged(shape, h, Stored(nodes'), r, n, h[n].size, d, element);
      }
    }
  }

  lemma StoredAt<T>(nodes: set<TensorData<T>>, n: TensorData<T>)
    requires n in nodes
    ensures n in Stored(nodes) && Stored(nodes)[n] == Node(n.subs, n.value, n.size)
  {
  }

  lemma SameStore<T>(h: Store<T>, nodes: set<TensorData<T>>)
    requires h.Keys == nodes && forall n :: n in nodes ==> h[n] == Node(n.subs, n.value, n.size)
    ensures Stored(nodes) == h
  {
  }

  lemma LinksParts<T>(shape: seq<nat>, n: TensorData<T>, c: TensorData<T>, h: Store<T>, h': Store<T>)
    requires Links(shape, n, c, h, h')
    ensures OnlyAt(n, h, h') && h'.Keys == h.Keys + {c}
  {
  }

  /** `makeSubTensor` on a node of a tensor: room is taken, no element changes, in the node and in every tensor
      `r` around it. */
  method SubTensorOf<T(==)>(shape: seq<nat>, n: TensorData<T>, ghost nodes: set<TensorData<T>>, ghost d: T)
    returns (ret: TensorData?<T>, ghost nodes': set<TensorData<T>>)
    requires Positive(shape) && Closed(shape, Stored(nodes)) && n in nodes && n.begin >= 0
    modifies n
    ensures nodes <= nodes' && fresh(nodes' - nodes) && Closed(shape, Stored(nodes')) && n in Stored(nodes')
    ensures 0 <= n.begin < |shape| && (ret != null) == MadeAt(shape, n.begin, old(n.size)).Some?
    ensures ret != null ==>
              ret in nodes' && -1 <= ret.begin <= |shape| && n.size == old(n.size) + Capacity(shape, ret.begin)
    ensures forall r :: r in nodes ==>
              r in Stored(nodes') &&
              Flat(shape, d, Snapshot(shape, r, Stored(nodes'))) ==
                  Flat(shape, d, old(Snapshot(shape, r, Stored(nodes))))
  {
    ghost var h := Stored(nodes);
    hide *;
    StoredKeys(nodes);
    ClosedNode(shape, n, nodes);
    if MadeAt(shape, n.begin, n.size).Some? { MadeFits(shape, n.begin, n.size); CapacityPositive(shape,
        MadeAt(shape, n.begin, n.size).value); }
    ret := n.MakeSubTensor();
    nodes' := nodes;
    if ret != null {
      nodes' := nodes + {ret};
      NowLinked(shape, n, ret, nodes, h);
      StoredAt(nodes', n);
      StoredAt(nodes', ret);
      SubMade(shape, n, ret, h, Stored(nodes'), d);
      LinksParts(shape, n, ret, h, Stored(nodes'));
      FlatOfNode(shape, n, h, d);
      CalledIs(shape, n, h, Stored(nodes'), d, false, d);
      forall r | r in nodes
        ensures r in Stored(nodes') && Flat(shape, d, Snapshot(shape, r, Stored(nodes'))) ==
                Flat(shape, d, Snapshot(shape, r, h))
      {
        RootChanged(shape, r, n, h, Stored(nodes'), d, false, d);
        Unmarked(shape, r, n, h, h[n].size, d, Flat(shape, d, Snapshot(shape, r, h)),
            Flat(shape, d, Snapshot(shape, r, Stored(nodes'))));
      }
    } else {
      SameStore(h, nodes);
      StoredAt(nodes', n);
    }
  }
}
