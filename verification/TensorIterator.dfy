/** Walking over a tensor with two stacks (`Tensor::Iterator`). */
module TensorIterator {
  import opened Tensor

  datatype IterateType = VALUE | DEFAULT_VALUES | SUB_TENSOR_BEGIN | SUB_TENSOR_END

  /** What one stop of the iterator contributes to the elements in order. */
  datatype Stop<T> = Value(x: T) | Defaults(x: T, n: nat) | Begins | Ends

  function Content<T>(s: Stop<T>): seq<T> {
    match s
    case Value(x) => [x]
    case Defaults(x, n) => Repeat(x, n)
    case Begins => []
    case Ends => []
  }

  // ----- What is still to come -----

  function Room<T>(shape: seq<nat>, t: Tree<T>): nat {
    if t.Sub? && t.begin <= |shape| then Padding(Capacity(shape, t.begin), t.size) else 0
  }

  /** The elements of `t` from its `i`th sub-tensor on, then the default values. */
  ghost function From<T>(shape: seq<nat>, d: T, t: Tree<T>, i: int): seq<T> {
    if t.Sub? && 0 <= i <= |t.subs| then FlatAll(shape, d, t.subs[i..]) + Repeat(d, Room(shape, t)) else []
  }

  /** What lower levels still have after the sub-tensors they are in. */
  ghost function Outer<T>(shape: seq<nat>, d: T, data: seq<Tree<T>>, index: seq<int>): seq<T> {
    if data == [] || index == [] then []
    else
      From(shape, d, data[|data| - 1], index[|index| - 1] + 1)
      + Outer(shape, d, data[..|data| - 1], index[..|index| - 1])
  }

  /** The elements still to come when the top of the stacks is `t` at `i`, with `data` and `index` below. */
  ghost function Remaining<T>(shape: seq<nat>, d: T, data: seq<Tree<T>>, index: seq<int>, t: Tree<T>, i: int): seq<T> {
    From(shape, d, t, i) + Outer(shape, d, data, index)
  }

  /** A level of the stacks: a sub-tensor and an index into it. */
  ghost predicate Level<T>(shape: seq<nat>, t: Tree<T>, i: int) {
    t.Sub? && Good(shape, t) && 0 <= i < |t.subs|
  }

  /** The top of the stacks: -1 is the end of a sub-tensor, the number of sub-tensors its default values. */
  ghost predicate TopLevel<T>(shape: seq<nat>, t: Tree<T>, i: int) {
    t.Sub? && Good(shape, t) && -1 <= i <= |t.subs| && (i == |t.subs| ==> Room(shape, t) > 0)
  }

  /** Every level is the sub-tensor the level below is at. */
  ghost predicate Stacked<T>(shape: seq<nat>, data: seq<Tree<T>>, index: seq<int>, t: Tree<T>, i: int) {
    TopLevel(shape, t, i) && (i == -1 ==> data != []) && Lower(shape, data, index, t)
  }

  /** The levels below `t`, which the last of them is at. */
  ghost predicate Lower<T>(shape: seq<nat>, data: seq<Tree<T>>, index: seq<int>, t: Tree<T>) {
    && |data| == |index|
    && (data != [] ==>
          var n := |data| - 1;
          Level(shape, data[n], index[n]) && t == data[n].subs[index[n]]
              && Lower(shape, data[..n], index[..n], data[n]))
  }

  /** The number of stops in a tensor: two brackets for each sub-tensor. */
  ghost function Stops<T>(shape: seq<nat>, t: Tree<T>): nat
    decreases t, 1
  {
    match t
    case Scalar(_) => 1
    case Sub(b, subs, size) => 2 + StopsAll(shape, subs) + (if Room(shape, t) > 0 then 1 else 0)
  }

  ghost function StopsAll<T>(shape: seq<nat>, ts: seq<Tree<T>>): nat
    decreases ts, 0
  {
    if ts == [] then 0 else Stops(shape, ts[0]) + StopsAll(shape, ts[1..])
  }

  ghost function StopsFrom<T>(shape: seq<nat>, t: Tree<T>, i: int): nat {
    1 + if t.Sub? && 0 <= i <= |t.subs| then StopsAll(shape, t.subs[i..]) + (if Room(shape, t) > 0 then 1 else 0) else 0
  }

  ghost function StopsOuter<T>(shape: seq<nat>, data: seq<Tree<T>>, index: seq<int>): nat {
    if data == [] || index == [] then 0
    else
      StopsFrom(shape, data[|data| - 1], index[|index| - 1] + 1)
      + StopsOuter(shape, data[..|data| - 1], index[..|index| - 1])
  }

  /** A bound on the calls of `++` left. */
  ghost function StopsLeft<T>(shape: seq<nat>, data: seq<Tree<T>>, index: seq<int>, t: Tree<T>, i: int): nat {
    StopsFrom(shape, t, i) + StopsOuter(shape, data, index)
  }

  // ----- One step -----

  lemma FromStep<T>(shape: seq<nat>, d: T, t: Tree<T>, i: int)
    requires t.Sub? && 0 <= i < |t.subs|
    ensures From(shape, d, t, i) == Flat(shape, d, t.subs[i]) + From(shape, d, t, i + 1)
    ensures StopsFrom(shape, t, i) == Stops(shape, t.subs[i]) + StopsFrom(shape, t, i + 1)
  {
    assert t.subs[i..][0] == t.subs[i] && t.subs[i..][1..] == t.subs[i + 1..];
    hide Flat, Room, Repeat, Stops;
    assert From(shape, d, t, i) == (Flat(shape, d, t.subs[i]) + FlatAll(shape, d, t.subs[i + 1..]))
        + Repeat(d, Room(shape, t));
  }

  lemma FromEnds<T>(shape: seq<nat>, d: T, t: Tree<T>)
    requires t.Sub? && t.begin <= |shape|
    ensures From(shape, d, t, |t.subs|) == Repeat(d, Room(shape, t))
    ensures StopsFrom(shape, t, |t.subs|) == if Room(shape, t) > 0 then 2 else 1
    ensures From(shape, d, t, 0) == Flat(shape, d, t) && Stops(shape, t) == 1 + StopsFrom(shape, t, 0)
    ensures forall i :: i < 0 || i > |t.subs| ==> From(shape, d, t, i) == [] && StopsFrom(shape, t, i) == 1
  {
    assert t.subs[|t.subs|..] == [] && t.subs[0..] == t.subs;
  }

  /** Where the iterator stops. */
  function StopAt<T>(shape: seq<nat>, d: T, t: Tree<T>, i: int): Stop<T>
    requires t.Sub?
  {
    if i < 0 then Ends
    else if i >= |t.subs| then Defaults(d, Room(shape, t))
    else if t.subs[i].Sub? then Begins
    else Value(if t.subs[i].v.Some? then t.subs[i].v.value else d)
  }

  lemma SubIsGood<T>(shape: seq<nat>, t: Tree<T>, i: nat)
    requires Good(shape, t) && t.Sub? && i < |t.subs|
    ensures Good(shape, t.subs[i]) && (t.subs[i].Sub? ==> t.subs[i].begin <= |shape|)
  {
    assert GoodSubs(shape, t.begin, t.subs);
  }

  /** A tensor can be entered at its first element. */
  lemma StartLevel<T>(shape: seq<nat>, t: Tree<T>)
    requires Positive(shape) && Good(shape, t) && t.Sub?
    ensures TopLevel(shape, t, 0) && t.begin <= |shape|
  {
    CapacityPositive(shape, t.begin);
  }

  lemma Pushed<T>(shape: seq<nat>, d: T, data: seq<Tree<T>>, index: seq<int>, t: Tree<T>, i: int)
    requires |data| == |index|
    ensures Outer(shape, d, data + [t], index + [i]) == From(shape, d, t, i + 1) + Outer(shape, d, data, index)
    ensures StopsOuter(shape, data + [t], index + [i]) == StopsFrom(shape, t, i + 1) + StopsOuter(shape, data, index)
    ensures Lower(shape, data, index, t) && Level(shape, t, i) ==> Lower(shape, data + [t], index + [i], t.subs[i])
  {
    assert (data + [t])[..|data|] == data && (index + [i])[..|index|] == index;
    hide From, StopsFrom, Level;
  }

  lemma LevelIs<T>(shape: seq<nat>, t: Tree<T>, i: int)
    ensures Level(shape, t, i) <==> t.Sub? && Good(shape, t) && 0 <= i < |t.subs|
    ensures TopLevel(shape, t, i) <==>
              t.Sub? && Good(shape, t) && -1 <= i <= |t.subs| && (i == |t.subs| ==> Room(shape, t) > 0)
    ensures t.Sub? && Good(shape, t) ==> t.begin <= |shape|
  {
  }

  lemma StackedIs<T>(shape: seq<nat>, data: seq<Tree<T>>, index: seq<int>, t: Tree<T>, i: int)
    ensures Stacked(shape, data, index, t, i) <==>
              TopLevel(shape, t, i) && (i == -1 ==> data != []) && Lower(shape, data, index, t)
    ensures Lower(shape, data, index, t) ==> |data| == |index|
  {
  }

  lemma RemainingIs<T>(shape: seq<nat>, d: T, data: seq<Tree<T>>, index: seq<int>, t: Tree<T>, i: int)
    ensures Remaining(shape, d, data, index, t, i) == From(shape, d, t, i) + Outer(shape, d, data, index)
    ensures StopsLeft(shape, data, index, t, i) == StopsFrom(shape, t, i) + StopsOuter(shape, data, index)
  {
  }

  /** What one call of `++` achieves: the stop is behind, and fewer are left. */
  ghost predicate Steps<T>(shape: seq<nat>, d: T, data: seq<Tree<T>>, index: seq<int>, t: Tree<T>, i: int,
                           data': seq<Tree<T>>, index': seq<int>, t': Tree<T>, i': int)
    requires t.Sub?
  {
    && Stacked(shape, data', index', t', i')
    && Remaining(shape, d, data, index, t, i) == Content(StopAt(shape, d, t, i))
        + Remaining(shape, d, data', index', t', i')
    && StopsLeft(shape, data', index', t', i') < StopsLeft(shape, data, index, t, i)
  }

  /** Entering a sub-tensor. */
  lemma StepIn<T>(shape: seq<nat>, d: T, data: seq<Tree<T>>, index: seq<int>, t: Tree<T>, i: int)
    requires Positive(shape) && Stacked(shape, data, index, t, i) && t.Sub? && 0 <= i < |t.subs| && t.subs[i].Sub?
    ensures Steps(shape, d, data, index, t, i, data + [t], index + [i], t.subs[i], 0)
  {
    hide *;
    var sub := t.subs[i];
    StackedIs(shape, data, index, t, i);
    LevelIs(shape, t, i);
    SubIsGood(shape, t, i);
    StartLevel(shape, sub);
    StackedIs(shape, data + [t], index + [i], sub, 0);
    Pushed(shape, d, data, index, t, i);
    RemainingIs(shape, d, data, index, t, i);
    RemainingIs(shape, d, data + [t], index + [i], sub, 0);
    FromStep(shape, d, t, i);
    FromEnds(shape, d, sub);
    BracketStep(shape, d, data, index, t, i, data + [t], index + [i], sub, 0);
  }

  lemma BracketStep<T>(shape: seq<nat>, d: T, data: seq<Tree<T>>, index: seq<int>, t: Tree<T>, i: int,
                       data': seq<Tree<T>>, index': seq<int>, t': Tree<T>, i': int)
    requires t.Sub? && (i < 0 || (i < |t.subs| && t.subs[i].Sub?)) && Stacked(shape, data', index', t', i')
    requires Remaining(shape, d, data, index, t, i) == Remaining(shape, d, data', index', t', i')
    requires StopsLeft(shape, data', index', t', i') < StopsLeft(shape, data, index, t, i)
    ensures Steps(shape, d, data, index, t, i, data', index', t', i')
  {
    hide Stacked, Remaining, StopsLeft;
    assert Content(Begins) + Remaining(shape, d, data', index', t', i') == Remaining(shape, d, data', index', t', i');
  }

  /** Going on to index `j` of the same tensor, or to its end. */
  lemma StepOn<T>(shape: seq<nat>, d: T, data: seq<Tree<T>>, index: seq<int>, t: Tree<T>, i: int, j: int)
    requires Positive(shape) && Stacked(shape, data, index, t, i) && t.Sub? && 0 <= i
             && (i < |t.subs| ==> t.subs[i].Scalar?)
    requires j == if i + 1 < |t.subs| || (i + 1 == |t.subs| && Room(shape, t) > 0) then i + 1 else -1
    requires j == -1 ==> data != []
    ensures Steps(shape, d, data, index, t, i, data, index, t, j)
  {
    hide Steps, Stacked, Remaining, StopsLeft, Good, From, Outer, StopsFrom, StopsOuter, Room, Lower;
    StackedIs(shape, data, index, t, i);
    StackedIs(shape, data, index, t, j);
    LevelIs(shape, t, i);
    ScalarStep(shape, d, t, i, j);
    StepWith(shape, d, data, index, t, i, j);
  }

  /** The same within one tensor. */
  lemma ScalarStep<T>(shape: seq<nat>, d: T, t: Tree<T>, i: int, j: int)
    requires t.Sub? && Good(shape, t) && 0 <= i <= |t.subs| && (i < |t.subs| ==> t.subs[i].Scalar?)
             && (i == |t.subs| ==> Room(shape, t) > 0)
    requires j == if i + 1 < |t.subs| || (i + 1 == |t.subs| && Room(shape, t) > 0) then i + 1 else -1
    ensures From(shape, d, t, i) == Content(StopAt(shape, d, t, i)) + From(shape, d, t, j)
    ensures StopsFrom(shape, t, j) < StopsFrom(shape, t, i)
  {
    FromEnds(shape, d, t);
    if i < |t.subs| {
      FromStep(shape, d, t, i);
    }
    hide From, StopsFrom, FlatAll, StopsAll, Repeat, Good;
    RepeatNone(d, Room(shape, t));
  }

  lemma RepeatNone<T>(d: T, n: nat)
    ensures n == 0 ==> Repeat(d, n) == []
  {
  }

  lemma StepWith<T>(shape: seq<nat>, d: T, data: seq<Tree<T>>, index: seq<int>, t: Tree<T>, i: int, j: int)
    requires t.Sub? && Stacked(shape, data, index, t, j)
    requires From(shape, d, t, i) == Content(StopAt(shape, d, t, i)) + From(shape, d, t, j)
    requires StopsFrom(shape, t, j) < StopsFrom(shape, t, i)
    ensures Steps(shape, d, data, index, t, i, data, index, t, j)
  {
    hide From, StopAt, Stacked, StopsFrom, StopsOuter, Outer, Content;
    var x, y, z := Content(StopAt(shape, d, t, i)), From(shape, d, t, j), Outer(shape, d, data, index);
    assert (x + y) + z == x + (y + z);
  }

  /** Leaving a sub-tensor for the level below, which goes on after it. */
  lemma StepOut<T>(shape: seq<nat>, d: T, data: seq<Tree<T>>, index: seq<int>, t: Tree<T>, j: int)
    requires Positive(shape) && Stacked(shape, data, index, t, -1) && t.Sub? && data != [] && |index| == |data|
    requires var n := |data| - 1;
             var u, k := data[n], index[n];
             && u.Sub?
             && j == (if (k + 1 == |u.subs| && Room(shape, u) == 0) || k + 1 > |u.subs| then -1 else k + 1)
                 && (j == -1 ==> n > 0)
    ensures var n := |data| - 1; Steps(shape, d, data, index, t, -1, data[..n], index[..n], data[n], j)
  {
    hide *;
    var n := |data| - 1;
    var u, k := data[n], index[n];
    StackedIs(shape, data, index, t, -1);
    LevelIs(shape, t, -1);
    LowerParts(shape, data, index, t);
    LevelIs(shape, u, k);
    LevelIs(shape, u, j);
    StackedIs(shape, data[..n], index[..n], u, j);
    assert data == data[..n] + [u] && index == index[..n] + [k];
    Pushed(shape, d, data[..n], index[..n], u, k);
    RemainingIs(shape, d, data, index, t, -1);
    RemainingIs(shape, d, data[..n], index[..n], u, j);
    FromEnds(shape, d, t);
    FromEnds(shape, d, u);
    RepeatNone(d, Room(shape, u));
    assert From(shape, d, t, -1) == [];
    assert [] + Outer(shape, d, data, index) == Outer(shape, d, data, index);
    BracketStep(shape, d, data, index, t, -1, data[..n], index[..n], u, j);
  }

  lemma LowerParts<T>(shape: seq<nat>, data: seq<Tree<T>>, index: seq<int>, t: Tree<T>)
    requires Lower(shape, data, index, t) && data != []
    ensures |data| == |index|
    ensures var n := |data| - 1; Level(shape, data[n], index[n]) && Lower(shape, data[..n], index[..n], data[n])
  {
  }

  /** The last stop: nothing is left after it. */
  lemma LastStep<T>(shape: seq<nat>, d: T, t: Tree<T>, i: int)
    requires Positive(shape) && Stacked(shape, [], [], t, i) && t.Sub? && 0 <= i && (i < |t.subs| ==> t.subs[i].Scalar?)
    requires !(i + 1 < |t.subs| || (i + 1 == |t.subs| && Room(shape, t) > 0))
    ensures Remaining(shape, d, [], [], t, i) == Content(StopAt(shape, d, t, i))
  {
    hide Good, From, StopsFrom, Room, Content, StopAt;
    LevelIs(shape, t, i);
    ScalarStep(shape, d, t, i, -1);
    FromEnds(shape, d, t);
  }

  /** Coming back from the last sub-tensor of the tensor as a whole. */
  lemma LastOut<T>(shape: seq<nat>, d: T, data: seq<Tree<T>>, index: seq<int>, t: Tree<T>)
    requires Positive(shape) && Stacked(shape, data, index, t, -1) && t.Sub? && |data| == |index| == 1
    requires var u, k := data[0], index[0]; u.Sub? && ((k + 1 == |u.subs| && Room(shape, u) == 0) || k + 1 > |u.subs|)
    ensures Remaining(shape, d, data, index, t, -1) == [] && StopAt(shape, d, t, -1) == Ends
  {
    hide *;
    var u, k := data[0], index[0];
    StackedIs(shape, data, index, t, -1);
    LevelIs(shape, t, -1);
    LowerParts(shape, data, index, t);
    LevelIs(shape, u, k);
    assert data == [] + [u] && index == [] + [k];
    Pushed(shape, d, [], [], u, k);
    RemainingIs(shape, d, data, index, t, -1);
    FromEnds(shape, d, t);
    FromEnds(shape, d, u);
    RepeatNone(d, Room(shape, u));
    NoOuter(shape, d);
    StopIs(shape, d, t);
    assert From(shape, d, t, -1) == [] && From(shape, d, u, k + 1) == [];
  }

  lemma NoOuter<T>(shape: seq<nat>, d: T)
    ensures Outer(shape, d, [], []) == []
  {
  }

  lemma StopIs<T>(shape: seq<nat>, d: T, t: Tree<T>)
    requires t.Sub?
    ensures StopAt(shape, d, t, -1) == Ends
  {
  }

  // ----- The iterator -----

  class Iterator<T(==)> {
    const shape: seq<nat>
    const defaultValue: T
    var data: seq<Tree<T>>
    var index: seq<int>
    var end: bool

    constructor (shape: seq<nat>, defaultValue: T, tensor: Tree<T>)
      requires Positive(shape) && Good(shape, tensor)
      ensures this.shape == shape && this.defaultValue == defaultValue
      ensures Valid() && !end && Rest() == Flat(shape, defaultValue, tensor)
    {
      this.shape, this.defaultValue := shape, defaultValue;
      data, index, end := [tensor], [0], false;
      new;
      if tensor.Sub? {
        StartLevel(shape, tensor);
        FromEnds(shape, defaultValue, tensor);
        assert data[..0] == [] && index[..0] == [];
      }
    }

    ghost predicate Valid()
      reads this
    {
      && Positive(shape)
      && (!end ==>
            && |data| == |index| > 0
            && (data[|data| - 1].Scalar? ==> |data| == 1)
            && (data[|data| - 1].Sub? ==> Stacked(shape, data[..|data| - 1], index[..|index| - 1], data[|data| - 1],
                index[|index| - 1])))
    }

    /** The elements the iterator has not passed yet. */
    ghost function Rest(): seq<T>
      requires Valid()
      reads this
    {
      if end then []
      else if data[|data| - 1].Scalar? then Flat(shape, defaultValue, data[|data| - 1])
      else Remaining(shape, defaultValue, data[..|data| - 1], index[..|index| - 1], data[|data| - 1],
          index[|index| - 1])
    }

    ghost function Current(): Stop<T>
      requires Valid() && !end
      reads this
    {
      if data[|data| - 1].Scalar? then Value(Flat(shape, defaultValue, data[|data| - 1])[0])
      else StopAt(shape, defaultValue, data[|data| - 1], index[|index| - 1])
    }

    ghost function Left(): nat
      requires Valid()
      reads this
    {
      if end then 0
      else if data[|data| - 1].Scalar? then 1
      else StopsLeft(shape, data[..|data| - 1], index[..|index| - 1], data[|data| - 1], index[|index| - 1])
    }

    method CurrentIterateType() returns (t: IterateType)
      requires Valid() && !end
      ensures t == VALUE <==> Current().Value?
      ensures t == DEFAULT_VALUES <==> Current().Defaults?
      ensures t == SUB_TENSOR_BEGIN <==> Current().Begins?
      ensures t == SUB_TENSOR_END <==> Current().Ends?
    {
      var top := data[|data| - 1];
      if top.Scalar? { return VALUE; }
      var idx := index[|index| - 1];
      LevelIs(shape, top, idx);
      if idx == -1 { return SUB_TENSOR_END; }
      if |top.subs| > idx {
        return if top.subs[idx].Scalar? then VALUE else SUB_TENSOR_BEGIN;
      }
      return DEFAULT_VALUES;
    }

    /** Fails unless the iterator is at a value. */
    method GetValue() returns (r: Option<T>)
      requires Valid()
      ensures r.Some? == (!end && Current().Value?) && (r.Some? ==> r.value == Current().x)
    {
      if end { return None; }
      var top := data[|data| - 1];
      if top.Scalar? { return Some(if top.v.Some? then top.v.value else defaultValue); }
      var idx := index[|index| - 1];
      LevelIs(shape, top, idx);
      if idx == -1 || |top.subs| <= idx || top.subs[idx].Sub? { return None; }
      var sub := top.subs[idx];
      return Some(if sub.v.Some? then sub.v.value else defaultValue);
    }

    /** Fails unless the iterator is at default values. */
    method GetDefaultValues() returns (r: Option<(T, nat)>)
      requires Valid()
      ensures r.Some? == (!end && Current().Defaults?)
      ensures r.Some? ==> Current() == Defaults(r.value.0, r.value.1)
    {
      if end { return None; }
      var top := data[|data| - 1];
      if top.Scalar? { return None; }
      var idx := index[|index| - 1];
      LevelIs(shape, top, idx);
      if idx == -1 || |top.subs| > idx { return None; }
      var all, taken := Capacity(shape, top.begin), top.size;
      RoomIs(shape, top);
      return Some((defaultValue, all - taken));
    }

    /** `operator++`. */
    method Next()
      requires Valid()
      modifies this
      ensures Valid()
      ensures old(end) ==> end && data == old(data) && index == old(index)
      ensures !old(end) ==> old(Rest()) == Content(old(Current())) + Rest() && Left() < old(Left())
    {
      hide *;
      TopIs(this);
      if end { return; }
      var top := data[|data| - 1];
      if top.Scalar? {
        end := true;
        Ended(this);
        return;
      }
      ghost var data0, index0 := data[..|data| - 1], index[..|index| - 1];
      var idx := index[|index| - 1];
      assert data == data0 + [top] && index == index0 + [idx];
      At(this, data0, index0, top, idx);
      if idx == -1 {
        Leave(top, data0, index0);
      } else if |top.subs| > idx && top.subs[idx].Sub? {
        var sub := top.subs[idx];
        StepIn(shape, defaultValue, data0, index0, top, idx);
        StepsIs(shape, defaultValue, data0, index0, top, idx, data, index, sub, 0);
        index := index + [0];
        data := data + [sub];
        At(this, data0 + [top], index0 + [idx], sub, 0);
      } else {
        GoOn(top, idx, data0, index0);
      }
    }

    /** The end of a sub-tensor: back to the level below. */
    method Leave(top: Tree<T>, ghost data0: seq<Tree<T>>, ghost index0: seq<int>)
      requires Valid() && !end && top.Sub? && data == data0 + [top] && index == index0 + [-1] && |data0| == |index0|
      modifies this
      ensures Valid() && old(Rest()) == Content(old(Current())) + Rest() && Left() < old(Left())
    {
      hide *;
      At(this, data0, index0, top, -1);
      StackedIs(shape, data0, index0, top, -1);
      LowerParts(shape, data0, index0, top);
      index := index[..|index| - 1];
      data := data[..|data| - 1];
      assert data == data0 && index == index0;
      var below, idx := data[|data| - 1], index[|index| - 1];
      LevelIs(shape, below, idx);
      RoomIs(shape, below);
      var size, taken, all := |below.subs|, below.size, Capacity(shape, below.begin);
      index := index[..|index| - 1];
      var done := (idx + 1 == size && all <= taken) || idx + 1 > size;
      if done && |index| == 0 {
        LastOut(shape, defaultValue, data0, index0, top);
        LeftPositive(shape, data0, index0, top, -1);
        ContentNone<T>(Ends);
        end := true;
        Ended(this);
        return;
      }
      ghost var j := if done then -1 else idx + 1;
      ghost var data1, index1 := data0[..|data0| - 1], index0[..|index0| - 1];
      StepOut(shape, defaultValue, data0, index0, top, j);
      StepsIs(shape, defaultValue, data0, index0, top, -1, data1, index1, below, j);
      if done {
        index := index + [-1];
      } else {
        index := index + [idx + 1];
      }
      assert data == data1 + [below] && index == index1 + [j];
      At(this, data1, index1, below, j);
    }

    /** After a value or a run of default values: the next index, the end of the sub-tensor, or the end. */
    method GoOn(top: Tree<T>, idx: int, ghost data0: seq<Tree<T>>, ghost index0: seq<int>)
      requires Valid() && !end && top.Sub? && data == data0 + [top] && index == index0 + [idx] && |data0| == |index0|
      requires 0 <= idx && (idx < |top.subs| ==> top.subs[idx].Scalar?)
      modifies this
      ensures Valid() && old(Rest()) == Content(old(Current())) + Rest() && Left() < old(Left())
    {
      hide *;
      At(this, data0, index0, top, idx);
      StackedIs(shape, data0, index0, top, idx);
      LevelIs(shape, top, idx);
      RoomIs(shape, top);
      index := index[..|index| - 1];
      assert index == index0;
      var size, taken, all := |top.subs|, top.size, Capacity(shape, top.begin);
      if idx + 1 < size || (idx + 1 == size && all > taken) {
        StepOn(shape, defaultValue, data0, index0, top, idx, idx + 1);
        StepsIs(shape, defaultValue, data0, index0, top, idx, data0, index0, top, idx + 1);
        index := index + [idx + 1];
        At(this, data0, index0, top, idx + 1);
      } else if |index| == 0 {
        assert data0 == [];
        LastStep(shape, defaultValue, top, idx);
        LeftPositive(shape, data0, index0, top, idx);
        end := true;
        Ended(this);
      } else {
        StepOn(shape, defaultValue, data0, index0, top, idx, -1);
        StepsIs(shape, defaultValue, data0, index0, top, idx, data0, index0, top, -1);
        index := index + [-1];
        At(this, data0, index0, top, -1);
      }
    }
  }

  /** The iterator inside a tensor, by the levels of its stacks. */
  lemma At<T>(it: Iterator<T>, data: seq<Tree<T>>, index: seq<int>, t: Tree<T>, i: int)
    requires Positive(it.shape) || it.Valid()
    requires !it.end && it.data == data + [t] && it.index == index + [i] && t.Sub?
    ensures it.Valid() <==> |data| == |index| && Stacked(it.shape, data, index, t, i)
    ensures it.Valid() ==>
              && Positive(it.shape)
              && it.Rest() == Remaining(it.shape, it.defaultValue, data, index, t, i)
              && it.Current() == StopAt(it.shape, it.defaultValue, t, i)
              && it.Left() == StopsLeft(it.shape, data, index, t, i)
  {
    assert it.data[..|it.data| - 1] == data && it.index[..|it.index| - 1] == index;
    StackedIs(it.shape, data, index, t, i);
    hide Stacked, Remaining, StopAt, StopsLeft;
  }

  lemma TopIs<T>(it: Iterator<T>)
    requires it.Valid()
    ensures Positive(it.shape)
    ensures !it.end ==>
              && |it.data| == |it.index| > 0
              && var t, i := it.data[|it.data| - 1], it.index[|it.index| - 1];
                 && (t.Sub? ==> -1 <= i <= |t.subs|)
                 && (t.Scalar? ==> it.Rest() == Content(it.Current()) + [] && it.Left() > 0)
  {
  }

  lemma Ended<T>(it: Iterator<T>)
    requires it.end && Positive(it.shape)
    ensures it.Valid() && it.Rest() == [] && it.Left() == 0
  {
  }

  lemma StepsIs<T>(shape: seq<nat>, d: T, data: seq<Tree<T>>, index: seq<int>, t: Tree<T>, i: int,
                   data': seq<Tree<T>>, index': seq<int>, t': Tree<T>, i': int)
    requires t.Sub?
    ensures Steps(shape, d, data, index, t, i, data', index', t', i') <==>
              && Stacked(shape, data', index', t', i')
              && Remaining(shape, d, data, index, t, i) == Content(StopAt(shape, d, t, i))
                  + Remaining(shape, d, data', index', t', i')
              && StopsLeft(shape, data', index', t', i') < StopsLeft(shape, data, index, t, i)
  {
  }

  lemma RoomIs<T>(shape: seq<nat>, t: Tree<T>)
    requires t.Sub? && Good(shape, t)
    ensures t.begin <= |shape| && t.size <= Capacity(shape, t.begin)
            && Room(shape, t) == Capacity(shape, t.begin) - t.size
  {
  }

  lemma LeftPositive<T>(shape: seq<nat>, data: seq<Tree<T>>, index: seq<int>, t: Tree<T>, i: int)
    ensures StopsLeft(shape, data, index, t, i) > 0
  {
  }

  lemma ContentNone<T>(s: Stop<T>)
    requires s.Begins? || s.Ends?
    ensures Content(s) == []
  {
  }
}
