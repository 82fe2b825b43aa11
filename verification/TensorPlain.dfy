/** Flattening a tensor into segments of values and of default values (`Tensor::toPlain`). */
module TensorPlain {
  import opened Tensor
  import opened TensorIterator

  datatype Segment<U> = Values(vs: seq<U>) | Blank(n: nat)

  function Expand<U>(d: U, segs: seq<Segment<U>>): seq<U> {
    if segs == [] then [] else Expand(d, segs[..|segs| - 1]) + ExpandOne(d, segs[|segs| - 1])
  }

  function ExpandOne<U>(d: U, g: Segment<U>): seq<U> {
    match g
    case Values(vs) => vs
    case Blank(n) => Repeat(d, n)
  }

  ghost predicate AllDefault<U>(d: U, s: seq<U>, i: nat, j: nat)
    requires i <= j <= |s|
  {
    forall k :: i <= k < j ==> s[k] == d
  }

  /** No run of default values in `s` is longer than `gate`. */
  ghost predicate RunsWithin<U>(d: U, s: seq<U>, gate: nat) {
    forall i, j :: 0 <= i <= j <= |s| && AllDefault(d, s, i, j) ==> j - i <= gate
  }

  ghost predicate SegmentOk<U>(d: U, g: Segment<U>, gate: nat) {
    match g
    case Values(vs) => vs != [] && RunsWithin(d, vs, gate)
    case Blank(n) => n > gate
  }

  /** Two neighbours: one holds values, the other default values, and the values next to the other one are no
      default values. */
  ghost predicate Neighbours<U>(d: U, g: Segment<U>, h: Segment<U>) {
    match g
    case Values(vs) => h.Blank? && vs != [] && vs[|vs| - 1] != d
    case Blank(_) => h.Values? && h.vs != [] && h.vs[0] != d
  }

  ghost predicate Canonical<U>(d: U, segs: seq<Segment<U>>, gate: nat) {
    && (forall i :: 0 <= i < |segs| ==> SegmentOk(d, segs[i], gate))
    && (forall i :: 0 <= i < |segs| - 1 ==> Neighbours(d, segs[i], segs[i + 1]))
  }

  function Map<T, U>(f: T -> U, s: seq<T>): (r: seq<U>)
    ensures |r| == |s| && forall i :: 0 <= i < |s| ==> r[i] == f(s[i])
  {
    seq(|s|, i requires 0 <= i < |s| => f(s[i]))
  }

  // ----- What the loop keeps -----

  function Pending<U>(v: Option<seq<U>>): seq<U> {
    if v.Some? then v.value else []
  }

  /** `segs` are done, `v` collects values, `len` default values have come since. */
  ghost predicate Collecting<U>(d: U, gate: nat, segs: seq<Segment<U>>, v: Option<seq<U>>, len: nat) {
    && Canonical(d, segs, gate)
    && (v.Some? ==>
          && v.value != [] && v.value[|v.value| - 1] != d && RunsWithin(d, v.value, gate) && len <= gate
          && (segs != [] ==> Neighbours(d, segs[|segs| - 1], Values(v.value)) && segs[|segs| - 1].Blank?))
    && (v.None? && segs != [] ==> segs[|segs| - 1].Values? && len > gate && Neighbours(d, segs[|segs| - 1], Blank(len)))
  }

  lemma ExpandMore<U>(d: U, segs: seq<Segment<U>>, g: Segment<U>)
    ensures Expand(d, segs + [g]) == Expand(d, segs) + ExpandOne(d, g)
  {
    assert (segs + [g])[..|segs + [g]| - 1] == segs;
  }

  lemma CanonicalMore<U>(d: U, segs: seq<Segment<U>>, gate: nat, g: Segment<U>)
    requires Canonical(d, segs, gate) && SegmentOk(d, g, gate) && (segs != [] ==> Neighbours(d, segs[|segs| - 1], g))
    ensures Canonical(d, segs + [g], gate)
  {
  }

  /** Default values and then another one: the run inside grows by no more than `len`. */
  lemma RunsMore<U>(d: U, s: seq<U>, gate: nat, len: nat, x: U)
    requires RunsWithin(d, s, gate) && (s != [] ==> s[|s| - 1] != d) && len <= gate && x != d
    ensures RunsWithin(d, s + Repeat(d, len) + [x], gate)
  {
    var t := s + Repeat(d, len) + [x];
    assert t[|t| - 1] == x && (s != [] ==> t[|s| - 1] != d);
    forall i, j | 0 <= i <= j <= |t| && AllDefault(d, t, i, j) ensures j - i <= gate {
      if j <= |s| {
        forall k | i <= k < j ensures s[k] == d { assert t[k] == s[k]; }
        assert AllDefault(d, s, i, j);
      }
    }
  }

  lemma RunsEnd<U>(d: U, s: seq<U>, gate: nat, len: nat)
    requires RunsWithin(d, s, gate) && (s != [] ==> s[|s| - 1] != d) && len <= gate
    ensures RunsWithin(d, s + Repeat(d, len), gate)
  {
    var t := s + Repeat(d, len);
    assert s != [] ==> t[|s| - 1] != d;
    forall i, j | 0 <= i <= j <= |t| && AllDefault(d, t, i, j) ensures j - i <= gate {
      if j <= |s| {
        forall k | i <= k < j ensures s[k] == d { assert t[k] == s[k]; }
        assert AllDefault(d, s, i, j);
      }
    }
  }

  lemma RepeatMore<U>(d: U, m: nat, n: nat)
    ensures Repeat(d, m) + Repeat(d, n) == Repeat(d, m + n) && Repeat(d, 1) == [d]
  {
  }

  /** `n` more default values: the values collected so far may be done. */
  lemma CollectDefaults<U>(d: U, gate: nat, segs: seq<Segment<U>>, v: Option<seq<U>>, len: nat, n: nat)
    requires Collecting(d, gate, segs, v, len)
    ensures var done := len + n > gate && v.Some?;
            && Collecting(d, gate, if done then segs + [Values(v.value)] else segs, if done then None else v, len + n)
            && Expand(d, if done then segs + [Values(v.value)] else segs) + Pending(if done then None else v)
                + Repeat(d, len + n) ==
               Expand(d, segs) + Pending(v) + Repeat(d, len) + Repeat(d, n)
  {
    RepeatMore(d, len, n);
    if len + n > gate && v.Some? {
      CanonicalMore(d, segs, gate, Values(v.value));
      ExpandMore(d, segs, Values(v.value));
    }
    hide Canonical, Repeat;
    assert Expand(d, segs) + Pending(v) + Repeat(d, len) + Repeat(d, n) == Expand(d, segs) + Pending(v)
        + Repeat(d, len + n);
  }

  /** The default values before a value become a segment. */
  lemma CollectCut<U>(d: U, gate: nat, segs: seq<Segment<U>>, v: Option<seq<U>>, len: nat, x: U)
    requires Collecting(d, gate, segs, v, len) && x != d && len > gate
    ensures v.None? && Collecting(d, gate, segs + [Blank(len)], Some([x]), 0)
    ensures Expand(d, segs + [Blank(len)]) == Expand(d, segs) + Repeat(d, len)
  {
    ExpandMore(d, segs, Blank(len));
    CanonicalMore(d, segs, gate, Blank(len));
    var none: seq<U> := [];
    assert RunsWithin(d, none, gate);
    RunsMore(d, none, gate, 0, x);
    assert none + Repeat(d, 0) + [x] == [x];
  }

  /** The default values before a value become part of the values. */
  lemma CollectUncut<U>(d: U, gate: nat, segs: seq<Segment<U>>, v: Option<seq<U>>, len: nat, x: U)
    requires Collecting(d, gate, segs, v, len) && x != d && len <= gate
    ensures var v' := Pending(v) + Repeat(d, len) + [x];
            Collecting(d, gate, segs, Some(v'), 0)
                && Expand(d, segs) + v' == Expand(d, segs) + Pending(v) + Repeat(d, len) + [x]
  {
    var s := Pending(v);
    assert RunsWithin(d, s, gate);
    RunsMore(d, s, gate, len, x);
    if s != [] { assert (s + Repeat(d, len) + [x])[0] == s[0]; }
    hide Expand, RunsWithin, Canonical;
    assert Expand(d, segs) + (s + Repeat(d, len) + [x]) == Expand(d, segs) + s + Repeat(d, len) + [x];
  }

  /** The default values left at the end become a segment. */
  lemma EndCut<U>(d: U, gate: nat, segs: seq<Segment<U>>, v: Option<seq<U>>, len: nat)
    requires Collecting(d, gate, segs, v, len) && len > gate
    ensures v.None? && Canonical(d, segs + [Blank(len)], gate)
            && Expand(d, segs + [Blank(len)]) == Expand(d, segs) + Repeat(d, len)
  {
    ExpandMore(d, segs, Blank(len));
    CanonicalMore(d, segs, gate, Blank(len));
  }

  /** The default values left at the end become part of the values. */
  lemma EndUncut<U>(d: U, gate: nat, segs: seq<Segment<U>>, v: Option<seq<U>>, len: nat)
    requires Collecting(d, gate, segs, v, len) && len <= gate && (v.Some? || len > 0)
    ensures var s := Pending(v) + Repeat(d, len);
            Canonical(d, segs + [Values(s)], gate) && Expand(d, segs + [Values(s)]) == Expand(d, segs) + s
  {
    var s := Pending(v) + Repeat(d, len);
    assert RunsWithin(d, Pending(v), gate);
    RunsEnd(d, Pending(v), gate, len);
    if v.Some? { assert s[0] == v.value[0]; }
    ExpandMore(d, segs, Values(s));
    CanonicalMore(d, segs, gate, Values(s));
  }

  /** Nothing is left at the end. */
  lemma EndNone<U>(d: U, gate: nat, segs: seq<Segment<U>>)
    requires Collecting(d, gate, segs, None, 0)
    ensures segs == [] && Canonical(d, segs, gate) && Expand(d, segs) == []
  {
  }

  // ----- toPlain -----

  /** What the segments and what is pending stand for. */
  ghost function SoFar<U>(d: U, segs: seq<Segment<U>>, v: Option<seq<U>>, len: nat): seq<U> {
    Expand(d, segs) + Pending(v) + Repeat(d, len)
  }

  /** What a stop of the iterator stands for after conversion. */
  ghost function Converted<T, U>(f: T -> U, s: Stop<T>): seq<U> {
    match s
    case Value(x) => [f(x)]
    case Defaults(x, n) => Repeat(f(x), n)
    case Begins => []
    case Ends => []
  }

  lemma MapParts<T, U>(f: T -> U, s: Stop<T>, rest: seq<T>)
    ensures Map(f, Content(s) + rest) == Converted(f, s) + Map(f, rest)
  {
  }

  /** A value of the tensor. */
  method TakeValue<U(==)>(d: U, gate: nat, segs0: seq<Segment<U>>, v0: Option<seq<U>>, len0: nat, trans: U)
    returns (segs: seq<Segment<U>>, v: Option<seq<U>>, len: nat)
    requires Collecting(d, gate, segs0, v0, len0)
    ensures Collecting(d, gate, segs, v, len) && SoFar(d, segs, v, len) == SoFar(d, segs0, v0, len0) + [trans]
  {
    segs, v, len := segs0, v0, len0;
    if trans == d {
      segs, v, len := TakeDefaults(d, gate, segs, v, len, 1);
      RepeatMore(d, 0, 1);
    } else {
      hide Canonical, Expand, Neighbours, RunsWithin, Collecting, Repeat;
      RepeatNone(d, 0);
      if len > gate {
        CollectCut(d, gate, segs, v, len, trans);
        segs := segs + [Blank(len)];
        len := 0;
        assert Pending(v) + Repeat(d, len) + [trans] == [trans];
      } else {
        CollectUncut(d, gate, segs, v, len, trans);
      }
      v := Some(Pending(v) + Repeat(d, len) + [trans]);
      len := 0;
    }
  }

  /** A run of default values of the tensor. */
  method TakeDefaults<U(==)>(d: U, gate: nat, segs0: seq<Segment<U>>, v0: Option<seq<U>>, len0: nat, n: nat)
    returns (segs: seq<Segment<U>>, v: Option<seq<U>>, len: nat)
    requires Collecting(d, gate, segs0, v0, len0)
    ensures Collecting(d, gate, segs, v, len) && SoFar(d, segs, v, len) == SoFar(d, segs0, v0, len0) + Repeat(d, n)
  {
    CollectDefaults(d, gate, segs0, v0, len0, n);
    hide Collecting, Expand, Repeat;
    segs, v, len := segs0, v0, len0 + n;
    if len > gate && v != None {
      segs := segs + [Values(v.value)];
      v := None;
    }
  }

  /** The end of the loop. */
  method Finish<U(==)>(d: U, gate: nat, segs0: seq<Segment<U>>, v0: Option<seq<U>>,
                       len: nat) returns (segs: seq<Segment<U>>)
    requires Collecting(d, gate, segs0, v0, len)
    ensures Canonical(d, segs, gate) && Expand(d, segs) == SoFar(d, segs0, v0, len)
  {
    hide Canonical, Expand, Collecting, Repeat;
    RepeatNone(d, len);
    segs := segs0;
    var v := v0;
    if len > gate {
      EndCut(d, gate, segs0, v0, len);
    } else if v0.Some? || len > 0 {
      EndUncut(d, gate, segs0, v0, len);
      assert Expand(d, segs0) + (Pending(v0) + Repeat(d, len)) == SoFar(d, segs0, v0, len);
    } else {
      EndNone(d, gate, segs0);
    }
    if len > 0 {
      if len > gate {
        segs := segs + [Blank(len)];
      } else {
        v := Some(Pending(v) + Repeat(d, len));
      }
    }
    if v != None {
      assert len == 0 ==> Pending(v0) + Repeat(d, len) == v.value;
      segs := segs + [Values(v.value)];
    }
  }

  /** Values converted by `func`, default values of the target type cut out where more than `gate` come in a row. */
  method ToPlain<T(==), U(==)>(shape: seq<nat>, defaultValue: T, tensor: Tree<T>, func: T -> U,
                               gate: nat) returns (segs: seq<Segment<U>>)
    requires Positive(shape) && Good(shape, tensor)
    ensures Expand(func(defaultValue), segs) == Map(func, Flat(shape, defaultValue, tensor))
    ensures Canonical(func(defaultValue), segs, gate)
  {
    var d := func(defaultValue);
    ghost var all := Map(func, Flat(shape, defaultValue, tensor));
    segs := [];
    var v: Option<seq<U>> := None;
    var len: nat := 0;
    var it := new Iterator(shape, defaultValue, tensor);
    assert Collecting(d, gate, segs, v, len) && SoFar(d, segs, v, len) + Map(func, it.Rest()) == all;
    hide *;
    while !it.end
      invariant fresh(it) && it.Valid() && it.defaultValue == defaultValue && Collecting(d, gate, segs, v, len)
      invariant SoFar(d, segs, v, len) + Map(func, it.Rest()) == all
      decreases it.Left()
    {
      segs, v, len := TakeStop(it, func, d, gate, segs, v, len);
    }
    RestEmpty(it, func);
    assert SoFar(d, segs, v, len) + [] == SoFar(d, segs, v, len);
    segs := Finish(d, gate, segs, v, len);
  }

  /** One round of the loop. */
  method TakeStop<T(==), U(==)>(it: Iterator<T>, func: T -> U, d: U, gate: nat, segs0: seq<Segment<U>>,
                                v0: Option<seq<U>>, len0: nat)
    returns (segs: seq<Segment<U>>, v: Option<seq<U>>, len: nat)
    requires it.Valid() && !it.end && d == func(it.defaultValue) && Collecting(d, gate, segs0, v0, len0)
    modifies it
    ensures it.Valid() && it.Left() < old(it.Left()) && Collecting(d, gate, segs, v, len)
    ensures SoFar(d, segs, v, len) + Map(func, it.Rest()) == SoFar(d, segs0, v0, len0) + Map(func, old(it.Rest()))
  {
    hide *;
    ghost var s, before := it.Current(), SoFar(d, segs0, v0, len0);
    segs, v, len := segs0, v0, len0;
    var kind := it.CurrentIterateType();
    if kind == VALUE {
      var value := it.GetValue();
      segs, v, len := TakeValue(d, gate, segs, v, len, func(value.value));
    } else if kind == DEFAULT_VALUES {
      var run := it.GetDefaultValues();
      DefaultsAre(it);
      segs, v, len := TakeDefaults(d, gate, segs, v, len, run.value.1);
    }
    ConvertedIs(func, s);
    assert SoFar(d, segs, v, len) == before + Converted(func, s);
    it.Next();
    MapParts(func, s, it.Rest());
    assert before + (Converted(func, s) + Map(func, it.Rest())) == before + Converted(func, s) + Map(func, it.Rest());
  }

  lemma ConvertedIs<T, U>(f: T -> U, s: Stop<T>)
    ensures s.Value? ==> Converted(f, s) == [f(s.x)]
    ensures s.Defaults? ==> Converted(f, s) == Repeat(f(s.x), s.n)
    ensures s.Begins? || s.Ends? ==> Converted(f, s) == []
  {
  }

  lemma RestEmpty<T, U>(it: Iterator<T>, f: T -> U)
    requires it.Valid() && it.end
    ensures Map(f, it.Rest()) == []
  {
  }

  lemma DefaultsAre<T>(it: Iterator<T>)
    requires it.Valid() && !it.end
    ensures it.Current().Defaults? ==> it.Current().x == it.defaultValue
  {
  }

  // ----- The segments are determined by the elements -----

  /** What the first segment says about the elements. */
  ghost predicate Opens<U>(d: U, g: Segment<U>, s: seq<U>, gate: nat) {
    var k := |ExpandOne(d, g)|;
    && SegmentOk(d, g, gate) && k <= |s| && s[..k] == ExpandOne(d, g)
    && (k < |s| ==>
          match g
          case Blank(_) => s[k] != d
          case Values(vs) => vs[k - 1] != d && k + gate + 1 <= |s| && AllDefault(d, s, k, k + gate + 1))
  }

  lemma {:induction false} ExpandFront<U>(d: U, segs: seq<Segment<U>>)
    requires segs != []
    ensures Expand(d, segs) == ExpandOne(d, segs[0]) + Expand(d, segs[1..])
  {
    hide *;
    var n := |segs| - 1;
    assert segs == segs[..n] + [segs[n]];
    ExpandMore(d, segs[..n], segs[n]);
    if n == 0 {
      assert segs[..n] == [] && segs[1..] == [];
      ExpandNone(d);
      assert [] + ExpandOne(d, segs[n]) == ExpandOne(d, segs[n]) + [];
    } else {
      ExpandFront(d, segs[..n]);
      assert segs[1..] == segs[..n][1..] + [segs[n]] && segs[..n][0] == segs[0];
      ExpandMore(d, segs[..n][1..], segs[n]);
      var a, b, c := ExpandOne(d, segs[0]), Expand(d, segs[..n][1..]), ExpandOne(d, segs[n]);
      assert (a + b) + c == a + (b + c);
    }
  }

  lemma ExpandNone<U>(d: U)
    ensures Expand<U>(d, []) == []
  {
  }

  lemma FirstOpens<U>(d: U, segs: seq<Segment<U>>, gate: nat)
    requires Canonical(d, segs, gate) && segs != []
    ensures Opens(d, segs[0], Expand(d, segs), gate) && Canonical(d, segs[1..], gate)
    ensures Expand(d, segs)[|ExpandOne(d, segs[0])|..] == Expand(d, segs[1..])
  {
    var g, s, rest := segs[0], Expand(d, segs), Expand(d, segs[1..]);
    assert SegmentOk(d, g, gate);
    if |segs| > 1 {
      assert segs[1..][0] == segs[1] && SegmentOk(d, segs[1], gate) && Neighbours(d, g, segs[1]);
    }
    assert Canonical(d, segs[1..], gate);
    hide *;
    ExpandFront(d, segs);
    if |segs| > 1 {
      ExpandFront(d, segs[1..]);
      NextOpens(d, g, segs[1], s, rest, Expand(d, segs[1..][1..]), gate);
    } else {
      assert segs[1..] == [];
      ExpandNone(d);
      LastOpens(d, g, s, gate);
    }
  }

  lemma LastOpens<U>(d: U, g: Segment<U>, s: seq<U>, gate: nat)
    requires s == ExpandOne(d, g) + [] && SegmentOk(d, g, gate)
    ensures Opens(d, g, s, gate) && s[|ExpandOne(d, g)|..] == []
  {
  }

  lemma NextOpens<U>(d: U, g: Segment<U>, h: Segment<U>, s: seq<U>, rest: seq<U>, more: seq<U>, gate: nat)
    requires s == ExpandOne(d, g) + rest && rest == ExpandOne(d, h) + more
    requires SegmentOk(d, g, gate) && SegmentOk(d, h, gate) && Neighbours(d, g, h)
    ensures Opens(d, g, s, gate) && s[|ExpandOne(d, g)|..] == rest
  {
    var k := |ExpandOne(d, g)|;
    assert forall i :: 0 <= i < |ExpandOne(d, h)| ==> s[k + i] == ExpandOne(d, h)[i];
    if g.Values? {
      forall i | k <= i < k + gate + 1 ensures s[i] == d { assert s[k + (i - k)] == ExpandOne(d, h)[i - k]; }
    } else {
      assert s[k + 0] == h.vs[0];
    }
  }

  /** The elements leave no choice for the first segment. */
  lemma SameOpening<U>(d: U, g: Segment<U>, h: Segment<U>, s: seq<U>, gate: nat)
    requires Opens(d, g, s, gate) && Opens(d, h, s, gate)
    ensures g == h
  {
    if g.Blank? && h.Blank? {
      BlankSame(d, g.n, h.n, s, gate);
      BlankSame(d, h.n, g.n, s, gate);
    } else if g.Values? && h.Values? {
      ValuesSame(d, g.vs, h.vs, s, gate);
      ValuesSame(d, h.vs, g.vs, s, gate);
    } else if g.Blank? {
      BlankNotValues(d, g.n, h.vs, s, gate);
    } else {
      BlankNotValues(d, h.n, g.vs, s, gate);
    }
  }

  lemma BlankSame<U>(d: U, m: nat, n: nat, s: seq<U>, gate: nat)
    requires Opens(d, Blank(m), s, gate) && Opens(d, Blank(n), s, gate)
    ensures n <= m
  {
    forall i | 0 <= i < n ensures s[i] == d { assert s[i] == s[..n][i]; }
  }

  lemma ValuesSame<U>(d: U, vs: seq<U>, ws: seq<U>, s: seq<U>, gate: nat)
    requires Opens(d, Values(vs), s, gate) && Opens(d, Values(ws), s, gate)
    ensures |ws| <= |vs|
  {
    assert ws[|ws| - 1] == s[|ws| - 1];
    if |vs| < |ws| {
      var k, e := |vs|, if |ws| < |vs| + gate + 1 then |ws| else |vs| + gate + 1;
      forall i | k <= i < e ensures ws[i] == d { assert ws[i] == s[i]; }
      assert AllDefault(d, ws, k, e);
    }
  }

  lemma BlankNotValues<U>(d: U, n: nat, vs: seq<U>, s: seq<U>, gate: nat)
    requires Opens(d, Blank(n), s, gate)
    ensures !Opens(d, Values(vs), s, gate)
  {
    if Opens(d, Values(vs), s, gate) {
      var e := if |vs| < gate + 1 then |vs| else gate + 1;
      forall i | 0 <= i < e ensures vs[i] == d { assert vs[i] == s[..n][i]; }
      assert AllDefault(d, vs, 0, e);
    }
  }

  lemma OpensSome<U>(d: U, g: Segment<U>, s: seq<U>, gate: nat)
    requires Opens(d, g, s, gate)
    ensures s != []
  {
  }

  /** Two canonical lists of segments with the same elements are the same list. */
  lemma {:induction false} CanonicalUnique<U>(d: U, xs: seq<Segment<U>>, ys: seq<Segment<U>>, gate: nat)
    requires Canonical(d, xs, gate) && Canonical(d, ys, gate) && Expand(d, xs) == Expand(d, ys)
    ensures xs == ys
    decreases |xs|
  {
    hide *;
    ExpandNone(d);
    if xs != [] && ys != [] {
      FirstOpens(d, xs, gate);
      FirstOpens(d, ys, gate);
      SameOpening(d, xs[0], ys[0], Expand(d, xs), gate);
      CanonicalUnique(d, xs[1..], ys[1..], gate);
      assert xs == [xs[0]] + xs[1..] && ys == [ys[0]] + ys[1..];
    } else if xs != [] {
      FirstOpens(d, xs, gate);
      OpensSome(d, xs[0], Expand(d, xs), gate);
    } else if ys != [] {
      FirstOpens(d, ys, gate);
      OpensSome(d, ys[0], Expand(d, ys), gate);
    }
  }
}
