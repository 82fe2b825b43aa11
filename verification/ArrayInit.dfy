/** The plan that initializes a local array: groups of four elements are cleared or copied as a whole, then
    expressions are stored one by one (`AST2IRVisitor::visit(ASTVarDecl*)`). */
module ArrayInit {
  import opened Tensor
  import opened TensorIterator

  /** An initializer: a constant, or an expression to be evaluated when the array is initialized. */
  datatype Elem = Const(c: int) | Expr(id: nat)

  const DEFAULT := Const(0)

  // ----- Groups -----

  /** `notDefault`: some element is no default value (0b01); `notExp`: some element is no expression (0b10). */
  datatype Kind = Kind(notDefault: bool, notExp: bool)

  const NONE := Kind(false, false)
  const CLEAR := Kind(false, true)
  const STORE := Kind(true, false)
  const COPY := Kind(true, true)

  function KindOf(e: Elem): Kind {
    if e.Expr? then STORE else if e != DEFAULT then COPY else CLEAR
  }

  function Or(a: Kind, b: Kind): Kind {
    Kind(a.notDefault || b.notDefault, a.notExp || b.notExp)
  }

  function KindOfAll(s: seq<Elem>): Kind {
    if s == [] then NONE else Or(KindOfAll(s[..|s| - 1]), KindOf(s[|s| - 1]))
  }

  /** What is copied for an element before its expression is stored. */
  function Cached(e: Elem): Elem {
    if e.Expr? then DEFAULT else e
  }

  function CachedAll(s: seq<Elem>): (r: seq<Elem>)
    ensures |r| == |s| && forall i :: 0 <= i < |s| ==> r[i] == Cached(s[i])
  {
    seq(|s|, i requires 0 <= i < |s| => Cached(s[i]))
  }

  /** The kinds of the complete groups of four. */
  function Kinds(s: seq<Elem>): (r: seq<Kind>)
    ensures |r| == |s| / 4
  {
    if |s| < 4 then [] else Kinds(s[..|s| - 4]) + [KindOfAll(s[|s| - 4..])]
  }

  /** The elements copied from the private global, group by group. */
  function Prefill(s: seq<Elem>): seq<Elem> {
    if |s| < 4 then []
    else Prefill(s[..|s| - 4]) + (if KindOfAll(s[|s| - 4..]) == COPY then CachedAll(s[|s| - 4..]) else [])
  }

  /** The kinds the segments stand for. */
  function Unfold(types: seq<Kind>, lens: seq<nat>): seq<Kind>
    requires |types| == |lens|
  {
    if types == [] then []
    else Unfold(types[..|types| - 1], lens[..|lens| - 1]) + Repeat(types[|types| - 1], lens[|lens| - 1])
  }

  lemma {:induction false} KindsIn(s: seq<Elem>, k: nat)
    requires k < |s|
    ensures KindOfAll(s) == STORE ==> s[k].Expr?
    ensures KindOfAll(s) == CLEAR ==> s[k] == DEFAULT
    ensures KindOfAll(s) != NONE
  {
    if k < |s| - 1 {
      KindsIn(s[..|s| - 1], k);
    } else if |s| > 1 {
      KindsIn(s[..|s| - 1], 0);
    }
  }

  /** A group is cleared if and only if it has default values only, left to stores if and only if it has expressions
      only, and copied otherwise. */
  lemma {:induction false} KindsExact(s: seq<Elem>)
    requires s != []
    ensures KindOfAll(s) == CLEAR <==> forall k :: 0 <= k < |s| ==> s[k] == DEFAULT
    ensures KindOfAll(s) == STORE <==> forall k :: 0 <= k < |s| ==> s[k].Expr?
    ensures KindOfAll(s) == COPY <==>
              (exists k :: 0 <= k < |s| && s[k] != DEFAULT) && (exists k :: 0 <= k < |s| && s[k].Const?)
  {
    var n := |s| - 1;
    assert forall k :: 0 <= k < n ==> s[..n][k] == s[k];
    if n > 0 { KindsExact(s[..n]); }
  }

  lemma {:induction false} DefaultsKind(s: seq<Elem>, n: nat)
    ensures KindOfAll(s + Repeat(DEFAULT, n)) == if n == 0 then KindOfAll(s) else Or(KindOfAll(s), CLEAR)
    ensures CachedAll(s + Repeat(DEFAULT, n)) == CachedAll(s) + Repeat(DEFAULT, n)
  {
    var t := s + Repeat(DEFAULT, n);
    if n == 0 {
      assert t == s;
    } else {
      RepeatLast(DEFAULT, n);
      assert t[..|t| - 1] == s + Repeat(DEFAULT, n - 1);
      DefaultsKind(s, n - 1);
    }
  }

  lemma {:induction false} RepeatLast<T>(x: T, n: nat)
    requires n > 0
    ensures Repeat(x, n) == Repeat(x, n - 1) + [x]
  {
    if n > 1 { RepeatLast(x, n - 1); }
  }

  lemma KindsMore(s: seq<Elem>, g: seq<Elem>)
    requires |s| % 4 == 0 && |g| == 4
    ensures Kinds(s + g) == Kinds(s) + [KindOfAll(g)]
    ensures Prefill(s + g) == Prefill(s) + (if KindOfAll(g) == COPY then CachedAll(g) else [])
  {
    var t := s + g;
    assert t[..|t| - 4] == s && t[|t| - 4..] == g;
  }

  /** Whole groups of default values. */
  lemma {:induction false} KindsDefaults(s: seq<Elem>, n: nat)
    requires |s| % 4 == 0
    ensures Kinds(s + Repeat(DEFAULT, 4 * n)) == Kinds(s) + Repeat(CLEAR, n)
    ensures Prefill(s + Repeat(DEFAULT, 4 * n)) == Prefill(s)
  {
    hide *;
    NoDefaults(n);
    if n == 0 {
      assert s + Repeat(DEFAULT, 4 * n) == s;
      assert Kinds(s) + Repeat(CLEAR, n) == Kinds(s);
    } else {
      var m := 4 * (n - 1);
      KindsDefaults(s, n - 1);
      RepeatSum(DEFAULT, m, 4);
      assert s + Repeat(DEFAULT, 4 * n) == (s + Repeat(DEFAULT, m)) + Repeat(DEFAULT, 4);
      KindsMore(s + Repeat(DEFAULT, m), Repeat(DEFAULT, 4));
      FourDefaults();
      RepeatLast(CLEAR, n);
      assert Kinds(s) + (Repeat(CLEAR, n - 1) + [CLEAR]) == Kinds(s) + Repeat(CLEAR, n - 1) + [CLEAR];
      assert Prefill(s) + [] == Prefill(s);
    }
  }

  lemma FourDefaults()
    ensures KindOfAll(Repeat(DEFAULT, 4)) == CLEAR != COPY
  {
    DefaultsKind([], 4);
    assert [] + Repeat(DEFAULT, 4) == Repeat(DEFAULT, 4);
  }

  lemma NoDefaults(n: nat)
    ensures n == 0 ==> Repeat(DEFAULT, 4 * n) == [] && Repeat(CLEAR, n) == [] && Repeat(DEFAULT, n) == []
  {
  }

  // ----- Collecting segments -----

  lemma UnfoldMore(types: seq<Kind>, lens: seq<nat>, k: Kind, n: nat)
    requires |types| == |lens|
    ensures Unfold(types + [k], lens + [n]) == Unfold(types, lens) + Repeat(k, n)
  {
    assert (types + [k])[..|types|] == types && (lens + [n])[..|lens|] == lens;
  }

  lemma UnfoldLonger(types: seq<Kind>, lens: seq<nat>, n: nat)
    requires |types| == |lens| > 0
    ensures Unfold(types, lens[|lens| - 1 := lens[|lens| - 1] + n]) == Unfold(types, lens)
            + Repeat(types[|types| - 1], n)
  {
    var m := |lens| - 1;
    assert lens[m := lens[m] + n][..m] == lens[..m];
    RepeatSum(types[m], lens[m], n);
  }

  lemma {:induction false} RepeatSum<T>(x: T, m: nat, n: nat)
    ensures Repeat(x, m + n) == Repeat(x, m) + Repeat(x, n)
  {
    assert forall i :: 0 <= i < m + n ==> Repeat(x, m + n)[i] == (Repeat(x, m) + Repeat(x, n))[i];
  }

  ghost predicate NoneEmpty(lens: seq<nat>) {
    forall i :: 0 <= i < |lens| ==> lens[i] > 0
  }

  /** `n` more groups of kind `k`: a longer last segment, or a new one. */
  method AddSegment(types0: seq<Kind>, lens0: seq<nat>, k: Kind, n: nat) returns (types: seq<Kind>, lens: seq<nat>)
    requires |types0| == |lens0| && n > 0 && NoneEmpty(lens0)
    ensures |types| == |lens| && NoneEmpty(lens) && Unfold(types, lens) == Unfold(types0, lens0) + Repeat(k, n)
  {
    if types0 == [] || types0[|types0| - 1] != k {
      types, lens := types0 + [k], lens0 + [n];
      UnfoldMore(types0, lens0, k, n);
    } else {
      types, lens := types0, lens0[|lens0| - 1 := lens0[|lens0| - 1] + n];
      UnfoldLonger(types0, lens0, n);
    }
  }

  class Planner {
    var segmentOpTypes: seq<Kind>
    var segmentLength: seq<nat>
    var prefill: seq<Elem>
    const prefill_cache: array<Elem>
    var seg_type: Kind
    var fill: nat
    /** The elements in complete groups, and those of the group being filled. */
    ghost var done: seq<Elem>
    ghost var part: seq<Elem>

    constructor ()
      ensures Valid() && done + part == [] && fresh(prefill_cache)
    {
      segmentOpTypes, segmentLength, prefill, seg_type, fill := [], [], [], NONE, 0;
      prefill_cache := new Elem[4](_ => DEFAULT);
      done, part := [], [];
    }

    ghost predicate Valid()
      reads this, prefill_cache
    {
      && Grouped(segmentOpTypes, segmentLength, prefill, done)
      && prefill_cache.Length == 4 && fill < 4 && Filling(part, fill, seg_type, prefill_cache[..fill])
    }

    /** A group of four is complete. */
    method FinishGroup()
      requires prefill_cache.Length == 4 && Grouped(segmentOpTypes, segmentLength, prefill, done)
      requires Filling(part, 4, seg_type, prefill_cache[..])
      modifies this
      ensures Grouped(segmentOpTypes, segmentLength, prefill, done) && done == old(done) + old(part)
      ensures part == [] && seg_type == NONE && fill == old(fill)
    {
      hide Kinds, Prefill, Unfold, KindOfAll, CachedAll, Repeat;
      KindsMore(done, part);
      RepeatOne(seg_type);
      segmentOpTypes, segmentLength := AddSegment(segmentOpTypes, segmentLength, seg_type, 1);
      if seg_type == COPY {
        prefill := prefill + prefill_cache[..];
      }
      seg_type := NONE;
      done, part := done + part, [];
    }

    method TakeValue(v: Elem)
      requires Valid()
      modifies this, prefill_cache
      ensures Valid() && done + part == old(done) + old(part) + [v]
    {
      hide Grouped, Filling;
      FillingMore(part, fill, seg_type, prefill_cache[..fill], v);
      ghost var cached := prefill_cache[..fill] + [Cached(v)];
      if v.Expr? {
        seg_type := Or(seg_type, STORE);
        prefill_cache[fill] := DEFAULT;
      } else {
        seg_type := Or(seg_type, CLEAR);
        if v != DEFAULT {
          seg_type := Or(seg_type, STORE);
          prefill_cache[fill] := v;
        } else {
          prefill_cache[fill] := DEFAULT;
        }
      }
      fill := fill + 1;
      part := part + [v];
      assert prefill_cache[..fill] == cached;
      assert done + part == old(done) + old(part) + [v];
      if fill == 4 {
        assert prefill_cache[..] == prefill_cache[..4];
        FinishGroup();
        fill := 0;
        FillingNone();
        assert done + [] == done && prefill_cache[..0] == [];
      }
    }

    /** The default values that go into the group being filled. */
    method FillCache(lim: nat)
      requires fill <= lim <= 4 == prefill_cache.Length
      modifies prefill_cache
      ensures prefill_cache[..lim] == old(prefill_cache[..fill]) + Repeat(DEFAULT, lim - fill)
    {
      for p := fill to lim
        invariant prefill_cache[..fill] == old(prefill_cache[..fill])
        invariant forall k :: fill <= k < p ==> prefill_cache[k] == DEFAULT
      {
        prefill_cache[p] := DEFAULT;
      }
      assert prefill_cache[..lim] == prefill_cache[..fill] + prefill_cache[fill..lim];
    }

    method TakeDefaults(l: nat)
      requires Valid() && l > 0
      modifies this, prefill_cache
      ensures Valid() && done + part == old(done) + old(part) + Repeat(DEFAULT, l)
    {
      hide Grouped, Filling, Repeat;
      var lim := if fill + l < 4 then fill + l else 4;
      ghost var n := lim - fill;
      FillingDefaults(part, fill, seg_type, prefill_cache[..fill], n);
      RepeatSum(DEFAULT, n, l - n);
      NoDefaults(l - n);
      FillCache(lim);
      ghost var part1 := part + Repeat(DEFAULT, n);
      assert done + part + (Repeat(DEFAULT, n) + Repeat(DEFAULT, l - n)) == done + part1 + Repeat(DEFAULT, l - n);
      seg_type := Or(seg_type, CLEAR);
      fill := fill + l;
      part := part1;
      if fill < 4 {
        assert done + part1 + [] == done + part1;
        return;
      }
      assert prefill_cache[..] == prefill_cache[..4];
      FinishGroup();
      fill := fill - 4;
      Whole();
    }

    /** What is left of a run of default values once a group is complete: whole groups, then the next one. */
    method Whole()
      requires prefill_cache.Length == 4 && Grouped(segmentOpTypes, segmentLength, prefill, done) && part == []
               && seg_type == NONE
      modifies this, prefill_cache
      ensures Valid() && done + part == old(done) + Repeat(DEFAULT, old(fill))
    {
      hide Grouped, Filling, Repeat;
      var len := fill / 4;
      fill := fill % 4;
      GroupedDefaults(segmentOpTypes, segmentLength, prefill, done, len);
      RepeatSum(DEFAULT, 4 * len, fill);
      assert done + (Repeat(DEFAULT, 4 * len) + Repeat(DEFAULT, fill)) == done + Repeat(DEFAULT, 4 * len)
          + Repeat(DEFAULT, fill);
      if len > 0 {
        GroupedLengths(segmentOpTypes, segmentLength, prefill, done);
        segmentOpTypes, segmentLength := AddSegment(segmentOpTypes, segmentLength, CLEAR, len);
      }
      done, part := done + Repeat(DEFAULT, 4 * len), Repeat(DEFAULT, fill);
      OnlyDefaults(fill);
      if fill > 0 {
        seg_type := Or(seg_type, CLEAR);
        ClearCache();
      }
    }

    method ClearCache()
      requires fill <= 4 == prefill_cache.Length
      modifies prefill_cache
      ensures prefill_cache[..fill] == Repeat(DEFAULT, fill)
    {
      for p := 0 to fill
        invariant prefill_cache[..p] == Repeat(DEFAULT, p)
      {
        prefill_cache[p] := DEFAULT;
        RepeatLast(DEFAULT, p + 1);
        assert prefill_cache[..p + 1] == prefill_cache[..p] + [DEFAULT];
      }
    }
  }

  /** The segments and the copied elements stand for the complete groups. */
  ghost predicate Grouped(types: seq<Kind>, lens: seq<nat>, prefill: seq<Elem>, done: seq<Elem>) {
    |types| == |lens| && NoneEmpty(lens) && |done| % 4 == 0 && Unfold(types, lens) == Kinds(done)
        && prefill == Prefill(done)
  }

  /** The kind and the cache stand for the group being filled. */
  ghost predicate Filling(part: seq<Elem>, fill: nat, k: Kind, cached: seq<Elem>) {
    |part| == fill && k == KindOfAll(part) && cached == CachedAll(part)
  }

  lemma FillingNone()
    ensures Filling([], 0, NONE, [])
  {
  }

  lemma FillingMore(part: seq<Elem>, fill: nat, k: Kind, cached: seq<Elem>, v: Elem)
    requires Filling(part, fill, k, cached)
    ensures Filling(part + [v], fill + 1, Or(k, KindOf(v)), cached + [Cached(v)])
  {
    assert (part + [v])[..fill] == part;
    assert CachedAll(part + [v]) == CachedAll(part) + [Cached(v)];
  }

  lemma FillingDefaults(part: seq<Elem>, fill: nat, k: Kind, cached: seq<Elem>, n: nat)
    requires Filling(part, fill, k, cached)
    ensures n > 0 ==> Filling(part + Repeat(DEFAULT, n), fill + n, Or(k, CLEAR), cached + Repeat(DEFAULT, n))
  {
    DefaultsKind(part, n);
  }

  lemma OnlyDefaults(n: nat)
    ensures Filling(Repeat(DEFAULT, n), n, if n > 0 then Or(NONE, CLEAR) else NONE, Repeat(DEFAULT, n))
    ensures n == 0 ==> Repeat(DEFAULT, n) == []
  {
    DefaultsKind([], n);
    assert [] + Repeat(DEFAULT, n) == Repeat(DEFAULT, n) == CachedAll([]) + Repeat(DEFAULT, n);
  }

  lemma GroupedLengths(types: seq<Kind>, lens: seq<nat>, prefill: seq<Elem>, done: seq<Elem>)
    requires Grouped(types, lens, prefill, done)
    ensures |types| == |lens| && NoneEmpty(lens)
  {
  }

  /** Whole groups of default values are one more segment to clear. */
  lemma GroupedDefaults(types: seq<Kind>, lens: seq<nat>, prefill: seq<Elem>, done: seq<Elem>, n: nat)
    requires Grouped(types, lens, prefill, done)
    ensures n == 0 ==> Grouped(types, lens, prefill, done + Repeat(DEFAULT, 4 * n))
    ensures |types| == |lens|
    ensures forall types', lens' ::
              |types'| == |lens'| && NoneEmpty(lens') && Unfold(types', lens') == Unfold(types, lens) + Repeat(CLEAR, n)
              ==> Grouped(types', lens', prefill, done + Repeat(DEFAULT, 4 * n))
  {
    KindsDefaults(done, n);
    hide Kinds, Prefill, Unfold;
    NoDefaults(n);
    if n == 0 {
      assert done + [] == done;
    }
  }

  lemma RepeatOne(k: Kind)
    ensures Repeat(k, 1) == [k]
  {
  }
}
