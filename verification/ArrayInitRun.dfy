/** Running the plan of an array initialization: from any prior memory it leaves what storing the elements one
    after the other would leave, and evaluates the same expressions in the same order. */
module ArrayInitRun {
  import opened Tensor
  import opened TensorIterator
  import opened ArrayInit

  // ----- What the emitted instructions do -----

  /** Four bytes an element; `at` is a list of indices with a leading zero, as for an address computation. */
  datatype Action = Clear(at: seq<int>, bytes: nat) | Copy(from: nat, at: seq<int>, bytes: nat) | Store(at: seq<int>,
      what: Elem)

  /** Evaluating an expression gives a value and changes the rest of the machine. */
  type Eval<!S> = (nat, S) -> (int, S)

  /** The element a list of indices addresses. */
  function Address(shape: seq<nat>, at: seq<int>): int {
    if |at| == |shape| + 1 then at[0] * Capacity(shape, 0) + Position(shape, 0, at[1..]) else -1
  }

  function ValueOf(e: Elem): int {
    if e.Const? then e.c else 0
  }

  function Splice<T>(s: seq<T>, p: nat, t: seq<T>): seq<T>
    requires p + |t| <= |s|
  {
    s[..p] + t + s[p + |t|..]
  }

  function Zeros(n: nat): (r: seq<int>)
    ensures |r| == n && forall i :: 0 <= i < n ==> r[i] == 0
  {
    Repeat(0, n)
  }

  function ValuesOf(s: seq<Elem>): (r: seq<int>)
    ensures |r| == |s| && forall i :: 0 <= i < |s| ==> r[i] == ValueOf(s[i])
  {
    seq(|s|, i requires 0 <= i < |s| => ValueOf(s[i]))
  }

  /** Nothing when memory outside of the array or of the copied global would be touched, or part of an element. */
  function Do<S>(shape: seq<nat>, glob: seq<Elem>, ev: Eval<S>, a: Action, cells: seq<int>, st: S): Option<(seq<int>,
      S)> {
    var p := Address(shape, a.at);
    match a
    case Clear(_, bytes) =>
      if 0 <= p && bytes % 4 == 0 && p + bytes / 4 <= |cells| then Some((Splice(cells, p, Zeros(bytes / 4)), st))
          else None
    case Copy(from, _, bytes) =>
      if 0 <= p && bytes % 4 == 0 && p + bytes / 4 <= |cells| && from + bytes / 4 <= |glob| then
        Some((Splice(cells, p, ValuesOf(glob[from..from + bytes / 4])), st))
      else None
    case Store(_, Const(c)) => if 0 <= p < |cells| then Some((cells[p := c], st)) else None
    case Store(_, Expr(id)) =>
      var (v, st') := ev(id, st);
      if 0 <= p < |cells| then Some((cells[p := v], st')) else None
  }

  function Exec<S>(shape: seq<nat>, glob: seq<Elem>, ev: Eval<S>, actions: seq<Action>, cells: seq<int>,
                   st: S): Option<(seq<int>, S)> {
    if actions == [] then Some((cells, st))
    else
      var r := Exec(shape, glob, ev, actions[..|actions| - 1], cells, st);
      if r.Some? then Do(shape, glob, ev, actions[|actions| - 1], r.value.0, r.value.1) else None
  }

  // ----- What initialization means -----

  /** The first `n` elements in order: their values, and the machine after evaluating the expressions among them. */
  function Evaluated<S>(elems: seq<Elem>, n: nat, ev: Eval<S>, st: S): (r: (seq<int>, S))
    requires n <= |elems|
    ensures |r.0| == n
  {
    if n == 0 then ([], st)
    else
      var (vs, st1) := Evaluated(elems, n - 1, ev, st);
      match elems[n - 1]
      case Const(c) => (vs + [c], st1)
      case Expr(id) =>
        var (v, st2) := ev(id, st1);
        (vs + [v], st2)
  }

  // ----- Groups and segments -----

  lemma {:induction false} KindsAt(s: seq<Elem>, g: nat)
    requires |s| % 4 == 0 && g < |s| / 4
    ensures 4 * g + 4 <= |s| && Kinds(s)[g] == KindOfAll(s[4 * g..4 * g + 4])
    decreases |s|
  {
    if g < |s| / 4 - 1 {
      KindsAt(s[..|s| - 4], g);
      assert s[..|s| - 4][4 * g..4 * g + 4] == s[4 * g..4 * g + 4];
    } else {
      assert s[|s| - 4..] == s[4 * g..4 * g + 4];
    }
  }

  /** How many groups come before the `i`th segment. */
  ghost function Groups(types: seq<Kind>, lens: seq<nat>, i: nat): nat
    requires |types| == |lens| && i <= |types|
  {
    |Unfold(types[..i], lens[..i])|
  }

  lemma {:induction false} UnfoldAt(types: seq<Kind>, lens: seq<nat>, i: nat)
    requires |types| == |lens| && i < |types|
    ensures Groups(types, lens, i + 1) == Groups(types, lens, i) + lens[i] <= |Unfold(types, lens)|
    ensures forall j ::
              Groups(types, lens, i) <= j < Groups(types, lens, i) + lens[i] ==> Unfold(types, lens)[j] == types[i]
    decreases |types|
  {
    var n := |types| - 1;
    assert types[..i + 1][..i] == types[..i] && lens[..i + 1][..i] == lens[..i];
    if i < n {
      UnfoldAt(types[..n], lens[..n], i);
      assert types[..n][..i] == types[..i] && lens[..n][..i] == lens[..i];
      assert types[..n][..i + 1] == types[..i + 1] && lens[..n][..i + 1] == lens[..i + 1];
    } else {
      assert types[..i + 1] == types && lens[..i + 1] == lens;
    }
  }

  lemma GroupsEnds(types: seq<Kind>, lens: seq<nat>)
    requires |types| == |lens|
    ensures Groups(types, lens, 0) == 0 && Groups(types, lens, |types|) == |Unfold(types, lens)|
  {
    assert types[..|types|] == types && lens[..|lens|] == lens;
  }

  /** Position `k` lies in a complete group of kind `kind`. */
  ghost predicate InGroup(done: seq<Elem>, k: nat, kind: Kind)
    requires |done| % 4 == 0
  {
    k < |done| && k / 4 < |Kinds(done)| && Kinds(done)[k / 4] == kind
  }

  lemma InGroupIs(done: seq<Elem>, k: nat, kind: Kind)
    requires |done| % 4 == 0 && InGroup(done, k, kind)
    ensures kind == STORE ==> done[k].Expr?
    ensures kind == CLEAR ==> done[k] == DEFAULT
  {
    var g := k / 4;
    KindsAt(done, g);
    KindsIn(done[4 * g..4 * g + 4], k % 4);
    assert done[4 * g..4 * g + 4][k % 4] == done[k];
  }

  lemma {:induction false} PrefillPrefix(s: seq<Elem>, n: nat)
    requires |s| % 4 == 0 && 4 * n <= |s|
    ensures Prefill(s[..4 * n]) <= Prefill(s)
    decreases |s|
  {
    if 4 * n < |s| {
      PrefillPrefix(s[..|s| - 4], n);
      assert s[..|s| - 4][..4 * n] == s[..4 * n];
    } else {
      assert s[..4 * n] == s;
    }
  }

  /** The copied elements of whole groups of kind COPY. */
  lemma {:induction false} PrefillCopied(s: seq<Elem>, g: nat, n: nat)
    requires |s| % 4 == 0 && g + n <= |s| / 4 && forall j :: g <= j < g + n ==> Kinds(s)[j] == COPY
    ensures 4 * (g + n) <= |s| && Prefill(s[..4 * (g + n)]) == Prefill(s[..4 * g]) + CachedAll(s[4 * g..4 * (g + n)])
  {
    hide *;
    CachedSplit(s, 4 * g, 4 * (if n == 0 then g else g + n - 1), 4 * (g + n));
    if n == 0 {
      assert Prefill(s[..4 * g]) + [] == Prefill(s[..4 * g]);
    } else {
      PrefillCopied(s, g, n - 1);
      GroupMore(s, g + n - 1);
      var m := 4 * (g + n - 1);
      var x, y, z := Prefill(s[..4 * g]), CachedAll(s[4 * g..m]), CachedAll(s[m..m + 4]);
      assert (x + y) + z == x + (y + z);
    }
  }

  lemma CachedSplit(s: seq<Elem>, a: nat, b: nat, c: nat)
    requires a <= b <= c
    ensures c <= |s| ==>
              CachedAll(s[a..c]) == CachedAll(s[a..b]) + CachedAll(s[b..c]) && (a == c ==> CachedAll(s[a..c]) == [])
  {
  }

  lemma GroupMore(s: seq<Elem>, g: nat)
    requires |s| % 4 == 0 && g < |s| / 4
    ensures Prefill(s[..4 * g + 4]) == Prefill(s[..4 * g]) + (if Kinds(s)[g] == COPY
              then CachedAll(s[4 * g..4 * g + 4]) else [])
  {
    hide *;
    KindsAt(s, g);
    KindsMore(s[..4 * g], s[4 * g..4 * g + 4]);
    assert s[..4 * g] + s[4 * g..4 * g + 4] == s[..4 * g + 4];
  }

  lemma {:induction false} PrefillUncopied(s: seq<Elem>, g: nat, n: nat, kind: Kind)
    requires |s| % 4 == 0 && g + n <= |s| / 4 && kind != COPY && forall j :: g <= j < g + n ==> Kinds(s)[j] == kind
    ensures 4 * (g + n) <= |s| && Prefill(s[..4 * (g + n)]) == Prefill(s[..4 * g])
  {
    hide Kinds, Prefill, KindOfAll;
    if n > 0 {
      PrefillUncopied(s, g, n - 1, kind);
      GroupMore(s, g + n - 1);
      assert Prefill(s[..4 * (g + n - 1)]) + [] == Prefill(s[..4 * (g + n - 1)]);
    }
  }

  // ----- Collecting the plan -----

  /** The loop over the initializer. */
  method Collect(shape: seq<nat>, tensor: Tree<Elem>) returns (pl: Planner)
    requires Positive(shape) && Good(shape, tensor)
    ensures pl.Valid() && pl.done + pl.part == Flat(shape, DEFAULT, tensor) && fresh(pl) && fresh(pl.prefill_cache)
  {
    pl := new Planner();
    var it := new Iterator(shape, DEFAULT, tensor);
    ghost var all := Flat(shape, DEFAULT, tensor);
    hide *;
    while !it.end
      invariant it.Valid() && pl.Valid() && fresh(it) && fresh(pl) && fresh(pl.prefill_cache)
                && it.defaultValue == DEFAULT
      invariant pl.done + pl.part + it.Rest() == all
      decreases it.Left()
    {
      CollectStop(pl, it);
    }
    NothingLeft(it);
    assert pl.done + pl.part + [] == pl.done + pl.part;
  }

  /** One round of the loop. */
  method CollectStop(pl: Planner, it: Iterator<Elem>)
    requires it.Valid() && pl.Valid() && !it.end && it.defaultValue == DEFAULT
    modifies pl, pl.prefill_cache, it
    ensures it.Valid() && pl.Valid() && it.Left() < old(it.Left())
    ensures pl.done + pl.part + it.Rest() == old(pl.done + pl.part + it.Rest())
  {
    hide *;
    ghost var s, before, rest := it.Current(), pl.done + pl.part, it.Rest();
    var kind := it.CurrentIterateType();
    if kind == VALUE {
      var v := it.GetValue();
      pl.TakeValue(v.value);
    } else if kind == DEFAULT_VALUES {
      var run := it.GetDefaultValues();
      StopDefaults(it);
      pl.TakeDefaults(run.value.1);
    }
    ContentIs(s);
    assert pl.done + pl.part == before + Content(s);
    it.Next();
    assert rest == Content(s) + it.Rest();
    assert before + (Content(s) + it.Rest()) == before + Content(s) + it.Rest();
  }

  lemma StopDefaults(it: Iterator<Elem>)
    requires it.Valid() && !it.end
    ensures it.Current().Defaults? ==> it.Current().x == it.defaultValue && it.Current().n > 0
  {
  }

  lemma ContentIs(s: Stop<Elem>)
    ensures s.Value? ==> Content(s) == [s.x]
    ensures s.Defaults? ==> Content(s) == Repeat(s.x, s.n)
    ensures s.Begins? || s.Ends? ==> Content(s) == []
  {
  }

  lemma NothingLeft(it: Iterator<Elem>)
    requires it.Valid() && it.end
    ensures it.Rest() == []
  {
  }

  // ----- Emitting -----

  /** `index` with one leading zero. */
  method IndexList(shape: seq<nat>, idx: nat) returns (at: seq<int>)
    requires Positive(shape) && idx < Capacity(shape, 0)
    ensures Address(shape, at) == idx
  {
    var ret := Index(shape, idx);
    at := [0] + ret;
    IndicesBound(shape, 0, idx);
    assert at[1..] == ret;
  }

  lemma ExecMore<S>(shape: seq<nat>, glob: seq<Elem>, ev: Eval<S>, actions: seq<Action>, a: Action, cells: seq<int>,
                    st: S)
    ensures var r := Exec(shape, glob, ev, actions, cells, st);
            Exec(shape, glob, ev, actions + [a], cells, st) == if r.Some?
                then Do(shape, glob, ev, a, r.value.0, r.value.1) else None
  {
    assert (actions + [a])[..|actions|] == actions;
  }

  /** Memory once the blocks of the first `p` elements have been cleared or copied. */
  function Blocked(done: seq<Elem>, p: nat, cells: seq<int>): (r: seq<int>)
    requires |done| % 4 == 0 && p <= |done| <= |cells|
    ensures |r| == |cells|
    ensures forall k :: 0 <= k < |r| ==> r[k] == if k < p && Kinds(done)[k / 4] != STORE then ValueOf(Cached(done[k]))
            else cells[k]
  {
    seq(|cells|, k requires 0 <= k < |cells| => if k < p && Kinds(done)[k / 4] != STORE then ValueOf(Cached(done[k]))
        else cells[k])
  }

  lemma GroupOf(k: nat, g: nat, n: nat)
    requires 4 * g <= k < 4 * (g + n)
    ensures g <= k / 4 < g + n
  {
  }

  /** A block of `n` groups of one kind goes from group `g` on. */
  lemma BlockedClear(done: seq<Elem>, g: nat, n: nat, cells: seq<int>)
    requires |done| % 4 == 0 && 4 * (g + n) <= |done| <= |cells| && g + n <= |Kinds(done)|
    requires forall j :: g <= j < g + n ==> Kinds(done)[j] == CLEAR
    ensures Blocked(done, 4 * (g + n), cells) == Splice(Blocked(done, 4 * g, cells), 4 * g, Zeros(4 * n))
  {
    hide Kinds;
    forall k | 4 * g <= k < 4 * (g + n) ensures Kinds(done)[k / 4] == CLEAR && done[k] == DEFAULT {
      GroupOf(k, g, n);
      InGroupIs(done, k, CLEAR);
    }
  }

  lemma BlockedCopy(done: seq<Elem>, g: nat, n: nat, cells: seq<int>, t: seq<Elem>)
    requires |done| % 4 == 0 && 4 * (g + n) <= |done| <= |cells| && g + n <= |Kinds(done)|
    requires forall j :: g <= j < g + n ==> Kinds(done)[j] == COPY
    requires t == CachedAll(done[4 * g..4 * (g + n)])
    ensures Blocked(done, 4 * (g + n), cells) == Splice(Blocked(done, 4 * g, cells), 4 * g, ValuesOf(t))
  {
    hide Kinds;
    forall k | 4 * g <= k < 4 * (g + n) ensures Kinds(done)[k / 4] == COPY && t[k - 4 * g] == Cached(done[k]) {
      GroupOf(k, g, n);
    }
  }

  lemma BlockedStore(done: seq<Elem>, g: nat, n: nat, cells: seq<int>)
    requires |done| % 4 == 0 && 4 * (g + n) <= |done| <= |cells| && g + n <= |Kinds(done)|
    requires forall j :: g <= j < g + n ==> Kinds(done)[j] == STORE
    ensures Blocked(done, 4 * (g + n), cells) == Blocked(done, 4 * g, cells)
  {
    hide Kinds;
    forall k | 4 * g <= k < 4 * (g + n) ensures Kinds(done)[k / 4] == STORE {
      GroupOf(k, g, n);
    }
  }

  /** Where the `i`th segment lies, and of which kind its groups are. */
  ghost predicate SegmentAt(types: seq<Kind>, lens: seq<nat>, done: seq<Elem>, i: nat, g: nat, g': nat)
    requires |types| == |lens| && i < |types|
  {
    && |done| % 4 == 0 && g' == g + lens[i] > g && 4 * g' <= |done| && g' <= |Kinds(done)|
    && (forall j :: g <= j < g' ==> Kinds(done)[j] == types[i]) && types[i] != NONE
  }

  lemma SegmentIs(types: seq<Kind>, lens: seq<nat>, prefill: seq<Elem>, done: seq<Elem>, i: nat)
    requires Grouped(types, lens, prefill, done) && i < |types|
    ensures |types| == |lens| && SegmentAt(types, lens, done, i, Groups(types, lens, i), Groups(types, lens, i + 1))
  {
    UnfoldAt(types, lens, i);
    var g := Groups(types, lens, i);
    assert Kinds(done)[g] == types[i];
    KindsAt(done, g);
    KindsIn(done[4 * g..4 * g + 4], 0);
  }

  lemma GroupedEnds(types: seq<Kind>, lens: seq<nat>, prefill: seq<Elem>, done: seq<Elem>)
    requires Grouped(types, lens, prefill, done)
    ensures |types| == |lens| && |done| % 4 == 0
    ensures Groups(types, lens, 0) == 0 && 4 * Groups(types, lens, |types|) == |done|
    ensures Prefill(done[..0]) == [] && prefill == Prefill(done)
  {
    GroupsEnds(types, lens);
  }

  lemma NothingBlocked(done: seq<Elem>, cells: seq<int>)
    requires |done| % 4 == 0 && |done| <= |cells|
    ensures Blocked(done, 0, cells) == cells
  {
  }

  /** What has run so far. */
  ghost predicate Ran<S>(shape: seq<nat>, glob: seq<Elem>, ev: Eval<S>, actions: seq<Action>, cells0: seq<int>, st0: S,
                         cells: seq<int>, st: S) {
    Exec(shape, glob, ev, actions, cells0, st0) == Some((cells, st))
  }

  lemma RanClear<S>(shape: seq<nat>, glob: seq<Elem>, ev: Eval<S>, actions: seq<Action>, cells0: seq<int>, st0: S,
                    cells: seq<int>, st: S,
                    at: seq<int>, p: nat, n: nat)
    requires Ran(shape, glob, ev, actions, cells0, st0, cells, st) && Address(shape, at) == p && p + n <= |cells|
    ensures Ran(shape, glob, ev, actions + [Clear(at, 4 * n)], cells0, st0, Splice(cells, p, Zeros(n)), st)
  {
    ExecMore(shape, glob, ev, actions, Clear(at, 4 * n), cells0, st0);
    assert 4 * n / 4 == n;
  }

  lemma RanCopy<S>(shape: seq<nat>, glob: seq<Elem>, ev: Eval<S>, actions: seq<Action>, cells0: seq<int>, st0: S,
                   cells: seq<int>, st: S,
                   at: seq<int>, p: nat, n: nat, from: nat)
    requires Ran(shape, glob, ev, actions, cells0, st0, cells, st) && Address(shape, at) == p && p + n <= |cells|
             && from + n <= |glob|
    ensures Ran(shape, glob, ev, actions + [Copy(from, at, 4 * n)], cells0, st0,
              Splice(cells, p, ValuesOf(glob[from..from + n])), st)
  {
    ExecMore(shape, glob, ev, actions, Copy(from, at, 4 * n), cells0, st0);
    assert 4 * n / 4 == n;
  }

  /** What the first `i` segments have done to memory. */
  ghost predicate BlocksRan<S>(shape: seq<nat>, prefill: seq<Elem>, done: seq<Elem>, ev: Eval<S>, actions: seq<Action>,
                               cells: seq<int>, st: S, selfIdx: nat, cpIdx: nat) {
    && |done| % 4 == 0 && selfIdx <= |done| <= |cells| && cpIdx == |Prefill(done[..selfIdx])|
    && Ran(shape, prefill, ev, actions, cells, st, Blocked(done, selfIdx, cells), st)
  }

  /** The first loop over the segments: blocks are cleared, copied or left alone. */
  method EmitBlocks<S>(shape: seq<nat>, types: seq<Kind>, lens: seq<nat>, prefill: seq<Elem>, ghost done: seq<Elem>,
                       ghost ev: Eval<S>, ghost cells: seq<int>, ghost st: S)
    returns (actions: seq<Action>, top: nat)
    requires Positive(shape) && Grouped(types, lens, prefill, done) && |done| <= |cells| == Capacity(shape, 0)
    ensures top == |done| && BlocksRan(shape, prefill, done, ev, actions, cells, st, top, |prefill|)
  {
    hide *;
    actions := [];
    var selfIdx, cpIdx := 0, 0;
    GroupedEnds(types, lens, prefill, done);
    NothingBlocked(done, cells);
    NothingRan(shape, prefill, ev, cells, st);
    BlocksRanIs(shape, prefill, done, ev, actions, cells, st, selfIdx, cpIdx);
    for i := 0 to |types|
      invariant |types| == |lens| && selfIdx == 4 * Groups(types, lens, i)
      invariant BlocksRan(shape, prefill, done, ev, actions, cells, st, selfIdx, cpIdx)
    {
      actions, cpIdx := EmitBlock(shape, types, lens, prefill, done, ev, cells, st, i, selfIdx, cpIdx, actions);
      SegmentEnd(types, lens, prefill, done, i);
      selfIdx := selfIdx + lens[i] * 4;
    }
    top := selfIdx;
    AllBlocked(shape, prefill, done, ev, actions, cells, st, top, cpIdx);
  }

  lemma SegmentEnd(types: seq<Kind>, lens: seq<nat>, prefill: seq<Elem>, done: seq<Elem>, i: nat)
    requires Grouped(types, lens, prefill, done) && i < |types|
    ensures |types| == |lens| && 4 * Groups(types, lens, i + 1) == 4 * Groups(types, lens, i) + lens[i] * 4 <= |done|
            && lens[i] > 0
  {
    hide *;
    SegmentIs(types, lens, prefill, done, i);
    SegmentRoom(types, lens, done, i, Groups(types, lens, i), Groups(types, lens, i + 1));
  }

  /** One segment. */
  method EmitBlock<S>(shape: seq<nat>, types: seq<Kind>, lens: seq<nat>, prefill: seq<Elem>, ghost done: seq<Elem>,
                      ghost ev: Eval<S>, ghost cells: seq<int>, ghost st: S, i: nat, selfIdx: nat, cpIdx: nat,
                          actions0: seq<Action>)
    returns (actions: seq<Action>, cpIdx': nat)
    requires Positive(shape) && Grouped(types, lens, prefill, done) && |done| <= |cells| == Capacity(shape, 0)
    requires i < |types| == |lens| && selfIdx == 4 * Groups(types, lens, i)
    requires BlocksRan(shape, prefill, done, ev, actions0, cells, st, selfIdx, cpIdx)
    ensures BlocksRan(shape, prefill, done, ev, actions, cells, st, selfIdx + lens[i] * 4, cpIdx')
  {
    hide *;
    actions, cpIdx' := actions0, cpIdx;
    SegmentIs(types, lens, prefill, done, i);
    SegmentEnd(types, lens, prefill, done, i);
    GroupedEnds(types, lens, prefill, done);
    ghost var g := Groups(types, lens, i);
    var len := lens[i];
    assert selfIdx + len * 4 == 4 * (g + len);
    if types[i] == CLEAR {
      var at := IndexList(shape, selfIdx);
      ClearRan(shape, prefill, types, lens, done, ev, actions, cells, st, i, g, cpIdx, at);
      actions := actions + [Clear(at, len * 16)];
    } else if types[i] == COPY {
      var at := IndexList(shape, selfIdx);
      CopyRan(shape, prefill, types, lens, done, ev, actions, cells, st, i, g, cpIdx, at);
      actions := actions + [Copy(cpIdx, at, len * 16)];
      cpIdx' := cpIdx + len * 4;
    } else {
      LeaveRan(shape, prefill, types, lens, done, ev, actions, cells, st, i, g, cpIdx);
    }
  }

  lemma NothingRan<S>(shape: seq<nat>, prefill: seq<Elem>, ev: Eval<S>, cells: seq<int>, st: S)
    ensures Ran(shape, prefill, ev, [], cells, st, cells, st)
  {
  }

  lemma AllBlocked<S>(shape: seq<nat>, prefill: seq<Elem>, done: seq<Elem>, ev: Eval<S>, actions: seq<Action>,
                      cells: seq<int>, st: S, selfIdx: nat, cpIdx: nat)
    requires BlocksRan(shape, prefill, done, ev, actions, cells, st, selfIdx, cpIdx) && selfIdx == |done|
             && prefill == Prefill(done)
    ensures cpIdx == |prefill|
  {
    assert done[..|done|] == done;
  }

  lemma SegmentRoom(types: seq<Kind>, lens: seq<nat>, done: seq<Elem>, i: nat, g: nat, g': nat)
    requires |types| == |lens| && i < |types| && SegmentAt(types, lens, done, i, g, g')
    ensures lens[i] > 0 && g' == g + lens[i] && 4 * g' <= |done|
  {
  }

  lemma ClearRan<S>(shape: seq<nat>, prefill: seq<Elem>, types: seq<Kind>, lens: seq<nat>, done: seq<Elem>,
                    ev: Eval<S>, actions: seq<Action>,
                    cells: seq<int>, st: S, i: nat, g: nat, cpIdx: nat, at: seq<int>)
    requires |types| == |lens| && i < |types| && SegmentAt(types, lens, done, i, g, Groups(types, lens, i + 1))
             && types[i] == CLEAR
    requires BlocksRan(shape, prefill, done, ev, actions, cells, st, 4 * g, cpIdx) && Address(shape, at) == 4 * g
    ensures BlocksRan(shape, prefill, done, ev, actions + [Clear(at, lens[i] * 16)], cells, st, 4 * (g + lens[i]),
              cpIdx)
  {
    hide *;
    var n := lens[i];
    SegmentParts(types, lens, done, i, g, Groups(types, lens, i + 1));
    BlocksRanIs(shape, prefill, done, ev, actions, cells, st, 4 * g, cpIdx);
    BlockedClear(done, g, n, cells);
    KindsDiffer();
    PrefillUncopied(done, g, n, CLEAR);
    RanClear(shape, prefill, ev, actions, cells, st, Blocked(done, 4 * g, cells), st, at, 4 * g, 4 * n);
    assert 4 * (4 * n) == n * 16;
    BlocksRanIs(shape, prefill, done, ev, actions + [Clear(at, n * 16)], cells, st, 4 * (g + n), cpIdx);
  }

  lemma CopyRan<S>(shape: seq<nat>, prefill: seq<Elem>, types: seq<Kind>, lens: seq<nat>, done: seq<Elem>, ev: Eval<S>,
                   actions: seq<Action>,
                   cells: seq<int>, st: S, i: nat, g: nat, cpIdx: nat, at: seq<int>)
    requires |types| == |lens| && i < |types| && SegmentAt(types, lens, done, i, g, Groups(types, lens, i + 1))
             && types[i] == COPY
    requires BlocksRan(shape, prefill, done, ev, actions, cells, st, 4 * g, cpIdx) && Address(shape, at) == 4 * g
             && prefill == Prefill(done)
    ensures BlocksRan(shape, prefill, done, ev, actions + [Copy(cpIdx, at, lens[i] * 16)], cells, st,
              4 * (g + lens[i]), cpIdx + lens[i] * 4)
  {
    hide *;
    var n := lens[i];
    SegmentParts(types, lens, done, i, g, Groups(types, lens, i + 1));
    BlocksRanIs(shape, prefill, done, ev, actions, cells, st, 4 * g, cpIdx);
    var t := CachedAll(done[4 * g..4 * (g + n)]);
    PrefillCopied(done, g, n);
    PrefillPrefix(done, g + n);
    BlockedCopy(done, g, n, cells, t);
    SliceIs(Prefill(done[..4 * g]), t, Prefill(done));
    RanCopy(shape, prefill, ev, actions, cells, st, Blocked(done, 4 * g, cells), st, at, 4 * g, 4 * n, cpIdx);
    assert 4 * (4 * n) == n * 16;
    BlocksRanIs(shape, prefill, done, ev, actions + [Copy(cpIdx, at, n * 16)], cells, st, 4 * (g + n), cpIdx + n * 4);
  }

  lemma SliceIs<T>(a: seq<T>, t: seq<T>, s: seq<T>)
    requires a + t <= s
    ensures |a| + |t| <= |s| && s[|a|..|a| + |t|] == t
  {
    var n := |a + t|;
    assert s[..n] == a + t;
    assert s[|a|..n] == s[..n][|a|..];
  }

  lemma LeaveRan<S>(shape: seq<nat>, prefill: seq<Elem>, types: seq<Kind>, lens: seq<nat>, done: seq<Elem>,
                    ev: Eval<S>, actions: seq<Action>,
                    cells: seq<int>, st: S, i: nat, g: nat, cpIdx: nat)
    requires |types| == |lens| && i < |types| && SegmentAt(types, lens, done, i, g, Groups(types, lens, i + 1))
             && types[i] != CLEAR && types[i] != COPY
    requires BlocksRan(shape, prefill, done, ev, actions, cells, st, 4 * g, cpIdx)
    ensures BlocksRan(shape, prefill, done, ev, actions, cells, st, 4 * (g + lens[i]), cpIdx)
  {
    hide *;
    var n := lens[i];
    SegmentParts(types, lens, done, i, g, Groups(types, lens, i + 1));
    BlocksRanIs(shape, prefill, done, ev, actions, cells, st, 4 * g, cpIdx);
    BlockedStore(done, g, n, cells);
    PrefillUncopied(done, g, n, STORE);
    BlocksRanIs(shape, prefill, done, ev, actions, cells, st, 4 * (g + n), cpIdx);
  }

  lemma KindsDiffer()
    ensures CLEAR != COPY && STORE != COPY && STORE != CLEAR
  {
  }

  lemma SegmentParts(types: seq<Kind>, lens: seq<nat>, done: seq<Elem>, i: nat, g: nat, g': nat)
    requires |types| == |lens| && i < |types| && SegmentAt(types, lens, done, i, g, g')
    ensures |done| % 4 == 0 && lens[i] > 0 && g' == g + lens[i] && 4 * (g + lens[i]) <= |done|
            && g + lens[i] <= |Kinds(done)| == |done| / 4
    ensures (forall j :: g <= j < g + lens[i] ==> Kinds(done)[j] == types[i]) && types[i] != NONE
    ensures types[i] == CLEAR || types[i] == COPY || types[i] == STORE
  {
  }

  lemma BlocksRanIs<S>(shape: seq<nat>, prefill: seq<Elem>, done: seq<Elem>, ev: Eval<S>, actions: seq<Action>,
                       cells: seq<int>, st: S, selfIdx: nat, cpIdx: nat)
    ensures BlocksRan(shape, prefill, done, ev, actions, cells, st, selfIdx, cpIdx) <==>
              && |done| % 4 == 0 && selfIdx <= |done| <= |cells| && cpIdx == |Prefill(done[..selfIdx])|
              && Ran(shape, prefill, ev, actions, cells, st, Blocked(done, selfIdx, cells), st)
  {
  }

  // ----- Storing what is left -----

  /** Memory when the first `p` elements are done: their values, and what the blocks left of the others. */
  function Mixed<S>(elems: seq<Elem>, done: seq<Elem>, p: nat, ev: Eval<S>, cells: seq<int>, st: S): (r: seq<int>)
    requires |done| % 4 == 0 && done <= elems && p <= |elems| == |cells|
    ensures |r| == |cells|
  {
    Evaluated(elems, p, ev, st).0 + Blocked(done, |done|, cells)[p..]
  }

  /** Everything up to element `p` has run. */
  ghost predicate StoresRan<S>(shape: seq<nat>, prefill: seq<Elem>, done: seq<Elem>, elems: seq<Elem>, ev: Eval<S>,
                               actions: seq<Action>,
                               cells: seq<int>, st: S, p: nat) {
    && |done| % 4 == 0 && done <= elems && p <= |elems| == |cells|
    && Ran(shape, prefill, ev, actions, cells, st, Mixed(elems, done, p, ev, cells, st), Evaluated(elems, p, ev, st).1)
  }

  /** An element whose block already holds its value needs no store. */
  lemma StoreSkips<S>(shape: seq<nat>, prefill: seq<Elem>, done: seq<Elem>, elems: seq<Elem>, ev: Eval<S>,
                      actions: seq<Action>,
                      cells: seq<int>, st: S, p: nat)
    requires StoresRan(shape, prefill, done, elems, ev, actions, cells, st, p) && p < |done| && elems[p].Const?
    requires Kinds(done)[p / 4] != STORE
    ensures StoresRan(shape, prefill, done, elems, ev, actions, cells, st, p + 1)
  {
    BlockedAt(done, elems, p, cells);
    EvaluatedStep(elems, p, ev, st);
    hide Exec, Kinds, Blocked, Evaluated;
    OneMore(Evaluated(elems, p, ev, st).0, Blocked(done, |done|, cells), p, elems[p].c);
  }

  lemma BlockedAt(done: seq<Elem>, elems: seq<Elem>, p: nat, cells: seq<int>)
    requires |done| % 4 == 0 && done <= elems && p < |done| && |elems| == |cells| && elems[p].Const?
             && Kinds(done)[p / 4] != STORE
    ensures Blocked(done, |done|, cells)[p] == elems[p].c
  {
    assert elems[p] == done[p];
    hide Kinds;
  }

  lemma EvaluatedStep<S>(elems: seq<Elem>, p: nat, ev: Eval<S>, st: S)
    requires p < |elems|
    ensures var (vs, st1) := Evaluated(elems, p, ev, st);
            Evaluated(elems, p + 1, ev, st) ==
            match elems[p]
            case Const(c) => (vs + [c], st1)
            case Expr(id) => (vs + [ev(id, st1).0], ev(id, st1).1)
  {
  }

  lemma OneMore(vs: seq<int>, bs: seq<int>, p: nat, c: int)
    requires |vs| == p < |bs| && bs[p] == c
    ensures (vs + [c]) + bs[p + 1..] == vs + bs[p..]
  {
  }

  /** A store gives an element its value. */
  lemma StoreOne<S>(shape: seq<nat>, prefill: seq<Elem>, done: seq<Elem>, elems: seq<Elem>, ev: Eval<S>,
                    actions: seq<Action>,
                    cells: seq<int>, st: S, p: nat, at: seq<int>)
    requires StoresRan(shape, prefill, done, elems, ev, actions, cells, st, p) && p < |elems| && Address(shape, at) == p
    ensures StoresRan(shape, prefill, done, elems, ev, actions + [Store(at, elems[p])], cells, st, p + 1)
  {
    ExecMore(shape, prefill, ev, actions, Store(at, elems[p]), cells, st);
    EvaluatedStep(elems, p, ev, st);
    hide Exec, Blocked, Address, Evaluated;
    var (vs, st1) := Evaluated(elems, p, ev, st);
    var v := match elems[p] case Const(c) => c case Expr(id) => ev(id, st1).0;
    PutOne(vs, Blocked(done, |done|, cells), p, v);
  }

  lemma PutOne(vs: seq<int>, bs: seq<int>, p: nat, v: int)
    requires |vs| == p < |bs|
    ensures (vs + bs[p..])[p := v] == (vs + [v]) + bs[p + 1..]
  {
  }

  /** A run of default values in cleared blocks needs no store. */
  lemma {:induction false} ClearedSkips<S>(shape: seq<nat>, prefill: seq<Elem>, done: seq<Elem>, elems: seq<Elem>,
                                           ev: Eval<S>, actions: seq<Action>,
                                           cells: seq<int>, st: S, p: nat, q: nat)
    requires StoresRan(shape, prefill, done, elems, ev, actions, cells, st, p) && p <= q <= |done|
    requires forall k :: p <= k < q ==> InGroup(done, k, CLEAR)
    ensures StoresRan(shape, prefill, done, elems, ev, actions, cells, st, q)
    decreases q - p
  {
    if p < q {
      InGroupIs(done, p, CLEAR);
      assert InGroup(done, p, CLEAR) && elems[p] == done[p];
      StoreSkips(shape, prefill, done, elems, ev, actions, cells, st, p);
      hide StoresRan, InGroup;
      ClearedSkips(shape, prefill, done, elems, ev, actions, cells, st, p + 1, q);
    }
  }

  lemma SegmentGroups(types: seq<Kind>, lens: seq<nat>, done: seq<Elem>, i: nat, g: nat, g': nat)
    requires |types| == |lens| && i < |types| && SegmentAt(types, lens, done, i, g, g')
    ensures |done| % 4 == 0 && forall k :: 4 * g <= k < 4 * g' ==> InGroup(done, k, types[i])
  {
    hide Kinds;
    forall k | 4 * g <= k < 4 * g' ensures InGroup(done, k, types[i]) {
      GroupOf(k, g, g' - g);
    }
  }

  /** `getElement` on the initializer. */
  lemma ElementIs(shape: seq<nat>, tensor: Tree<Elem>, elems: seq<Elem>, k: nat)
    requires Positive(shape) && Good(shape, tensor) && tensor.Sub? && tensor.begin == 0
             && elems == Flat(shape, DEFAULT, tensor) && k < |elems|
    ensures |elems| == Capacity(shape, 0) && GetElement(shape, DEFAULT, tensor, k) == Some(elems[k])
  {
    GetElementIsFlat(shape, DEFAULT, tensor, k);
  }

  lemma FlatSize(shape: seq<nat>, tensor: Tree<Elem>)
    requires Positive(shape) && Good(shape, tensor) && tensor.Sub? && tensor.begin == 0
    ensures |Flat(shape, DEFAULT, tensor)| == Capacity(shape, 0)
  {
    FlatLength(shape, DEFAULT, tensor);
  }

  /** The elements of one segment that are expressions. */
  method EmitSegment<S>(shape: seq<nat>, tensor: Tree<Elem>, ty: Kind, from: nat, l: nat, actions0: seq<Action>,
                        ghost prefill: seq<Elem>,
                        ghost done: seq<Elem>, ghost elems: seq<Elem>, ghost ev: Eval<S>, ghost cells: seq<int>,
                            ghost st: S)
    returns (actions: seq<Action>)
    requires Positive(shape) && Good(shape, tensor) && tensor.Sub? && tensor.begin == 0
             && elems == Flat(shape, DEFAULT, tensor)
    requires ty != CLEAR && |done| % 4 == 0 && forall k :: from <= k < from + l ==> InGroup(done, k, ty)
    requires StoresRan(shape, prefill, done, elems, ev, actions0, cells, st, from) && from + l <= |done| <= |elems|
    ensures StoresRan(shape, prefill, done, elems, ev, actions, cells, st, from + l)
  {
    actions := actions0;
    hide *;
    for ii := 0 to l
      invariant StoresRan(shape, prefill, done, elems, ev, actions, cells, st, from + ii)
    {
      assert InGroup(done, from + ii, ty);
      actions := EmitElement(shape, tensor, ty, from + ii, actions, prefill, done, elems, ev, cells, st);
    }
  }

  /** One element of a segment that is not cleared. */
  method EmitElement<S>(shape: seq<nat>, tensor: Tree<Elem>, ty: Kind, k: nat, actions0: seq<Action>,
                        ghost prefill: seq<Elem>,
                        ghost done: seq<Elem>, ghost elems: seq<Elem>, ghost ev: Eval<S>, ghost cells: seq<int>,
                            ghost st: S)
    returns (actions: seq<Action>)
    requires Positive(shape) && Good(shape, tensor) && tensor.Sub? && tensor.begin == 0
             && elems == Flat(shape, DEFAULT, tensor)
    requires ty != CLEAR && |done| % 4 == 0 && InGroup(done, k, ty) && k < |done| <= |elems|
    requires StoresRan(shape, prefill, done, elems, ev, actions0, cells, st, k)
    ensures StoresRan(shape, prefill, done, elems, ev, actions, cells, st, k + 1)
  {
    hide *;
    actions := actions0;
    ElementIs(shape, tensor, elems, k);
    ElementKind(done, elems, k, ty, shape, prefill, ev, actions, cells, st);
    var v := GetElement(shape, DEFAULT, tensor, k).value;
    if ty == STORE || v.Expr? {
      var at := IndexList(shape, k);
      StoreOne(shape, prefill, done, elems, ev, actions, cells, st, k, at);
      actions := actions + [Store(at, v)];
    } else {
      StoreSkips(shape, prefill, done, elems, ev, actions, cells, st, k);
    }
  }

  lemma ElementKind<S>(done: seq<Elem>, elems: seq<Elem>, k: nat, ty: Kind, shape: seq<nat>, prefill: seq<Elem>,
                       ev: Eval<S>,
                       actions: seq<Action>, cells: seq<int>, st: S)
    requires |done| % 4 == 0 && k < |done| <= |elems| && InGroup(done, k, ty)
    requires StoresRan(shape, prefill, done, elems, ev, actions, cells, st, k)
    ensures elems[k] == done[k] && (ty == STORE ==> elems[k].Expr?) && k / 4 < |Kinds(done)| && Kinds(done)[k / 4] == ty
  {
    InGroupIs(done, k, ty);
  }

  /** The second loop over the segments: expressions are evaluated and stored. */
  method EmitExpressions<S>(shape: seq<nat>, tensor: Tree<Elem>, types: seq<Kind>, lens: seq<nat>,
                            actions0: seq<Action>,
                            ghost prefill: seq<Elem>, ghost done: seq<Elem>, ghost elems: seq<Elem>,
                            ghost ev: Eval<S>, ghost cells: seq<int>, ghost st: S)
    returns (actions: seq<Action>)
    requires Positive(shape) && Good(shape, tensor) && tensor.Sub? && tensor.begin == 0
             && elems == Flat(shape, DEFAULT, tensor)
    requires Grouped(types, lens, prefill, done) && |done| <= |elems|
    requires StoresRan(shape, prefill, done, elems, ev, actions0, cells, st, 0)
    ensures StoresRan(shape, prefill, done, elems, ev, actions, cells, st, |done|)
  {
    hide *;
    actions := actions0;
    var selfIdx := 0;
    GroupedEnds(types, lens, prefill, done);
    for i := 0 to |types|
      invariant |types| == |lens| && selfIdx == 4 * Groups(types, lens, i)
      invariant StoresRan(shape, prefill, done, elems, ev, actions, cells, st, selfIdx)
    {
      SegmentEnd(types, lens, prefill, done, i);
      actions := EmitExpressionsOf(shape, tensor, types, lens, i, selfIdx, actions, prefill, done, elems, ev, cells,
          st);
      selfIdx := selfIdx + lens[i] * 4;
    }
  }

  /** One segment. */
  method EmitExpressionsOf<S>(shape: seq<nat>, tensor: Tree<Elem>, types: seq<Kind>, lens: seq<nat>, i: nat,
                              selfIdx: nat, actions0: seq<Action>,
                              ghost prefill: seq<Elem>, ghost done: seq<Elem>, ghost elems: seq<Elem>,
                              ghost ev: Eval<S>, ghost cells: seq<int>, ghost st: S)
    returns (actions: seq<Action>)
    requires Positive(shape) && Good(shape, tensor) && tensor.Sub? && tensor.begin == 0
             && elems == Flat(shape, DEFAULT, tensor)
    requires Grouped(types, lens, prefill, done) && |done| <= |elems|
    requires i < |types| == |lens| && selfIdx == 4 * Groups(types, lens, i)
    requires StoresRan(shape, prefill, done, elems, ev, actions0, cells, st, selfIdx)
    ensures StoresRan(shape, prefill, done, elems, ev, actions, cells, st, selfIdx + lens[i] * 4)
  {
    hide *;
    actions := actions0;
    SegmentIs(types, lens, prefill, done, i);
    SegmentEnd(types, lens, prefill, done, i);
    SegmentGroups(types, lens, done, i, Groups(types, lens, i), Groups(types, lens, i + 1));
    var l := lens[i] * 4;
    if types[i] == CLEAR {
      ClearedSkips(shape, prefill, done, elems, ev, actions, cells, st, selfIdx, selfIdx + l);
    } else {
      actions := EmitSegment(shape, tensor, types[i], selfIdx, l, actions, prefill, done, elems, ev, cells, st);
    }
  }

  /** What does not fill a group of four is stored element by element. */
  method EmitTail<S>(shape: seq<nat>, tensor: Tree<Elem>, top: nat, actions0: seq<Action>, ghost prefill: seq<Elem>,
                     ghost done: seq<Elem>, ghost elems: seq<Elem>, ghost ev: Eval<S>, ghost cells: seq<int>,
                         ghost st: S)
    returns (actions: seq<Action>)
    requires Positive(shape) && Good(shape, tensor) && tensor.Sub? && tensor.begin == 0
             && elems == Flat(shape, DEFAULT, tensor)
    requires StoresRan(shape, prefill, done, elems, ev, actions0, cells, st, top) && top <= |elems|
    ensures StoresRan(shape, prefill, done, elems, ev, actions, cells, st, |elems|)
  {
    actions := actions0;
    FlatSize(shape, tensor);
    hide *;
    var cap := Capacity(shape, 0);
    for i := top to cap
      invariant StoresRan(shape, prefill, done, elems, ev, actions, cells, st, i)
    {
      ElementIs(shape, tensor, elems, i);
      var v := GetElement(shape, DEFAULT, tensor, i).value;
      var at := IndexList(shape, i);
      StoreOne(shape, prefill, done, elems, ev, actions, cells, st, i, at);
      actions := actions + [Store(at, v)];
    }
  }

  /** The whole plan.  Run on any prior memory it gives every element its value, with the expressions evaluated
      once each and in the order of the elements. */
  method InitializeArray<S>(shape: seq<nat>, tensor: Tree<Elem>, ghost ev: Eval<S>, ghost cells: seq<int>, ghost st: S)
    returns (prefill: seq<Elem>, actions: seq<Action>)
    requires Positive(shape) && Good(shape, tensor) && tensor.Sub? && tensor.begin == 0 && |cells| == Capacity(shape, 0)
    ensures |Flat(shape, DEFAULT, tensor)| == Capacity(shape, 0)
    ensures Exec(shape, prefill, ev, actions, cells, st) ==
            Some(Evaluated(Flat(shape, DEFAULT, tensor), Capacity(shape, 0), ev, st))
  {
    hide *;
    FlatSize(shape, tensor);
    ghost var elems := Flat(shape, DEFAULT, tensor);
    var pl := Collect(shape, tensor);
    PlannerIs(pl);
    prefill := pl.prefill;
    ghost var done := pl.done;
    var top;
    actions, top := EmitBlocks(shape, pl.segmentOpTypes, pl.segmentLength, prefill, done, ev, cells, st);
    BlocksThenStores(shape, prefill, done, pl.part, ev, actions, cells, st, |prefill|);
    actions := EmitExpressions(shape, tensor, pl.segmentOpTypes, pl.segmentLength, actions, prefill, done, elems, ev,
        cells, st);
    actions := EmitTail(shape, tensor, top, actions, prefill, done, elems, ev, cells, st);
    AllStored(shape, prefill, done, elems, ev, actions, cells, st);
  }

  lemma PlannerIs(pl: Planner)
    requires pl.Valid()
    ensures Grouped(pl.segmentOpTypes, pl.segmentLength, pl.prefill, pl.done)
  {
  }

  lemma BlocksThenStores<S>(shape: seq<nat>, prefill: seq<Elem>, done: seq<Elem>, part: seq<Elem>, ev: Eval<S>,
                            actions: seq<Action>,
                            cells: seq<int>, st: S, cpIdx: nat)
    requires BlocksRan(shape, prefill, done, ev, actions, cells, st, |done|, cpIdx) && |done + part| == |cells|
    ensures StoresRan(shape, prefill, done, done + part, ev, actions, cells, st, 0)
  {
    hide Exec, Blocked;
    assert Blocked(done, |done|, cells)[0..] == Blocked(done, |done|, cells);
    assert Mixed(done + part, done, 0, ev, cells, st) == Blocked(done, |done|, cells);
  }

  lemma AllStored<S>(shape: seq<nat>, prefill: seq<Elem>, done: seq<Elem>, elems: seq<Elem>, ev: Eval<S>,
                     actions: seq<Action>,
                     cells: seq<int>, st: S)
    requires StoresRan(shape, prefill, done, elems, ev, actions, cells, st, |elems|)
    ensures Exec(shape, prefill, ev, actions, cells, st) == Some(Evaluated(elems, |elems|, ev, st))
  {
    hide Exec, Blocked, Evaluated;
    assert Blocked(done, |done|, cells)[|elems|..] == [];
    var r := Evaluated(elems, |elems|, ev, st);
    assert Mixed(elems, done, |elems|, ev, cells, st) == r.0 && r == (r.0, r.1);
  }

  /** What `Evaluated` means element by element. */
  lemma {:induction false} EvaluatedAt<S>(elems: seq<Elem>, n: nat, ev: Eval<S>, st: S, k: nat)
    requires k < n <= |elems|
    ensures Evaluated(elems, n, ev, st).0[k] ==
            match elems[k]
            case Const(c) => c
            case Expr(id) => ev(id, Evaluated(elems, k, ev, st).1).0
    decreases n
  {
    if k < n - 1 {
      EvaluatedAt(elems, n - 1, ev, st, k);
    }
  }
}
