/** Paths and dominance in the block graph, and the fact that makes phi placement work: when the
    definitions of a variable are closed under dominance frontiers, all paths to a block without a
    phi agree on the definition that reaches it. */
module Dominance {
  import opened IR

  predicate IsEdge(f: Function, a: BlockId, b: BlockId) {
    a in f.blocks && b in Successors(f.blocks[a].term)
  }

  /** A path starts at the entry block and follows edges. */
  ghost predicate IsPath(f: Function, p: seq<BlockId>) {
    && p != [] && p[0] == f.entry
    && forall i :: 0 <= i < |p| - 1 ==> IsEdge(f, p[i], p[i + 1])
  }

  ghost predicate PathTo(f: Function, p: seq<BlockId>, b: BlockId) {
    IsPath(f, p) && p[|p| - 1] == b
  }

  ghost predicate Reachable(f: Function, b: BlockId) {
    exists p :: PathTo(f, p, b)
  }

  /** Every path to `b` goes through `a`. */
  ghost predicate Dom(f: Function, a: BlockId, b: BlockId) {
    forall p :: PathTo(f, p, b) ==> a in p
  }

  ghost predicate StrictDom(f: Function, a: BlockId, b: BlockId) {
    a != b && Dom(f, a, b)
  }

  /** `b` is in the dominance frontier of `a`. */
  ghost predicate InFrontier(f: Function, a: BlockId, b: BlockId) {
    exists q :: Reachable(f, q) && IsEdge(f, q, b) && Dom(f, a, q) && !StrictDom(f, a, b)
  }

  // ----- Paths -----

  lemma Prefix(f: Function, p: seq<BlockId>, i: nat)
    requires IsPath(f, p) && i < |p|
    ensures PathTo(f, p[..i + 1], p[i])
  {
  }

  lemma Extend(f: Function, p: seq<BlockId>, a: BlockId, b: BlockId)
    requires PathTo(f, p, a) && IsEdge(f, a, b)
    ensures PathTo(f, p + [b], b)
  {
  }

  lemma Splice(f: Function, p: seq<BlockId>, i: nat, q: seq<BlockId>, j: nat)
    requires IsPath(f, p) && IsPath(f, q) && i < |p| && j < |q| && p[i] == q[j]
    ensures PathTo(f, p[..i] + q[j..], q[|q| - 1])
  {
    var r := p[..i] + q[j..];
    forall k | 0 <= k < |r| - 1 ensures IsEdge(f, r[k], r[k + 1]) {
      if k < i {
        assert r[k] == p[k] && r[k + 1] == p[k + 1];
      } else {
        assert r[k] == q[j + k - i] && r[k + 1] == q[j + k - i + 1];
      }
    }
  }

  lemma {:induction false} FirstOccurrence(p: seq<BlockId>, x: BlockId) returns (i: nat)
    requires x in p
    ensures i < |p| && p[i] == x && x !in p[..i]
  {
    i := 0;
    while p[i] != x
      invariant i < |p| && x !in p[..i] && x in p[i..]
      decreases |p| - i
    {
      assert p[i..] == [p[i]] + p[i + 1..];
      assert p[..i + 1] == p[..i] + [p[i]];
      i := i + 1;
    }
  }

  // ----- Dominance -----

  lemma DomTransitive(f: Function, a: BlockId, b: BlockId, c: BlockId)
    requires Dom(f, a, b) && Dom(f, b, c)
    ensures Dom(f, a, c)
  {
    forall p | PathTo(f, p, c) ensures a in p {
      var i :| 0 <= i < |p| && p[i] == b;
      Prefix(f, p, i);
      assert a in p[..i + 1];
    }
  }

  lemma {:induction false} NoMutualDom(f: Function, a: BlockId, b: BlockId, p: seq<BlockId>)
    requires a != b && Dom(f, a, b) && Dom(f, b, a)
    ensures !PathTo(f, p, a)
    decreases |p|
  {
    if PathTo(f, p, a) {
      var i :| 0 <= i < |p| && p[i] == b;
      Prefix(f, p, i);
      var q := p[..i + 1];
      var j :| 0 <= j < |q| && q[j] == a;
      assert p[j] == a && j < i;
      Prefix(f, p, j);
      NoMutualDom(f, a, b, p[..j + 1]);
    }
  }

  lemma DomAntisymmetric(f: Function, a: BlockId, b: BlockId)
    requires Reachable(f, a) && Dom(f, a, b) && Dom(f, b, a)
    ensures a == b
  {
    if a != b {
      var p :| PathTo(f, p, a);
      NoMutualDom(f, a, b, p);
    }
  }

  /** A strict dominator of a block dominates every block that jumps to it. */
  lemma StrictDomOfPred(f: Function, a: BlockId, q: BlockId, b: BlockId)
    requires StrictDom(f, a, b) && IsEdge(f, q, b)
    ensures Dom(f, a, q)
  {
    forall p | PathTo(f, p, q) ensures a in p {
      Extend(f, p, q, b);
      assert a in p + [b];
    }
  }

  lemma DomSelf(f: Function, b: BlockId)
    ensures Dom(f, b, b)
  {
  }

  // ----- The definition that reaches a block -----

  /** The index of the last block of `p` in `defs`. */
  ghost function LastIn(p: seq<BlockId>, defs: iset<BlockId>): (r: Option<nat>)
    ensures r.Some? ==> r.value < |p| && p[r.value] in defs && forall j :: r.value < j < |p| ==> p[j] !in defs
    ensures r.None? ==> forall j :: 0 <= j < |p| ==> p[j] !in defs
  {
    if p == [] then None
    else if p[|p| - 1] in defs then Some(|p| - 1)
    else LastIn(p[..|p| - 1], defs)
  }

  /** Every definition, phis included, has phis on its whole dominance frontier. */
  ghost predicate FrontierClosed(f: Function, defs: iset<BlockId>, phis: iset<BlockId>) {
    phis <= defs && forall d, b :: d in defs && InFrontier(f, d, b) ==> b in phis
  }

  /** Along a path without phis, the last definition strictly dominates everything after it. */
  lemma {:induction false} LastDefDominates(f: Function, defs: iset<BlockId>, phis: iset<BlockId>,
                                           p: seq<BlockId>, i: nat, j: nat)
    requires FrontierClosed(f, defs, phis) && IsPath(f, p) && i < j < |p| && p[i] in defs
    requires forall k :: i < k <= j ==> p[k] !in phis
    ensures StrictDom(f, p[i], p[j])
    decreases j
  {
    Prefix(f, p, j - 1);
    if j - 1 == i {
      DomSelf(f, p[i]);
    } else {
      LastDefDominates(f, defs, phis, p, i, j - 1);
    }
    StrictOrPhi(f, defs, phis, p[i], p[j - 1], p[j]);
  }

  lemma StrictOrPhi(f: Function, defs: iset<BlockId>, phis: iset<BlockId>, d: BlockId, q: BlockId, b: BlockId)
    requires FrontierClosed(f, defs, phis) && d in defs && Reachable(f, q) && IsEdge(f, q, b) && Dom(f, d, q)
    ensures StrictDom(f, d, b) || b in phis
  {
    assert StrictDom(f, d, b) || InFrontier(f, d, b);
  }

  lemma ReachingDominates(f: Function, defs: iset<BlockId>, phis: iset<BlockId>, p: seq<BlockId>, b: BlockId, i: nat)
    requires FrontierClosed(f, defs, phis) && PathTo(f, p, b) && b !in phis
    requires LastIn(p[..|p| - 1], defs) == Some(i)
    ensures StrictDom(f, p[i], b)
  {
    LastDefDominates(f, defs, phis, p, i, |p| - 1);
  }

  /** Walking straight from the first visit of `d` to what follows its last one avoids `other`, unless
      `other` comes before every `d`. */
  lemma OtherComesFirst(f: Function, p: seq<BlockId>, b: BlockId, i: nat, other: BlockId) returns (g: nat)
    requires PathTo(f, p, b) && i < |p| - 1 && p[i] != other && StrictDom(f, other, b)
    requires forall j :: i < j < |p| ==> p[j] != other
    ensures g < |p| && p[g] == other && p[i] !in p[..g]
  {
    var first := FirstOccurrence(p, p[i]);
    Splice(f, p, first, p, i);
    var r := p[..first] + p[i..];
    assert other in r;
    var k :| 0 <= k < |r| && r[k] == other;
    forall m | first < m < |r| ensures r[m] != other {
      assert r[m] == p[i + m - first];
    }
    g := k;
    assert forall m :: 0 <= m < g ==> p[..g][m] == p[..first][m];
  }

  lemma DetourAvoids(f: Function, p: seq<BlockId>, q: seq<BlockId>, b: BlockId, g: nat, j: nat, d: BlockId)
    requires IsPath(f, p) && PathTo(f, q, b) && g < |p| && j < |q| && p[g] == q[j]
    requires d !in p[..g] && forall k :: j <= k < |q| ==> q[k] != d
    ensures !Dom(f, d, b)
  {
    Splice(f, p, g, q, j);
    assert d !in p[..g] + q[j..];
  }

  lemma LastsCoincide(f: Function, p: seq<BlockId>, q: seq<BlockId>, b: BlockId, i: nat, j: nat)
    requires PathTo(f, p, b) && PathTo(f, q, b) && i < |p| - 1 && j < |q| - 1
    requires StrictDom(f, p[i], b) && StrictDom(f, q[j], b)
    requires forall k :: i < k < |p| ==> p[k] != q[j]
    requires forall k :: j < k < |q| ==> q[k] != p[i]
    ensures p[i] == q[j]
  {
    if p[i] != q[j] {
      var g := OtherComesFirst(f, p, b, i, q[j]);
      DetourAvoids(f, p, q, b, g, j, p[i]);
    }
  }

  lemma NoDefAfter(p: seq<BlockId>, defs: iset<BlockId>, i: nat, d: BlockId)
    requires p != [] && LastIn(p[..|p| - 1], defs) == Some(i) && d in defs && d != p[|p| - 1]
    ensures forall k :: i < k < |p| ==> p[k] != d
  {
    forall k | i < k < |p| ensures p[k] != d {
      if k < |p| - 1 { assert p[..|p| - 1][k] !in defs; }
    }
  }

  /** All paths to a block without a phi agree on the last definition before it. */
  lemma ReachingUnique(f: Function, defs: iset<BlockId>, phis: iset<BlockId>, p: seq<BlockId>, q: seq<BlockId>,
                       b: BlockId)
    requires FrontierClosed(f, defs, phis) && PathTo(f, p, b) && PathTo(f, q, b) && b !in phis
    ensures var r, s := LastIn(p[..|p| - 1], defs), LastIn(q[..|q| - 1], defs);
            r.Some? == s.Some? && (r.Some? ==> p[r.value] == q[s.value])
  {
    var r, s := LastIn(p[..|p| - 1], defs), LastIn(q[..|q| - 1], defs);
    if r.Some? {
      ReachingDominates(f, defs, phis, p, b, r.value);
      DefOnPath(f, defs, p[r.value], q, b);
    }
    if s.Some? {
      ReachingDominates(f, defs, phis, q, b, s.value);
      DefOnPath(f, defs, q[s.value], p, b);
    }
    if r.Some? {
      hide IsPath, Dom, FrontierClosed, LastIn;
      NoDefAfter(p, defs, r.value, q[s.value]);
      NoDefAfter(q, defs, s.value, p[r.value]);
      LastsCoincide(f, p, q, b, r.value, s.value);
    }
  }

  lemma DefOnPath(f: Function, defs: iset<BlockId>, d: BlockId, q: seq<BlockId>, b: BlockId)
    requires PathTo(f, q, b) && StrictDom(f, d, b) && d in defs
    ensures LastIn(q[..|q| - 1], defs).Some?
  {
    var k :| 0 <= k < |q| && q[k] == d;
    assert q[..|q| - 1][k] == d;
  }
}
