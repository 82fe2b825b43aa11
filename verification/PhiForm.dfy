/** Blocks that jump to a block, and phis that fit them. */
module PhiForm {
  import opened IR

  predicate IsPred(f: Function, p: BlockId, h: BlockId) {
    p in f.blocks && h in Successors(f.blocks[p].term)
  }

  function Preds(f: Function, h: BlockId): set<BlockId> {
    set p | p in f.blocks && IsPred(f, p, h)
  }

  /** A phi has an operand for every predecessor and no other block. */
  ghost predicate Complete(p: Phi, preds: set<BlockId>) {
    forall b :: PhiChoice(p.pairs, b).Some? <==> b in preds
  }

  /** No block has two pairs. */
  predicate OncePairs(ps: seq<(Operand, BlockId)>) {
    forall i, j :: 0 <= i < j < |ps| ==> ps[i].1 != ps[j].1
  }

  /** It has one operand for each, and no others. */
  ghost predicate JustFor(p: Phi, preds: set<BlockId>) {
    Complete(p, preds) && OncePairs(p.pairs)
  }

  /** Every phi of block `b` has an operand for every block that jumps to `b`, and for no other. */
  ghost predicate PhisComplete(f: Function, b: BlockId) {
    b in f.blocks && forall j :: 0 <= j < |f.blocks[b].phis| ==> Complete(f.blocks[b].phis[j], Preds(f, b))
  }

  /** and only one. */
  predicate PhisOnce(f: Function, b: BlockId) {
    b in f.blocks && forall j :: 0 <= j < |f.blocks[b].phis| ==> OncePairs(f.blocks[b].phis[j].pairs)
  }
}
