/** The instructions of a basic block: one circular doubly linked list around an end node, the phis and
    allocas in front, with a pointer to the first of the other instructions and a count for each part. */
module InstructionList {
  import IR

  datatype Kind = Phi | Alloca | Common

  datatype Instruction = Instruction(id: nat, kind: Kind)

  predicate IsHead(i: Instruction) {
    i.kind.Phi? || i.kind.Alloca?
  }

  class InstructionListNode {
    var instruction: Instruction
    var next: InstructionListNode?
    var pre: InstructionListNode?

    constructor (instruction: Instruction, next: InstructionListNode?, pre: InstructionListNode?)
      ensures this.instruction == instruction && this.next == next && this.pre == pre
    {
      this.instruction, this.next, this.pre := instruction, next, pre;
    }
  }

  type Node = InstructionListNode

  predicate Distinct(s: seq<Node>) {
    forall j, k :: 0 <= j < k < |s| ==> s[j] != s[k]
  }

  /** The nodes around the ring, the end node standing before the first and after the last. */
  function Ring(end: Node, nodes: seq<Node>, k: int): Node
    requires -1 <= k <= |nodes|
  {
    if 0 <= k < |nodes| then nodes[k] else end
  }

  /** Neighbours point to each other. */
  ghost predicate LinkedAt(end: Node, nodes: seq<Node>, k: int)
    requires -1 <= k < |nodes|
    reads end, nodes
  {
    Ring(end, nodes, k).next == Ring(end, nodes, k + 1) && Ring(end, nodes, k + 1).pre == Ring(end, nodes, k)
  }

  ghost predicate Linked(end: Node, nodes: seq<Node>)
    reads end, nodes
  {
    end !in nodes && Distinct(nodes) && forall k :: -1 <= k < |nodes| ==> LinkedAt(end, nodes, k)
  }

  function Put<T>(s: seq<T>, k: nat, x: T): seq<T>
    requires k <= |s|
  {
    s[..k] + [x] + s[k..]
  }

  function Cut<T>(s: seq<T>, k: nat): seq<T>
    requires k < |s|
  {
    s[..k] + s[k + 1..]
  }

  ghost function Instructions(nodes: seq<Node>): (r: seq<Instruction>)
    reads nodes
    ensures |r| == |nodes| && forall k :: 0 <= k < |nodes| ==> r[k] == nodes[k].instruction
  {
    seq(|nodes|, k requires 0 <= k < |nodes| reads nodes => nodes[k].instruction)
  }

  /** `node->pre->next = node; node->next->pre = node`, for a node that stands before the `k`th. */
  method LinkIn(end: Node, node: Node, ghost nodes: seq<Node>, ghost k: nat)
    requires Linked(end, nodes) && k <= |nodes| && node !in nodes && node != end
    requires node.pre == Ring(end, nodes, k - 1) && node.next == Ring(end, nodes, k)
    modifies node.pre`next, node.next`pre
    ensures Linked(end, Put(nodes, k, node))
  {
    node.pre.next := node;
    node.next.pre := node;
    ghost var new' := Put(nodes, k, node);
    PutDistinct(nodes, k, node);
    forall j | -1 <= j < |new'| ensures LinkedAt(end, new', j) {
      if j < k - 1 {
        assert old(LinkedAt(end, nodes, j));
      } else if j > k {
        assert old(LinkedAt(end, nodes, j - 1));
      }
    }
  }

  lemma PutDistinct(nodes: seq<Node>, k: nat, node: Node)
    requires Distinct(nodes) && k <= |nodes| && node !in nodes
    ensures Distinct(Put(nodes, k, node)) && forall x :: x in Put(nodes, k, node) <==> x == node || x in nodes
  {
  }

  lemma CutDistinct(nodes: seq<Node>, k: nat)
    requires Distinct(nodes) && k < |nodes|
    ensures Distinct(Cut(nodes, k)) && forall x :: x in Cut(nodes, k) ==> x in nodes
    ensures nodes[k] !in Cut(nodes, k)
  {
  }

  /** `node->pre->next = node->next; node->next->pre = node->pre`. */
  method LinkOut(end: Node, node: Node, ghost nodes: seq<Node>, ghost k: nat)
    requires Linked(end, nodes) && k < |nodes| && nodes[k] == node && node.pre != null && node.next != null
    modifies node.pre`next, node.next`pre
    ensures Linked(end, Cut(nodes, k))
  {
    assert LinkedAt(end, nodes, k - 1) && LinkedAt(end, nodes, k);
    node.pre.next := node.next;
    node.next.pre := node.pre;
    ghost var new' := Cut(nodes, k);
    CutDistinct(nodes, k);
    forall j | -1 <= j < |new'| ensures LinkedAt(end, new', j) {
      if j < k - 1 {
        assert old(LinkedAt(end, nodes, j));
      } else if j >= k {
        assert old(LinkedAt(end, nodes, j + 1));
      }
    }
  }

  /** As `Linked`, but the nodes after the `gap`th are not joined to it yet. */
  ghost predicate OpenAt(end: Node, nodes: seq<Node>, gap: int)
    requires -1 <= gap < |nodes| + 1
    reads end, nodes
  {
    end !in nodes && Distinct(nodes) && forall k :: -1 <= k < |nodes| && k != gap ==> LinkedAt(end, nodes, k)
  }

  /** A copy behind the `gap`th node. */
  method AppendOne(end: Node, append: Node, x: Instruction, ghost nodes: seq<Node>, ghost gap: int) returns (node: Node)
    requires -1 <= gap < |nodes| && OpenAt(end, nodes, gap) && append == Ring(end, nodes, gap)
    modifies append`next
    ensures fresh(node) && node.instruction == x && OpenAt(end, Put(nodes, gap + 1, node), gap + 1)
  {
    node := new InstructionListNode(x, null, append);
    append.next := node;
    ghost var new' := Put(nodes, gap + 1, node);
    PutDistinct(nodes, gap + 1, node);
    forall j | -1 <= j < |new'| && j != gap + 1 ensures LinkedAt(end, new', j) {
      if j < gap {
        assert old(LinkedAt(end, nodes, j));
      } else if j > gap + 1 {
        assert old(LinkedAt(end, nodes, j - 1));
      }
    }
  }

  lemma OpenApart(end: Node, nodes: seq<Node>, gap: int)
    requires -1 <= gap < |nodes| && OpenAt(end, nodes, gap)
    ensures end !in nodes && Distinct(nodes)
  {
  }

  /** The last copy is joined to what follows. */
  method Close(end: Node, append: Node, stop: Node, ghost nodes: seq<Node>, ghost gap: int)
    requires -1 <= gap < |nodes| && OpenAt(end, nodes, gap) && append == Ring(end, nodes, gap)
             && stop == Ring(end, nodes, gap + 1)
    modifies append`next, stop`pre
    ensures Linked(end, nodes)
  {
    append.next := stop;
    stop.pre := append;
    forall j | -1 <= j < |nodes| ensures LinkedAt(end, nodes, j) {
      if j != gap {
        assert old(LinkedAt(end, nodes, j));
      }
    }
  }

  /** Heads first: exactly the first `p` instructions are phis and allocas. */
  predicate HeadsFirst(s: seq<Instruction>, p: nat) {
    p <= |s| && forall k :: 0 <= k < |s| ==> (IsHead(s[k]) <==> k < p)
  }

  /** Where an instruction may be put. */
  lemma PutHeads(s: seq<Instruction>, p: nat, k: nat, x: Instruction)
    requires HeadsFirst(s, p) && k <= |s| && (if IsHead(x) then k <= p else k >= p)
    ensures var p' := if IsHead(x) then p + 1 else p;
            && HeadsFirst(Put(s, k, x), p')
            && Put(s, k, x)[..p'] == (if IsHead(x) then Put(s[..p], k, x) else s[..p])
            && Put(s, k, x)[p'..] == (if IsHead(x) then s[p..] else Put(s[p..], k - p, x))
  {
  }

  lemma CutHeads(s: seq<Instruction>, p: nat, k: nat)
    requires HeadsFirst(s, p) && k < |s|
    ensures var p' := if k < p then p - 1 else p;
            && HeadsFirst(Cut(s, k), p')
            && Cut(s, k)[..p'] == (if k < p then Cut(s[..p], k) else s[..p])
            && Cut(s, k)[p'..] == (if k < p then s[p..] else Cut(s[p..], k - p))
            && (IsHead(s[k]) <==> k < p)
  {
    if k < p {
      assert Cut(s, k)[..p - 1] == Cut(s[..p], k) && Cut(s, k)[p - 1..] == s[p..];
    } else {
      assert Cut(s, k)[..p] == s[..p] && Cut(s, k)[p..] == Cut(s[p..], k - p);
    }
  }

  class InstructionList {
    const endNode: Node
    var commonInstBegin: Node
    var phiAllocaSize: nat
    var commonInstSize: nat
    /** The nodes in order, without the end node. */
    ghost var nodes: seq<Node>

    ghost predicate Valid()
      reads this, endNode, nodes
    {
      && Linked(endNode, nodes) && phiAllocaSize + commonInstSize == |nodes|
      && commonInstBegin == Ring(endNode, nodes, phiAllocaSize)
      && HeadsFirst(Instructions(nodes), phiAllocaSize)
    }

    /** The phis and allocas. */
    ghost function Heads(): seq<Instruction>
      requires Valid()
      reads this, endNode, nodes
    {
      Instructions(nodes)[..phiAllocaSize]
    }

    /** The other instructions. */
    ghost function Commons(): seq<Instruction>
      requires Valid()
      reads this, endNode, nodes
    {
      Instructions(nodes)[phiAllocaSize..]
    }

    constructor ()
      ensures Valid() && Heads() == [] && Commons() == [] && nodes == [] && fresh(endNode)
    {
      var end := new InstructionListNode(Instruction(0, Common), null, null);
      end.next, end.pre := end, end;
      endNode, commonInstBegin, phiAllocaSize, commonInstSize, nodes := end, end, 0, 0, [];
      new;
      assert LinkedAt(endNode, nodes, -1);
    }

    lemma Parts()
      requires Valid()
      ensures Linked(endNode, nodes) && phiAllocaSize + commonInstSize == |nodes|
      ensures commonInstBegin == Ring(endNode, nodes, phiAllocaSize) && HeadsFirst(Instructions(nodes), phiAllocaSize)
      ensures Heads() == Instructions(nodes)[..phiAllocaSize] && Commons() == Instructions(nodes)[phiAllocaSize..]
    {
      hide Linked, Instructions, HeadsFirst, Ring;
    }

    lemma Whole()
      requires Linked(endNode, nodes) && phiAllocaSize + commonInstSize == |nodes|
      requires commonInstBegin == Ring(endNode, nodes, phiAllocaSize) && HeadsFirst(Instructions(nodes), phiAllocaSize)
      ensures Valid() && Heads() == Instructions(nodes)[..phiAllocaSize]
              && Commons() == Instructions(nodes)[phiAllocaSize..]
    {
      hide Linked, Instructions, HeadsFirst, Ring;
    }

    lemma RingParts(k: int)
      requires Linked(endNode, nodes) && -1 <= k <= |nodes|
      ensures LinkedParts(endNode, nodes) && endNode !in nodes
      ensures Ring(endNode, nodes, k) == if 0 <= k < |nodes| then nodes[k] else endNode
      ensures k < |nodes| ==> Ring(endNode, nodes, k).next == Ring(endNode, nodes, k + 1)
      ensures k >= 0 ==> Ring(endNode, nodes, k).pre == Ring(endNode, nodes, k - 1)
      ensures Ring(endNode, nodes, k).next != null && Ring(endNode, nodes, k).pre != null
    {
      if k < |nodes| { assert LinkedAt(endNode, nodes, k); }
      if k >= 0 { assert LinkedAt(endNode, nodes, k - 1); }
      if k == |nodes| { assert LinkedAt(endNode, nodes, -1); }
      if k == -1 { assert LinkedAt(endNode, nodes, |nodes| - 1); }
    }

    /** A new node for `x` between the nodes before and at `at`, the `k`th. */
    method Splice(x: Instruction, at: Node, ghost k: nat) returns (node: Node)
      requires Linked(endNode, nodes) && k <= |nodes| && at == Ring(endNode, nodes, k) && at.pre != null
      modifies at`pre, at.pre`next, this`nodes
      ensures fresh(node) && node.instruction == x && nodes == Put(old(nodes), k, node) && Linked(endNode, nodes)
      ensures Instructions(nodes) == Put(old(Instructions(nodes)), k, x)
    {
      assert LinkedAt(endNode, nodes, k - 1);
      node := new InstructionListNode(x, at, at.pre);
      LinkIn(endNode, node, nodes, k);
      nodes := Put(nodes, k, node);
    }

    method EmplaceBackCommonInst(x: Instruction)
      requires Valid() && !IsHead(x)
      modifies this, endNode, nodes
      ensures Valid() && Heads() == old(Heads()) && Commons() == old(Commons()) + [x]
      ensures fresh(set n | n in nodes && n !in old(nodes))
    {
      hide *;
      Parts();
      RingParts(|nodes| - 1);
      RingParts(|nodes|);
      RingParts(phiAllocaSize);
      PutHeads(Instructions(nodes), phiAllocaSize, |nodes|, x);
      ghost var was := nodes;
      var node := Splice(x, endNode, |nodes|);
      PutAt(was, |was|, node);
      PutEnds(old(Heads()), x);
      PutEnds(old(Commons()), x);
      if commonInstBegin == endNode { commonInstBegin := node; }
      commonInstSize := commonInstSize + 1;
      RingParts(phiAllocaSize);
      Whole();
    }

    method EmplaceBackPhiAllocaInst(x: Instruction)
      requires Valid() && IsHead(x)
      modifies this, endNode, nodes
      ensures Valid() && Heads() == old(Heads()) + [x] && Commons() == old(Commons())
      ensures fresh(set n | n in nodes && n !in old(nodes))
    {
      hide *;
      Parts();
      RingParts(phiAllocaSize - 1);
      RingParts(phiAllocaSize);
      RingParts(phiAllocaSize);
      PutHeads(Instructions(nodes), phiAllocaSize, phiAllocaSize, x);
      ghost var was := nodes;
      var node := Splice(x, commonInstBegin, phiAllocaSize);
      PutAt(was, phiAllocaSize, node);
      PutEnds(old(Heads()), x);
      PutEnds(old(Commons()), x);
      phiAllocaSize := phiAllocaSize + 1;
      RingParts(phiAllocaSize);
      Whole();
    }

    method EmplaceFrontPhiAllocaInst(x: Instruction)
      requires Valid() && IsHead(x)
      modifies this, endNode, nodes
      ensures Valid() && Heads() == [x] + old(Heads()) && Commons() == old(Commons())
      ensures fresh(set n | n in nodes && n !in old(nodes))
    {
      hide *;
      Parts();
      RingParts(0);
      RingParts(phiAllocaSize);
      PutHeads(Instructions(nodes), phiAllocaSize, 0, x);
      ghost var was := nodes;
      RingParts(-1);
      var node := Splice(x, endNode.next, 0);
      PutAt(was, 0, node);
      PutEnds(old(Heads()), x);
      PutEnds(old(Commons()), x);
      phiAllocaSize := phiAllocaSize + 1;
      RingParts(phiAllocaSize);
      Whole();
    }

    method EmplaceFrontCommonInst(x: Instruction)
      requires Valid() && !IsHead(x)
      modifies this, endNode, nodes
      ensures Valid() && Heads() == old(Heads()) && Commons() == [x] + old(Commons())
      ensures fresh(set n | n in nodes && n !in old(nodes))
    {
      hide *;
      Parts();
      RingParts(phiAllocaSize - 1);
      RingParts(phiAllocaSize);
      RingParts(phiAllocaSize);
      PutHeads(Instructions(nodes), phiAllocaSize, phiAllocaSize, x);
      ghost var was := nodes;
      var node := Splice(x, commonInstBegin, phiAllocaSize);
      PutAt(was, phiAllocaSize, node);
      PutEnds(old(Heads()), x);
      PutEnds(old(Commons()), x);
      commonInstBegin := node;
      commonInstSize := commonInstSize + 1;
      RingParts(phiAllocaSize);
      Whole();
    }

    method EmplaceBack(x: Instruction)
      requires Valid()
      modifies this, endNode, nodes
      ensures Valid() && Heads() == (if IsHead(x) then old(Heads()) + [x] else old(Heads()))
      ensures Commons() == (if IsHead(x) then old(Commons()) else old(Commons()) + [x])
      ensures fresh(set n | n in nodes && n !in old(nodes))
    {
      if IsHead(x) { EmplaceBackPhiAllocaInst(x); } else { EmplaceBackCommonInst(x); }
    }

    method EmplaceFront(x: Instruction)
      requires Valid()
      modifies this, endNode, nodes
      ensures Valid() && Heads() == (if IsHead(x) then [x] + old(Heads()) else old(Heads()))
      ensures Commons() == (if IsHead(x) then old(Commons()) else [x] + old(Commons()))
      ensures fresh(set n | n in nodes && n !in old(nodes))
    {
      if IsHead(x) { EmplaceFrontPhiAllocaInst(x); } else { EmplaceFrontCommonInst(x); }
    }

    /** Unlinks the `k`th node; the boundary and the counts are the caller's business. */
    method Unlink(node: Node, ghost k: nat)
      requires Linked(endNode, nodes) && k < |nodes| && nodes[k] == node && node.pre != null && node.next != null
      modifies node.pre`next, node.next`pre, this`nodes
      ensures nodes == Cut(old(nodes), k) && Linked(endNode, nodes)
      ensures Instructions(nodes) == Cut(old(Instructions(nodes)), k)
    {
      LinkOut(endNode, node, nodes, k);
      nodes := Cut(nodes, k);
    }

    /** What is left of the two parts when the `k`th instruction is gone. */
    ghost predicate Lost(heads: seq<Instruction>, commons: seq<Instruction>, k: nat)
      requires Valid()
      reads this, endNode, nodes
    {
      if k < |heads| then Heads() == Cut(heads, k) && Commons() == commons
      else k - |heads| < |commons| && Heads() == heads && Commons() == Cut(commons, k - |heads|)
    }

    /** `erase` of a node: the end node is left alone. */
    method Erase(node: Node, ghost k: nat) returns (ret: IR.Option<Instruction>)
      requires Valid() && (node == endNode || (k < |nodes| && nodes[k] == node))
      modifies this, endNode, nodes
      ensures Valid()
      ensures node == endNode ==>
                ret == IR.None && Heads() == old(Heads()) && Commons() == old(Commons()) && nodes == old(nodes)
      ensures node != endNode ==> ret == IR.Some(old(Instructions(nodes))[k]) && Lost(old(Heads()), old(Commons()), k)
                                  && nodes == Cut(old(nodes), k)
    {
      hide *;
      Parts();
      if node == endNode {
        return IR.None;
      }
      RingParts(k - 1);
      RingParts(k);
      RingParts(k + 1);
      CutRing(endNode, nodes, phiAllocaSize, k);
      CutHeads(Instructions(nodes), phiAllocaSize, k);
      InstructionAt(k);
      ghost var heads, commons := Heads(), Commons();
      var i := node.instruction;
      var after := node.next;
      Unlink(node, k);
      if node == commonInstBegin { commonInstBegin := after; }
      if IsHead(i) { phiAllocaSize := phiAllocaSize - 1; } else { commonInstSize := commonInstSize - 1; }
      Whole();
      LostIs(heads, commons, k);
      return IR.Some(i);
    }

    /** The last instruction, of either part. */
    method PopBack() returns (ret: IR.Option<Instruction>)
      requires Valid()
      modifies this, endNode, nodes
      ensures Valid()
      ensures old(Heads() + Commons()) == [] ==> ret == IR.None && Heads() == [] && Commons() == []
      ensures old(Commons()) == [] && old(Heads()) != [] ==>
                ret == IR.Some(old(Heads())[|old(Heads())| - 1]) && Heads() == old(Heads())[..|old(Heads())| - 1]
                    && Commons() == []
      ensures old(Commons()) != [] ==>
                ret == IR.Some(old(Commons())[|old(Commons())| - 1]) && Heads() == old(Heads())
                && Commons() == old(Commons())[..|old(Commons())| - 1]
    {
      hide *;
      Parts();
      if commonInstSize == 0 && phiAllocaSize == 0 {
        return IR.None;
      }
      ghost var k := |nodes| - 1;
      RingParts(k);
      RingParts(k - 1);
      RingParts(|nodes|);
      CutRing(endNode, nodes, phiAllocaSize, k);
      CutHeads(Instructions(nodes), phiAllocaSize, k);
      InstructionAt(k);
      var target;
      if commonInstSize == 0 {
        target := commonInstBegin.pre;
        ret := IR.Some(target.instruction);
        Unlink(target, k);
        phiAllocaSize := phiAllocaSize - 1;
      } else {
        target := endNode.pre;
        ret := IR.Some(target.instruction);
        Unlink(target, k);
        if commonInstSize == 1 { commonInstBegin := endNode; }
        commonInstSize := commonInstSize - 1;
      }
      CutEnd(old(Heads()));
      CutEnd(old(Commons()));
      Whole();
    }

    /** The search of `remove_first` through the heads. */
    method RemoveFirstHead(x: Instruction) returns (found: bool, ghost j: nat)
      requires Valid()
      modifies this, endNode, nodes
      ensures Valid() && (found ==> First(old(Heads()), j, x) && Lost(old(Heads()), old(Commons()), j))
      ensures !found ==> x !in old(Heads()) && Heads() == old(Heads()) && Commons() == old(Commons())
    {
      hide *;
      Parts();
      RingParts(-1);
      RingParts(0);
      ghost var heads, commons := Heads(), Commons();
      j := 0;
      var node := endNode.next;
      while node != commonInstBegin
        invariant Valid() && nodes == old(nodes) && j <= |heads| == phiAllocaSize <= |nodes|
                  && node == Ring(endNode, nodes, j)
        invariant heads == Heads() && commons == Commons() && forall i :: 0 <= i < j ==> heads[i] != x
        decreases |heads| - j
      {
        Parts();
        RingParts(j);
        RingParts(j + 1);
        AtBoundary(j);
        InstructionAt(j);
        if node.instruction == x {
          var ret := Erase(node, j);
          FirstIs(heads, j, x);
          return true, j;
        }
        node := node.next;
        j := j + 1;
      }
      Parts();
      AtBoundary(j);
      return false, 0;
    }

    /** The search of `remove_first` through the common instructions. */
    method RemoveFirstCommon(x: Instruction) returns (found: bool, ghost j: nat)
      requires Valid()
      modifies this, endNode, nodes
      ensures Valid() && (found ==>
                First(old(Commons()), j, x) && Lost(old(Heads()), old(Commons()), |old(Heads())| + j))
      ensures !found ==> x !in old(Commons()) && Heads() == old(Heads()) && Commons() == old(Commons())
    {
      hide *;
      Parts();
      ghost var heads, commons := Heads(), Commons();
      ghost var p := phiAllocaSize;
      j := 0;
      var node := commonInstBegin;
      while node != endNode
        invariant Valid() && nodes == old(nodes) && |heads| == p && p + j <= |nodes| == p + |commons|
        invariant node == Ring(endNode, nodes, p + j) && heads == Heads() && commons == Commons()
        invariant forall i :: 0 <= i < j ==> commons[i] != x
        decreases |commons| - j
      {
        Parts();
        RingParts(p + j);
        RingParts(p + j + 1);
        InstructionAt(p + j);
        if node.instruction == x {
          var ret := Erase(node, p + j);
          FirstIs(commons, j, x);
          return true, j;
        }
        node := node.next;
        j := j + 1;
      }
      Parts();
      RingParts(p + j);
      return false, 0;
    }

    /** Removes the first instruction that is `x` from its part; it was the `j`th there. */
    method RemoveFirst(x: Instruction) returns (found: bool, ghost j: nat)
      requires Valid()
      modifies this, endNode, nodes
      ensures Valid()
      ensures var part := if IsHead(x) then old(Heads()) else old(Commons());
              && (found ==>
                  First(part, j, x) && Lost(old(Heads()), old(Commons()), if IsHead(x) then j else |old(Heads())| + j))
              && (!found ==> x !in part && Heads() == old(Heads()) && Commons() == old(Commons()))
    {
      hide *;
      if IsHead(x) {
        found, j := RemoveFirstHead(x);
      } else {
        found, j := RemoveFirstCommon(x);
      }
    }

    /** The search of `remove_last` through the heads. */
    method RemoveLastHead(x: Instruction) returns (found: bool, ghost j: nat)
      requires Valid()
      modifies this, endNode, nodes
      ensures Valid() && (found ==> Last(old(Heads()), j, x) && Lost(old(Heads()), old(Commons()), j))
      ensures !found ==> x !in old(Heads()) && Heads() == old(Heads()) && Commons() == old(Commons())
    {
      hide *;
      Parts();
      ghost var heads, commons := Heads(), Commons();
      ghost var k: int := phiAllocaSize - 1;
      RingParts(phiAllocaSize);
      RingParts(k);
      var node := commonInstBegin.pre;
      while node != endNode
        invariant Valid() && nodes == old(nodes) && -1 <= k < |heads| <= |nodes| && node == Ring(endNode, nodes, k)
        invariant heads == Heads() && commons == Commons() && forall i :: k < i < |heads| ==> heads[i] != x
        decreases k
      {
        Parts();
        RingParts(k);
        RingParts(k - 1);
        InstructionAt(k);
        if node.instruction == x {
          var ret := Erase(node, k);
          LastIs(heads, k, x);
          return true, k;
        }
        node := node.pre;
        k := k - 1;
      }
      Parts();
      RingParts(k);
      return false, 0;
    }

    /** The search of `remove_last` through the common instructions: the first one is looked at first. */
    method RemoveLastCommon(x: Instruction) returns (found: bool, ghost j: nat)
      requires Valid()
      modifies this, endNode, nodes
      ensures Valid()
      ensures found ==> (if old(Commons()) != [] && old(Commons())[0] == x then j == 0 else Last(old(Commons()), j, x))
                        && Lost(old(Heads()), old(Commons()), |old(Heads())| + j)
      ensures !found ==> x !in old(Commons()) && Heads() == old(Heads()) && Commons() == old(Commons())
    {
      hide *;
      Parts();
      ghost var heads, commons := Heads(), Commons();
      ghost var p := phiAllocaSize;
      RingParts(p);
      if commonInstBegin == endNode {
        return false, 0;
      }
      InstructionAt(p);
      if commonInstBegin.instruction == x {
        var ret := Erase(commonInstBegin, p);
        return true, 0;
      }
      ghost var k: int := |nodes| - 1;
      RingParts(|nodes|);
      RingParts(k);
      var node := endNode.pre;
      while node != commonInstBegin
        invariant Valid() && nodes == old(nodes) && |heads| == p <= k < |nodes| == p + |commons|
                  && node == Ring(endNode, nodes, k)
        invariant heads == Heads() && commons == Commons() && phiAllocaSize == p && commons[0] != x
        invariant forall i :: k - p < i < |commons| ==> commons[i] != x
        decreases k
      {
        Parts();
        RingParts(k);
        RingParts(k - 1);
        AtBoundary(k);
        InstructionAt(k);
        if node.instruction == x {
          var ret := Erase(node, k);
          LastIs(commons, k - p, x);
          return true, k - p;
        }
        node := node.pre;
        k := k - 1;
      }
      Parts();
      AtBoundary(k);
      return false, 0;
    }

    /** Removes an instruction that is `x` from its part, looking from the end; but a first common instruction
        that is `x` goes even when there is a later one. */
    method RemoveLast(x: Instruction) returns (found: bool, ghost j: nat)
      requires Valid()
      modifies this, endNode, nodes
      ensures Valid()
      ensures var part := if IsHead(x) then old(Heads()) else old(Commons());
              && (found ==> (if !IsHead(x) && part != [] && part[0] == x then j == 0 else Last(part, j, x))
                            && Lost(old(Heads()), old(Commons()), if IsHead(x) then j else |old(Heads())| + j))
              && (!found ==> x !in part && Heads() == old(Heads()) && Commons() == old(Commons()))
      ensures found ==> (Last(if IsHead(x) then old(Heads()) else old(Commons()), j, x)
                <==> IsHead(x) || !FrontAgain(old(Commons()), x))
    {
      hide *;
      ghost var commons := Commons();
      if IsHead(x) {
        found, j := RemoveLastHead(x);
      } else {
        found, j := RemoveLastCommon(x);
        if found { FrontOrLast(commons, j, x); }
      }
    }

    /** The node at the boundary is the only one there. */
    lemma AtBoundary(k: nat)
      requires Valid() && k <= |nodes|
      ensures phiAllocaSize <= |nodes| && (Ring(endNode, nodes, k) == commonInstBegin <==> k == phiAllocaSize)
    {
    }

    /** The `idx`th common instruction from the end. */
    method GetCommonInstructionFromEnd(idx: nat) returns (ret: IR.Option<Instruction>)
      requires Valid()
      ensures ret == if idx < |Commons()| then IR.Some(Commons()[|Commons()| - 1 - idx]) else IR.None
    {
      hide *;
      Parts();
      if commonInstSize <= idx {
        return IR.None;
      }
      RingParts(|nodes|);
      RingParts(|nodes| - 1);
      var it := endNode.pre;
      for i := 0 to idx
        invariant it == Ring(endNode, nodes, |nodes| - 1 - i)
      {
        RingParts(|nodes| - 1 - i);
        it := it.pre;
      }
      RingParts(|nodes| - 1 - idx);
      InstructionAt(|nodes| - 1 - idx);
      return IR.Some(it.instruction);
    }

    /** `idx` steps back from the end node. */
    method FromEnd(idx: nat) returns (it: Node)
      requires Valid() && idx <= commonInstSize
      ensures Valid() && idx <= |nodes| && it == Ring(endNode, nodes, |nodes| - idx)
      ensures Heads() == old(Heads()) && Commons() == old(Commons()) && Instructions(nodes) == old(Instructions(nodes))
    {
      hide *;
      Parts();
      it := endNode;
      RingParts(|nodes|);
      for i := 0 to idx
        invariant it == Ring(endNode, nodes, |nodes| - i)
      {
        RingParts(|nodes| - i);
        it := it.pre;
      }
    }

    /** Puts a common instruction in so that `idx` others follow it. */
    method EmplaceCommonInstFromEnd(x: Instruction, idx: nat) returns (done: bool)
      requires Valid()
      modifies this, endNode, nodes
      ensures Valid() && Heads() == old(Heads()) && (done <==> !IsHead(x) && idx <= |old(Commons())|)
      ensures Commons() == if done then Put(old(Commons()), |old(Commons())| - idx, x) else old(Commons())
    {
      hide *;
      Parts();
      HeadIs(x);
      if IsHead(x) || commonInstSize < idx {
        return false;
      }
      var it := FromEnd(idx);
      Parts();
      InsertCommon(x, it, |nodes| - idx);
      return true;
    }

    /** A common instruction between the nodes before and at `at`.  Where no head follows it is the right place. */
    method InsertCommon(x: Instruction, at: Node, ghost k: nat)
      requires Valid() && !IsHead(x) && k <= |nodes| && at == Ring(endNode, nodes, k)
      modifies this, endNode, nodes
      ensures k - |old(Heads())| <= |old(Commons())|
      ensures k >= |old(Heads())| ==>
                Valid() && Heads() == old(Heads()) && Commons() == Put(old(Commons()), k - |old(Heads())|, x)
      ensures k < |old(Heads())| ==> !Valid() && All() == Put(old(Heads()), k, x) + old(Commons())
    {
      hide *;
      Parts();
      RingParts(k);
      RingParts(k - 1);
      RingParts(phiAllocaSize);
      AtBoundary(k);
      ghost var p, was, code := phiAllocaSize, nodes, Instructions(nodes);
      var node := Splice(x, at, k);
      PutAt(was, k, node);
      if at == commonInstBegin { commonInstBegin := node; }
      commonInstSize := commonInstSize + 1;
      if k >= p {
        PutHeads(code, p, k, x);
        RingParts(p);
        Whole();
      } else {
        NotHeadsFirst(code, p, k, x);
        AmongHeads(p);
      }
    }

    /** `emplace_common_inst_after`; `mine` is whether the iterator belongs to this list.  Behind an alloca that is
        not the last head, which the test does not refuse, a common instruction ends up among the heads. */
    method EmplaceCommonInstAfter(x: Instruction, current: Node, mine: bool, ghost k: nat) returns (done: bool)
      requires Valid() && (mine ==> current == endNode || (k < |nodes| && nodes[k] == current))
      modifies this, endNode, nodes
      ensures done <==> !IsHead(x) && mine && current != endNode
                        && !(old(current.instruction.kind.Phi?) && k + 1 != |old(Heads())|)
      ensures !done ==> Valid() && Heads() == old(Heads()) && Commons() == old(Commons())
      ensures done && k + 1 >= |old(Heads())| ==>
                Valid() && Heads() == old(Heads()) && k + 1 - |old(Heads())| <= |old(Commons())|
                && Commons() == Put(old(Commons()), k + 1 - |old(Heads())|, x)
      ensures done && k + 1 < |old(Heads())| ==> !Valid() && All() == Put(old(Heads()), k + 1, x) + old(Commons())
    {
      hide *;
      Parts();
      HeadIs(x);
      if IsHead(x) || !mine || current == endNode {
        return false;
      }
      RingParts(k);
      RingParts(k + 1);
      AtBoundary(k + 1);
      if current.instruction.kind.Phi? && current.next != commonInstBegin {
        return false;
      }
      PartSizes(k);
      InsertCommon(x, current.next, k + 1);
      return true;
    }

    lemma FirstNode()
      requires Valid() && Heads() != []
      ensures endNode.next != null && nodes != [] && nodes[0] == endNode.next && endNode.next != endNode
      ensures endNode.next.instruction == Heads()[0]
    {
      assert LinkedAt(endNode, nodes, -1);
    }

    /** All instructions in order, whether or not the heads come first. */
    ghost function All(): seq<Instruction>
      reads this, nodes
    {
      Instructions(nodes)
    }

    lemma AmongHeads(p: nat)
      requires p == phiAllocaSize && !HeadsFirst(Instructions(nodes), p)
      ensures !Valid() && All() == Instructions(nodes)
    {
      hide HeadsFirst, Instructions, Linked;
    }

    lemma PartSizes(k: nat)
      requires Valid() && k < |nodes|
      ensures k + 1 <= |nodes| && |Heads()| == phiAllocaSize && |Commons()| == |nodes| - phiAllocaSize
    {
    }

    /** The nodes of the two lists are not the same. */
    ghost predicate Unshared(other: InstructionList)
      reads this`nodes, other`nodes
    {
      other != this && endNode != other.endNode && endNode !in other.nodes && other.endNode !in nodes
      && forall n :: n in nodes ==> n !in other.nodes
    }

    /** One copy. */
    method CopyStep(other: InstructionList, append: Node, x: Instruction, ghost gap: int) returns (node: Node)
      requires -1 <= gap < |nodes| && OpenAt(endNode, nodes, gap) && append == Ring(endNode, nodes, gap)
      requires Unshared(other) && Linked(other.endNode, other.nodes)
      modifies append`next, this`nodes
      ensures fresh(node) && nodes == Put(old(nodes), gap + 1, node) && OpenAt(endNode, nodes, gap + 1)
      ensures Instructions(nodes) == Put(old(Instructions(nodes)), gap + 1, x)
      ensures Unshared(other) && Linked(other.endNode, other.nodes)
      ensures Instructions(other.nodes) == old(Instructions(other.nodes))
    {
      hide LinkedAt, Distinct, Linked, OpenAt;
      OpenApart(endNode, nodes, gap);
      assert append == endNode || append in nodes;
      node := AppendOne(endNode, append, x, nodes, gap);
      nodes := Put(nodes, gap + 1, node);
      PutAt(old(nodes), gap + 1, node);
    }

    /** Where the copying is: `t - i` copies stand before `stop`. */
    ghost predicate Copied(other: InstructionList, was: seq<Node>, code: seq<Instruction>, from: seq<Instruction>,
                           append: Node, stop: Node,
        i: nat, t: nat, k: nat)
      reads this, endNode, nodes, other, other.endNode, other.nodes
    {
      && i <= t <= |from| == |other.nodes| && k <= |was| == |code| && |nodes| == |was| + t - i
      && OpenAt(endNode, nodes, k - 1 + t - i) && append == Ring(endNode, nodes, k - 1 + t - i)
      && stop == Ring(endNode, nodes, k + t - i)
      && Instructions(nodes) == code[..k] + from[i..t] + code[k..]
      && Unshared(other) && Linked(other.endNode, other.nodes) && Instructions(other.nodes) == from
      && nodes[..k] == was[..k] && nodes[k + t - i..] == was[k..]
    }

    /** One turn of the loop. */
    method CopyTurn(other: InstructionList, ghost was: seq<Node>, ghost code: seq<Instruction>,
                    ghost from: seq<Instruction>,
        append: Node, b: Node, ghost stop: Node, ghost i: nat, ghost t: nat,
            ghost k: nat) returns (node: Node, b': Node)
      requires Copied(other, was, code, from, append, stop, i, t, k)
      requires t < |other.nodes| && b == Ring(other.endNode, other.nodes, t) && other != this
      modifies append`next, this`nodes
      ensures Copied(other, was, code, from, node, stop, i, t + 1, k) && t + 1 <= |other.nodes|
      ensures b' == Ring(other.endNode, other.nodes, t + 1) && fresh(node)
      ensures forall n :: n in nodes ==> n == node || n in old(nodes)
    {
      hide *;
      CopiedParts(other, was, code, from, append, stop, i, t, k);
      other.RingParts(t);
      other.InstructionAt(t);
      ghost var mid, midCode := nodes, Instructions(nodes);
      node := CopyStep(other, append, b.instruction, k - 1 + t - i);
      PutAt(mid, k + t - i, node);
      OneCopied(other, was, code, from, mid, midCode, node, stop, i, t, k);
      other.RingParts(t);
      other.RingParts(t + 1);
      b' := b.next;
    }

    /** Copies of the `i`th to the `j`th instruction of another list, put in before `stop`, the `k`th node. */
    method AppendCopies(other: InstructionList, b0: Node, e: Node, stop: Node, ghost i: nat, ghost j: nat, ghost k: nat)
      requires Linked(endNode, nodes) && k <= |nodes| && stop == Ring(endNode, nodes, k) && Unshared(other)
      requires Linked(other.endNode, other.nodes) && i <= j <= |other.nodes| && other != this
      requires b0 == Ring(other.endNode, other.nodes, i) && e == Ring(other.endNode, other.nodes, j)
      modifies endNode, nodes, this`nodes
      ensures Linked(endNode, nodes) && |nodes| == |old(nodes)| + j - i
      ensures Instructions(nodes)
           == old(Instructions(nodes))[..k] + old(Instructions(other.nodes))[i..j] + old(Instructions(nodes))[k..]
      ensures nodes[..k] == old(nodes)[..k] && nodes[k + j - i..] == old(nodes)[k..]
      ensures Unshared(other) && Linked(other.endNode, other.nodes)
              && Instructions(other.nodes) == old(Instructions(other.nodes))
      ensures fresh(set n | n in nodes && n !in old(nodes))
    {
      hide *;
      RingParts(k);
      RingParts(k - 1);
      var appendNode: Node := stop.pre;
      var b: Node := b0;
      ghost var t := i;
      ghost var was, code, from := nodes, Instructions(nodes), Instructions(other.nodes);
      NoneCopied(other, appendNode, stop, i, k);
      while b != e
        invariant t <= j <= |other.nodes| && b == Ring(other.endNode, other.nodes, t)
                  && Copied(other, was, code, from, appendNode, stop, i, t, k)
        invariant appendNode == endNode || appendNode in was || fresh(appendNode)
        invariant forall n :: n in nodes ==> n in was || fresh(n)
        invariant e == Ring(other.endNode, other.nodes, j)
        decreases j - t
      {
        appendNode, b := CopyTurn(other, was, code, from, appendNode, b, stop, i, t, k);
        t := t + 1;
      }
      CopiedParts(other, was, code, from, appendNode, stop, i, t, k);
      other.RingParts(t);
      other.RingParts(j);
      other.SameRing(t, j);
      CloseUp(other, appendNode, stop, k - 1 + t - i);
    }

    /** The end of the copying. */
    method CloseUp(other: InstructionList, append: Node, stop: Node, ghost gap: int)
      requires -1 <= gap < |nodes| && OpenAt(endNode, nodes, gap) && append == Ring(endNode, nodes, gap)
      requires stop == Ring(endNode, nodes, gap + 1) && Unshared(other) && Linked(other.endNode, other.nodes)
      modifies append`next, stop`pre
      ensures Linked(endNode, nodes) && Unshared(other) && Linked(other.endNode, other.nodes)
      ensures Instructions(nodes) == old(Instructions(nodes))
              && Instructions(other.nodes) == old(Instructions(other.nodes))
    {
      hide LinkedAt, Distinct, Linked, OpenAt;
      assert append == endNode || append in nodes;
      assert stop == endNode || stop in nodes;
      Close(endNode, append, stop, nodes, gap);
    }

    lemma NoneCopied(other: InstructionList, append: Node, stop: Node, i: nat, k: nat)
      requires Linked(endNode, nodes) && k <= |nodes| && stop == Ring(endNode, nodes, k)
               && append == Ring(endNode, nodes, k - 1)
      requires Unshared(other) && Linked(other.endNode, other.nodes) && i <= |other.nodes|
      ensures Copied(other, nodes, Instructions(nodes), Instructions(other.nodes), append, stop, i, i, k)
    {
      hide LinkedAt, Distinct, Unshared;
      var code := Instructions(nodes);
      assert code == code[..k] + [] + code[k..];
    }

    lemma CopiedParts(other: InstructionList, was: seq<Node>, code: seq<Instruction>, from: seq<Instruction>,
                      append: Node, stop: Node,
        i: nat, t: nat, k: nat)
      requires Copied(other, was, code, from, append, stop, i, t, k)
      ensures i <= t <= |from| == |other.nodes| && k <= |was| == |code| && |nodes| == |was| + t - i
      ensures -1 <= k - 1 + t - i < |nodes| && OpenAt(endNode, nodes, k - 1 + t - i)
              && append == Ring(endNode, nodes, k - 1 + t - i)
      ensures stop == Ring(endNode, nodes, k + t - i)
      ensures Instructions(nodes) == code[..k] + from[i..t] + code[k..]
      ensures Unshared(other) && Linked(other.endNode, other.nodes) && Instructions(other.nodes) == from
      ensures nodes[..k] == was[..k] && nodes[k + t - i..] == was[k..]
    {
      hide LinkedAt, Distinct, Unshared, Instructions;
    }

    lemma OneCopied(other: InstructionList, was: seq<Node>, code: seq<Instruction>, from: seq<Instruction>,
                    mid: seq<Node>,
        midCode: seq<Instruction>, node: Node, stop: Node, i: nat, t: nat, k: nat)
      requires i <= t < |from| == |other.nodes| && k <= |was| == |code| && |mid| == |was| + t - i
      requires midCode == code[..k] + from[i..t] + code[k..] && |midCode| == |mid|
               && stop == Ring(endNode, mid, k + t - i)
      requires mid[..k] == was[..k] && mid[k + t - i..] == was[k..]
      requires nodes == Put(mid, k + t - i, node) && OpenAt(endNode, nodes, k + t - i)
      requires Instructions(nodes) == Put(midCode, k + t - i, from[t])
      requires Unshared(other) && Linked(other.endNode, other.nodes) && Instructions(other.nodes) == from
      ensures Copied(other, was, code, from, node, stop, i, t + 1, k)
    {
      hide LinkedAt, Distinct, Unshared, Instructions, OpenAt, Linked;
      var c := k + t - i;
      assert from[i..t + 1] == from[i..t] + [from[t]];
      assert Put(midCode, c, from[t]) == code[..k] + from[i..t + 1] + code[k..];
      assert Put(mid, c, node)[c + 1..] == mid[c..];
    }

    lemma SameRing(i: nat, j: nat)
      requires Linked(endNode, nodes) && i <= j <= |nodes| && Ring(endNode, nodes, i) == Ring(endNode, nodes, j)
      ensures i == j
    {
    }

    /** The copies of the heads. */
    method CopyHeads(other: InstructionList)
      requires Linked(endNode, nodes) && Linked(other.endNode, other.nodes) && Unshared(other) && other != this
      requires phiAllocaSize <= |nodes| && commonInstBegin == Ring(endNode, nodes, phiAllocaSize)
      requires other.phiAllocaSize <= |other.nodes|
               && other.commonInstBegin == Ring(other.endNode, other.nodes, other.phiAllocaSize)
      modifies endNode, nodes, this`nodes, this`phiAllocaSize
      ensures Linked(endNode, nodes) && Linked(other.endNode, other.nodes) && Unshared(other)
      ensures var p, q := old(phiAllocaSize), other.phiAllocaSize;
              && phiAllocaSize == p + q && |nodes| == |old(nodes)| + q && commonInstBegin == Ring(endNode, nodes, p + q)
              && Instructions(nodes) == old(Instructions(nodes))[..p] + old(Instructions(other.nodes))[0..q]
                  + old(Instructions(nodes))[p..]
      ensures Instructions(other.nodes) == old(Instructions(other.nodes))
      ensures fresh(set n | n in nodes && n !in old(nodes))
    {
      hide *;
      ghost var p, q, was := phiAllocaSize, other.phiAllocaSize, nodes;
      RingParts(p);
      other.RingParts(-1);
      other.RingParts(0);
      other.RingParts(q);
      AppendCopies(other, other.endNode.next, other.commonInstBegin, commonInstBegin, 0, q, p);
      phiAllocaSize := phiAllocaSize + other.phiAllocaSize;
      MovedRing(endNode, was, nodes, p, p + q);
    }

    /** Copies of the heads of another list behind the heads. */
    method AddAllPhiAndAllocas(other: InstructionList)
      requires Valid() && other.Valid() && Unshared(other)
      modifies this, endNode, nodes
      ensures Valid() && other.Valid() && Unshared(other)
      ensures Heads() == old(Heads()) + old(other.Heads()) && Commons() == old(Commons())
      ensures other.Heads() == old(other.Heads()) && other.Commons() == old(other.Commons())
      ensures fresh(set n | n in nodes && n !in old(nodes))
    {
      OtherList(other);
      hide *;
      Parts();
      other.Parts();
      ghost var code, from, p, q := Instructions(nodes), Instructions(other.nodes), phiAllocaSize, other.phiAllocaSize;
      if other.phiAllocaSize > 0 {
        CopyHeads(other);
        HeadsCopied(code, from, p, q);
        other.Whole();
      }
    }

    lemma HeadsCopied(code: seq<Instruction>, from: seq<Instruction>, p: nat, q: nat)
      requires Linked(endNode, nodes) && HeadsFirst(code, p) && HeadsFirst(from, q) && p + commonInstSize == |code|
      requires phiAllocaSize == p + q && |nodes| == |code| + q && commonInstBegin == Ring(endNode, nodes, p + q)
      requires Instructions(nodes) == code[..p] + from[0..q] + code[p..]
      ensures Valid() && Heads() == code[..p] + from[..q] && Commons() == code[p..]
    {
      hide Linked, Instructions, HeadsFirst, Ring;
      HeadsAdded(code, from, p, q);
      Whole();
    }

    lemma OtherList(other: InstructionList)
      requires Unshared(other)
      ensures other != this
    {
    }

    /** The copies of the common instructions. */
    method CopyCommons(other: InstructionList)
      requires Linked(endNode, nodes) && Linked(other.endNode, other.nodes) && Unshared(other) && other != this
      requires phiAllocaSize <= |nodes| && commonInstBegin == Ring(endNode, nodes, phiAllocaSize)
      requires other.phiAllocaSize < |other.nodes|
               && other.commonInstBegin == Ring(other.endNode, other.nodes, other.phiAllocaSize)
      modifies endNode, nodes, this`nodes, this`commonInstBegin
      ensures Linked(endNode, nodes) && Linked(other.endNode, other.nodes)
      ensures var n, q, m := |old(nodes)|, other.phiAllocaSize, |other.nodes|;
              && |nodes| == n + m - q && commonInstBegin == Ring(endNode, nodes, phiAllocaSize)
              && Instructions(nodes) == old(Instructions(nodes))[..n] + old(Instructions(other.nodes))[q..m]
                  + old(Instructions(nodes))[n..]
      ensures Instructions(other.nodes) == old(Instructions(other.nodes))
    {
      hide *;
      ghost var p, q, was := phiAllocaSize, other.phiAllocaSize, nodes;
      RingParts(|nodes|);
      RingParts(|nodes| - 1);
      RingParts(p);
      other.RingParts(q);
      other.RingParts(|other.nodes|);
      var last := endNode.pre;
      AppendCopies(other, other.commonInstBegin, other.endNode, endNode, q, |other.nodes|, |nodes|);
      RingParts(p);
      RingParts(|was| - 1);
      RingParts(|was|);
      KeptRing(endNode, was, nodes, p);
      KeptRing(endNode, was, nodes, |was| - 1);
      if commonInstBegin == endNode { commonInstBegin := last.next; }
    }

    /** Copies of the common instructions of another list at the end. */
    method AddCommons(other: InstructionList)
      requires Valid() && other.Valid() && Unshared(other)
      modifies this, endNode, nodes
      ensures Valid() && other.Valid() && Heads() == old(Heads()) && Commons() == old(Commons()) + old(other.Commons())
      ensures other.Heads() == old(other.Heads()) && other.Commons() == old(other.Commons())
    {
      OtherList(other);
      hide *;
      Parts();
      other.Parts();
      CommonsAdded(Instructions(nodes), Instructions(other.nodes), phiAllocaSize, other.phiAllocaSize);
      if other.commonInstSize > 0 {
        CopyCommons(other);
        commonInstSize := commonInstSize + other.commonInstSize;
        Whole();
        other.Whole();
      }
    }

    method AddAll(other: InstructionList)
      requires Valid() && other.Valid() && Unshared(other)
      modifies this, endNode, nodes
      ensures Valid() && other.Valid()
      ensures Heads() == old(Heads()) + old(other.Heads()) && Commons() == old(Commons()) + old(other.Commons())
      ensures other.Heads() == old(other.Heads()) && other.Commons() == old(other.Commons())
    {
      hide *;
      AddAllPhiAndAllocas(other);
      AddCommons(other);
    }

    lemma HeadIs(x: Instruction)
      ensures IsHead(x) <==> x.kind.Phi? || x.kind.Alloca?
    {
    }

    lemma InstructionAt(k: nat)
      requires k < |nodes|
      ensures Instructions(nodes)[k] == nodes[k].instruction
    {
    }

    lemma LostIs(heads: seq<Instruction>, commons: seq<Instruction>, k: nat)
      requires Valid()
      requires if k < |heads| then Heads() == Cut(heads, k) && Commons() == commons
               else k - |heads| < |commons| && Heads() == heads && Commons() == Cut(commons, k - |heads|)
      ensures Lost(heads, commons, k)
    {
    }
  }

  lemma PutBetween(a: Instruction, b: Instruction, x: Instruction)
    ensures Put([a, b], 1, x) + [] == [a, x, b]
  {
  }

  /** Two allocas, and an instruction put in behind the first: the parts are no longer apart. */
  method PutBetweenAllocas(a: Instruction, b: Instruction, x: Instruction) returns (list: InstructionList)
    requires a.kind.Alloca? && b.kind.Alloca? && x.kind.Common?
    ensures !list.Valid() && list.All() == [a, x, b]
  {
    hide *;
    list := new InstructionList();
    list.HeadIs(a);
    list.HeadIs(b);
    list.HeadIs(x);
    list.EmplaceBack(a);
    list.EmplaceBack(b);
    assert list.Heads() == [a, b] && list.Commons() == [];
    list.FirstNode();
    var done := list.EmplaceCommonInstAfter(x, list.endNode.next, true, 0);
    PutBetween(a, b, x);
  }

  lemma CutFirst(x: Instruction, y: Instruction)
    ensures [] + [x] + [y] + [x] == [x, y, x] && FrontAgain([x, y, x], x)
    ensures Cut([x, y, x], 0) == [y, x]
  {
    assert [x, y, x][1..] == [y, x];
  }

  lemma LostFirst(list: InstructionList, commons: seq<Instruction>)
    requires list.Valid() && list.Lost([], commons, 0) && commons != []
    ensures list.Heads() == [] && list.Commons() == Cut(commons, 0)
  {
  }

  /** Of three instructions, the last like the first, `remove_last` takes away the first. */
  method RemovesTheFirst(x: Instruction, y: Instruction) returns (list: InstructionList)
    requires x.kind.Common? && y.kind.Common? && x != y
    ensures fresh(list) && list.Valid() && list.Heads() == [] && list.Commons() == [y, x]
  {
    hide *;
    list := new InstructionList();
    list.HeadIs(x);
    list.HeadIs(y);
    list.EmplaceBackCommonInst(x);
    list.EmplaceBackCommonInst(y);
    list.EmplaceBackCommonInst(x);
    CutFirst(x, y);
    var found, j := list.RemoveLast(x);
    LostFirst(list, [x, y, x]);
  }

  predicate First(s: seq<Instruction>, j: nat, x: Instruction) {
    j < |s| && s[j] == x && forall i :: 0 <= i < j ==> s[i] != x
  }

  predicate Last(s: seq<Instruction>, j: nat, x: Instruction) {
    j < |s| && s[j] == x && forall i :: j < i < |s| ==> s[i] != x
  }

  /** The first element is `x`, and so is a later one. */
  predicate FrontAgain(s: seq<Instruction>, x: Instruction) {
    s != [] && s[0] == x && x in s[1..]
  }

  lemma FrontOrLast(s: seq<Instruction>, j: nat, x: Instruction)
    requires if s != [] && s[0] == x then j == 0 else Last(s, j, x)
    ensures Last(s, j, x) <==> !FrontAgain(s, x)
  {
    if s != [] && s[0] == x && x !in s[1..] {
      forall i | 0 < i < |s| ensures s[i] != x {
        assert s[1..][i - 1] == s[i];
      }
    }
  }

  lemma FirstIs(s: seq<Instruction>, j: nat, x: Instruction)
    requires j < |s| && s[j] == x && forall i :: 0 <= i < j ==> s[i] != x
    ensures First(s, j, x)
  {
  }

  lemma LastIs(s: seq<Instruction>, j: nat, x: Instruction)
    requires j < |s| && s[j] == x && forall i :: j < i < |s| ==> s[i] != x
    ensures Last(s, j, x)
  {
  }

  lemma CutEnd<T>(s: seq<T>)
    ensures s != [] ==> Cut(s, |s| - 1) == s[..|s| - 1]
  {
  }

  lemma NotHeadsFirst(s: seq<Instruction>, p: nat, k: nat, x: Instruction)
    requires k < p <= |s| && !IsHead(x)
    ensures !HeadsFirst(Put(s, k, x), p) && Put(s, k, x) == Put(s[..p], k, x) + s[p..]
  {
    assert Put(s, k, x)[k] == x;
  }

  /** Heads behind the heads. */
  lemma HeadsAdded(code: seq<Instruction>, from: seq<Instruction>, p: nat, q: nat)
    requires HeadsFirst(code, p) && HeadsFirst(from, q)
    ensures var r := code[..p] + from[0..q] + code[p..];
            HeadsFirst(r, p + q) && r[..p + q] == code[..p] + from[..q] && r[p + q..] == code[p..]
  {
  }

  /** Common instructions at the end. */
  lemma CommonsAdded(code: seq<Instruction>, from: seq<Instruction>, p: nat, q: nat)
    requires HeadsFirst(code, p) && HeadsFirst(from, q)
    ensures var r := code[..|code|] + from[q..|from|] + code[|code|..];
            HeadsFirst(r, p) && r[..p] == code[..p] && r[p..] == code[p..] + from[q..]
  {
  }

  lemma KeptRing(end: Node, was: seq<Node>, now: seq<Node>, p: int)
    requires -1 <= p <= |was| <= |now| && now[..|was|] == was[..|was|]
    ensures p < |was| ==> Ring(end, now, p) == Ring(end, was, p)
  {
    if 0 <= p < |was| { assert now[..|was|][p] == was[..|was|][p]; }
  }

  lemma MovedRing(end: Node, was: seq<Node>, now: seq<Node>, p: nat, p': nat)
    requires p <= |was| && p' <= |now| && now[p'..] == was[p..]
    ensures Ring(end, now, p') == Ring(end, was, p)
  {
  }

  lemma PutEnds<T>(s: seq<T>, x: T)
    ensures Put(s, 0, x) == [x] + s && Put(s, |s|, x) == s + [x]
  {
  }

  /** Where the boundary is when the `k`th node is gone. */
  lemma CutRing(end: Node, s: seq<Node>, p: nat, k: nat)
    requires LinkedParts(end, s) && k < |s| && p <= |s|
    ensures var p' := if k < p then p - 1 else p;
            p' <= |Cut(s, k)| && |Cut(s, k)| == |s| - 1
            && Ring(end, Cut(s, k), p') == if k == p then Ring(end, s, k + 1) else Ring(end, s, p)
    ensures s[k] == Ring(end, s, p) <==> k == p
    ensures s[k] != end
  {
  }

  predicate LinkedParts(end: Node, s: seq<Node>) {
    end !in s && Distinct(s)
  }

  lemma PutAt<T>(s: seq<T>, k: nat, x: T)
    requires k <= |s|
    ensures |Put(s, k, x)| == |s| + 1 && Put(s, k, x)[k] == x && forall y :: y in Put(s, k, x) <==> y == x || y in s
    ensures forall j :: 0 <= j < k ==> Put(s, k, x)[j] == s[j]
    ensures forall j :: k < j <= |s| ==> Put(s, k, x)[j] == s[j - 1]
    ensures k == |s| ==> Put(s, k, x) == s + [x]
    ensures k == 0 ==> Put(s, k, x) == [x] + s
  {
  }
}
