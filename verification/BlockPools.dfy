/** The large blocks as linked lists: the objects behind a store value. */
module BlockPools {
  import opened Sequences
  import opened Layout
  import opened Lists
  import B = Blocks

  // block_t; the item is its size field, which is written once when the block is mapped.
  type BlockNode = Node<nat>

  ghost function Nodes(at: map<nat, BlockNode>): set<object> { set a | a in at :: at[a] }

  ghost predicate SizesSay(at: map<nat, BlockNode>, sizes: map<nat, nat>) {
    && sizes.Keys == at.Keys
    && forall a :: a in at ==> at[a].address == a && at[a].item == sizes[a]
  }

  class BlockPool {
    const free: List<nat>
    const full: List<nat>
    // The block that lies at each mapped base address.
    var at: map<nat, BlockNode>

    ghost function Footprint(): (r: set<object>)
      reads this`at
      ensures this in r
    {
      {this, free, full} + Nodes(at)
    }

    // These objects are the store s.
    ghost predicate Is(s: B.Store)
      reads this, Footprint()
    {
      && SizesSay(at, s.sizes)
      && ListsFit(at, s.free, s.full, free.nodes, full.nodes)
      && free != full && free.Valid() && full.Valid()
    }

    constructor ()
      ensures Is(B.EMPTY_STORE) && fresh(Footprint())
    {
      free := new List();
      full := new List();
      at := map[];
    }

    lemma CellsInside(s: B.Store)
      requires Is(s)
      ensures free.Cells() <= Nodes(at) && full.Cells() <= Nodes(at) && free.Cells() !! full.Cells()
      ensures this !in Nodes(at)
    {
      hide NoDup, Linked;
      forall n: BlockNode | n in free.nodes || n in full.nodes
        ensures n in Nodes(at)
      {
        assert at[n.address] == n;
      }
    }

    // The search of find_free_large_block: the first cached block that is large enough.
    method FindFit(size: nat, ghost s: B.Store) returns (r: Node?<nat>)
      requires Is(s) && forall b :: b in s.free ==> b in s.sizes
      ensures match B.FirstFit(s.free, s.sizes, size)
              case None => r == null
              case Some(b) => r != null && r in free.nodes && r.address == b
    {
      ghost var i := 0;
      r := free.head;
      assert s.free[0..] == s.free;
      while r != null
        invariant 0 <= i <= |free.nodes| == |s.free|
        invariant r == if i < |free.nodes| then free.nodes[i] else null
        invariant forall b :: b in s.free[i..] ==> b in s.sizes
        invariant B.FirstFit(s.free, s.sizes, size) == B.FirstFit(s.free[i..], s.sizes, size)
        decreases |free.nodes| - i
      {
        assert s.free[i..][0] == r.address && s.free[i..][1..] == s.free[i + 1..];
        if r.item >= size {
          return;
        }
        r := r.next;
        i := i + 1;
      }
    }

    // find_free_large_block with a cached block.
    method MoveToFull(n: BlockNode, ghost s: B.Store)
      requires Is(s) && n in free.nodes
      modifies Footprint()
      ensures at == old(at) && Is(B.AppendFull(B.DetachFree(s, n.address), n.address))
    {
      hide Remove, NoDup, Linked, ListsFit, Nodes;
      CellsInside(s);
      MoveFits(at, s.free, s.full, free.nodes, full.nodes, n);
      free.Detach(n);
      assert free.Cells() !! full.Cells() + {n};
      full.AddBack(n);
      assert free.Valid();
    }

    // free of a block that may stay cached.
    method MoveToFree(n: BlockNode, ghost s: B.Store)
      requires Is(s) && n in full.nodes
      modifies free, full, Nodes(at)
      ensures Is(B.AppendFree(B.DetachFull(s, n.address), n.address))
    {
      hide Remove, NoDup, Linked, ListsFit, Nodes;
      CellsInside(s);
      SwapFits(at, s.free, s.full, free.nodes, full.nodes);
      MoveFits(at, s.full, s.free, full.nodes, free.nodes, n);
      full.Detach(n);
      assert full.Cells() !! free.Cells() + {n};
      free.AddBack(n);
      assert full.Valid();
      SwapFits(at, Remove(s.full, n.address), s.free + [n.address], full.nodes, free.nodes);
    }

    // create_block after mmap, and the block_add_back that follows it.
    method AddBlock(a: nat, size: nat, ghost s: B.Store)
      requires Is(s) && a !in at
      modifies Footprint()
      ensures Is(B.AppendFull(B.MapBlock(s, a, size), a))
      ensures at.Keys == old(at).Keys + {a} && fresh(Footprint() - old(Footprint()))
    {
      hide NoDup, Linked, ListsFit;
      CellsInside(s);
      var n := new Node(a, size);
      SwapFits(at, s.free, s.full, free.nodes, full.nodes);
      AddFits(at, s.full, s.free, full.nodes, free.nodes, n);
      full.AddBack(n);
      assert free.Valid() && full.Valid();
      at := at[a := n];
      SwapFits(at, s.full + [a], s.free, full.nodes, free.nodes);
      assert free.Valid() && full.Valid();
    }

    // free of a block too large to be cached: detached, then unmapped.
    method Drop(n: BlockNode, ghost s: B.Store)
      requires Is(s) && n in full.nodes
      modifies this`at, full, Nodes(at)
      ensures Is(B.UnmapBlock(B.DetachFull(s, n.address), n.address))
      ensures at == old(at) - {n.address}
    {
      hide NoDup, Linked, ListsFit, Remove;
      CellsInside(s);
      SwapFits(at, s.free, s.full, free.nodes, full.nodes);
      DropFits(at, s.full, s.free, full.nodes, free.nodes, n);
      full.Detach(n);
      assert free.Valid();
      at := at - {n.address};
      SwapFits(at, Remove(s.full, n.address), s.free, full.nodes, free.nodes);
    }

    lemma CellOf(s: B.Store, b: nat)
      requires Is(s)
      ensures b in at <==> b in s.sizes
      ensures b in at ==>
                && at[b].address == b && at[b].item == s.sizes[b]
                && (at[b] in free.nodes <==> b in s.free) && (at[b] in full.nodes <==> b in s.full)
    {}

    // The large part of free; the flag says that the caller is to unmap the block.
    method Release(b: nat, ghost s: B.Store) returns (dropped: bool)
      requires Is(s) && b in s.full && b in s.sizes
      modifies Footprint()
      ensures Footprint() <= old(Footprint())
      ensures (dropped <==> B.Free(s, b).1) && Is(B.Free(s, b).0)
      ensures at == if dropped then old(at) - {b} else old(at)
    {
      hide Is, Remove;
      CellOf(s, b);
      var n := at[b];
      if n.item > CACHE_LIMIT {
        Drop(n, s);
        return true;
      }
      MoveToFree(n, s);
      return false;
    }

    // What a walk along the blocks in use finds at its i-th cell.
    lemma FullCellAt(s: B.Store, i: nat)
      requires Is(s)
      ensures |s.full| == |full.nodes|
      ensures i == 0 ==> full.head == if s.full == [] then null else full.nodes[0]
      ensures i < |s.full| ==>
                var n := full.nodes[i];
                && n.address == s.full[i] && s.full[i] in s.sizes && n.item == s.sizes[s.full[i]]
                && n.next == if i + 1 < |s.full| then full.nodes[i + 1] else null
    {
      if i < |s.full| {
        assert at[full.nodes[i].address] == full.nodes[i];
      }
    }
  }
}
