/** The sequential allocator as it is written: an object with the six lists, the bytes of memory and
    the initialised flag, changed in place by malloc, free and realloc.  Every method is proved to
    take the state exactly where the function of the same name takes it. */
module Heaps {
  import opened Sequences
  import opened Memory
  import opened Meta
  import opened Layout
  import opened Spaces
  import opened Worlds
  import opened Sections
  import opened Sequential
  import opened ZonePools
  import opened BlockPools
  import opened Runs
  import C = Client
  import Z = Zones
  import B = Blocks

  // A block as a pointer, with NULL for none.

  // The two states are told apart only by what is recorded for the proofs.
  ghost predicate SameObjects(s: State, t: State) {
    && s.initialized == t.initialized && s.calls == t.calls && s.w.mem == t.w.mem
    && s.w.tiny == t.w.tiny && s.w.small == t.w.small && s.w.large == t.w.large
  }

  class Heap {
    const g: Geometry
    const mmap: Oracle
    const tiny: ZonePool
    const small: ZonePool
    const large: BlockPool
    var initialized: bool
    var mem: Mem
    var calls: nat

    ghost function Footprint(): set<object>
      reads tiny`at, small`at, large`at
    {
      tiny.Footprint() + small.Footprint() + large.Footprint()
    }

    ghost predicate Apart()
      reads tiny`at, small`at, large`at
    {
      && tiny.Footprint() !! small.Footprint() && tiny.Footprint() !! large.Footprint()
      && small.Footprint() !! large.Footprint() && this !in Footprint()
    }

    // These objects are the state s; who owns what, the losses and the sizes asked for are only
    // recorded in s.
    ghost predicate Is(s: State)
      reads this`initialized, this`mem, this`calls, Footprint()
    {
      && g.Sound() && Lawful(mmap)
      && tiny.kind == Tiny && tiny.blocks == g.tinyBlocks && small.kind == Small && small.blocks == g.smallBlocks
      && Apart()
      && tiny.Is(s.w.tiny) && small.Is(s.w.small) && large.Is(s.w.large)
      && s.initialized == initialized && s.w.mem == mem && s.calls == calls
    }

    constructor (g: Geometry, mmap: Oracle)
      requires g.Sound() && Lawful(mmap)
      ensures Is(INITIAL) && fresh(Footprint()) && this.g == g && this.mmap == mmap
    {
      hide ZonePool.Is, BlockPool.Is, ZonePool.Footprint, BlockPool.Footprint;
      this.g, this.mmap := g, mmap;
      var t := new ZonePool(Tiny, g.tinyBlocks);
      assert allocated(t.Footprint());
      var s := new ZonePool(Small, g.smallBlocks);
      assert allocated(s.Footprint());
      assert t.Footprint() !! s.Footprint() && t.Is(Z.EMPTY_POOL);
      var l := new BlockPool();
      assert t.Footprint() !! s.Footprint() && t.Is(Z.EMPTY_POOL) && s.Is(Z.EMPTY_POOL);
      assert t.Footprint() !! l.Footprint() && s.Footprint() !! l.Footprint();
      assert allocated(l.Footprint());
      tiny, small, large := t, s, l;
      initialized, mem, calls := false, map[], 0;
    }

    // A new zone joins the free list of its class.
    method AddZoneTo(c: ZoneClass, a: nat, ghost s: State)
      requires Is(s) && a !in tiny.at && a !in small.at
      modifies Footprint()
      ensures fresh(Footprint() - old(Footprint()))
      ensures Is(s.(w := SetPool(s.w, c, Z.AppendFree(Z.MapZone(PoolOf(s.w, c), a, g.Blocks(c)), a))))
    {
      hide ZonePool.Is, BlockPool.Is, ZonePool.Footprint, BlockPool.Footprint;
      assert allocated(Footprint());
      if c == Tiny {
        tiny.AddZone(a, s.w.tiny);
      } else {
        small.AddZone(a, s.w.small);
      }
    }

    // create_zone
    method CreateZone(c: ZoneClass, ghost s: State) returns (failed: bool)
      requires Is(s) && WorldOk(g, s.w)
      modifies this`mem, this`calls, Footprint()
      ensures fresh(Footprint() - old(Footprint()))
      ensures Is(Sequential.CreateZone(mmap, g, s, c).0) && (failed <==> !Sequential.CreateZone(mmap, g, s, c).1)
    {
      hide ZonePool.Is, BlockPool.Is, ZonePool.Footprint, BlockPool.Footprint, WorldOk, Sequential.Lawful, Fresh, WriteMetas,
        JoinZone, Map, ZoneMemory, Geometry.SlotOffset;
      var r := mmap(calls, mem, g.Length(c));
      calls := calls + 1;
      if r.None? {
        return true;
      }
      var a := r.value;
      LawfulAnswer(mmap, s.calls, s.w.mem, g.Length(c));
      ZoneHasLength(g, c);
      NewAddress(a, g.Length(c), s);
      JoinZoneParts(g, s.w, c, a);
      assert allocated(Footprint());
      mem := WriteMetaWords(g, Map(mem, a, g.Length(c)), c, a);
      assert mem == ZoneMemory(g, s.w.mem, c, a) by { ZoneMemoryIs(g, s.w.mem, c, a); }
      label Written:
      AddZoneTo(c, a, s.(calls := calls, w := s.w.(mem := mem)));
      assert forall o :: o in Footprint() && old(allocated(o)) ==> old@Written(allocated(o));
      return false;
    }

    // setup_global_heap
    method SetupGlobalHeap(ghost s: State) returns (failed: bool)
      requires Is(s) && Ok(g, s) && !s.initialized
      modifies this`mem, this`calls, this`initialized, Footprint()
      ensures fresh(Footprint() - old(Footprint()))
      ensures Is(Sequential.SetupGlobalHeap(mmap, g, s).0) && (failed <==> !Sequential.SetupGlobalHeap(mmap, g, s).1)
    {
      hide ZonePool.Is, BlockPool.Is, ZonePool.Footprint, BlockPool.Footprint;
      hide WorldOk, ListsOk, SizesRecorded, Stocked, Sequential.CreateZone;
      failed := CreateZone(Tiny, s);
      if failed {
        return;
      }
      CreateZoneOk(mmap, g, s, Tiny);
      ghost var s1 := Sequential.CreateZone(mmap, g, s, Tiny).0;
      label First:
      failed := CreateZone(Small, s1);
      assert forall o :: o in Footprint() && old(allocated(o)) ==> old@First(allocated(o));
      if failed {
        return;
      }
      initialized := true;
    }

    // find_free_block
    method FindFreeBlock(c: ZoneClass, size: nat, ghost s: State) returns (p: nat)
      requires Is(s) && WorldOk(g, s.w) && PoolOk(g, s.w, c)
      modifies this`mem, this`calls, Footprint()
      ensures fresh(Footprint() - old(Footprint()))
      ensures var (s', r) := Sequential.FindFreeBlock(mmap, g, s, c, size); Is(s') && p == Address(g, r)
    {
      hide ZonePool.Is, BlockPool.Is, ZonePool.Footprint, BlockPool.Footprint, WorldOk, Z.Valid;
      hide AllocZone, Sequential.FindFreeBlock, Sequential.CreateZone, Sequential.Lawful, Geometry.SlotOffset, Geometry.Length;
      FindFreeBlockSteps(mmap, g, s, c, size);
      assert allocated(Footprint());
      var z: nat, k: int, filled: bool;
      if c == Tiny {
        z, k, filled := tiny.TakeFirst(size, s.w.tiny);
      } else {
        z, k, filled := small.TakeFirst(size, s.w.small);
      }
      if k == -1 {
        return 0;
      }
      if filled {
        ghost var s2 := s.(w := MoveToFull(Take(s.w, c, z, k, size, Worlds.Client), c, z));
        MoveToFullOk(g, s.w, c, size, Worlds.Client);
        label Filled:
        var failed := CreateZone(c, s2);
        assert forall o :: o in Footprint() && old(allocated(o)) ==> old@Filled(allocated(o));
        if failed {
          return 0;
        }
      }
      p := z + g.SlotOffset(c, k) + WORD;
    }

    // create_block, and the block_add_back that follows it; 0 when mmap refuses.
    method CreateBlock(size: nat, ghost s: State) returns (a: nat)
      requires Is(s) && WorldOk(g, s.w)
      modifies this`mem, this`calls, Footprint()
      ensures fresh(Footprint() - old(Footprint()))
      ensures match mmap(s.calls, s.w.mem, BLOCK_HEADER + WORD + size)
              case None => a == 0 && Is(s.(calls := s.calls + 1))
              case Some(b) =>
                && a == b > 0
                && Is(s.(calls := s.calls + 1,
                         w := s.w.(mem := BlockMemory(s.w.mem, a, size), large := B.AppendFull(B.MapBlock(s.w.large, a, size), a))))
    {
      hide ZonePool.Is, BlockPool.Is, ZonePool.Footprint, BlockPool.Footprint, WorldOk, Sequential.Lawful, Fresh, BlockMemory, Map, StoreWord;

      assert allocated(Footprint());
      var r := mmap(calls, mem, BLOCK_HEADER + WORD + size);
      calls := calls + 1;
      if r.None? {
        return 0;
      }
      a := r.value;
      LawfulAnswer(mmap, s.calls, s.w.mem, BLOCK_HEADER + WORD + size);
      NewAddress(a, BLOCK_HEADER + WORD + size, s);
      mem := Map(mem, a, BLOCK_HEADER + WORD + size);
      mem := StoreWord(mem, a + BLOCK_HEADER, a);
      assert mem == BlockMemory(s.w.mem, a, size) by { BlockMemoryIs(s.w.mem, a, size); }
      label Written:
      large.AddBlock(a, size, s.w.large);
      assert forall o :: o in Footprint() && old(allocated(o)) ==> old@Written(allocated(o));
    }

    // find_free_large_block
    method FindFreeLargeBlock(size: nat, ghost s: State) returns (p: nat)
      requires Is(s) && WorldOk(g, s.w) && B.Valid(s.w.large)
      modifies this`mem, this`calls, Footprint()
      ensures fresh(Footprint() - old(Footprint()))
      ensures var (s', r) := Sequential.FindFreeLargeBlock(mmap, g, s, size); Is(s') && p == Address(g, r)
    {
      hide ZonePool.Is, BlockPool.Is, ZonePool.Footprint, BlockPool.Footprint, WorldOk, B.Valid, B.FirstFit, BlockMemory;
      hide AllocLarge, Sequential.FindFreeLargeBlock;
      FindFreeLargeBlockSteps(mmap, g, s, size);
      B.FreeHaveSizes(s.w.large);
      assert allocated(Footprint());
      var n := large.FindFit(size, s.w.large);
      if n != null {
        large.MoveToFull(n, s.w.large);
        return n.address + BLOCK_HEADER + WORD;
      }
      label Searched:
      var a := CreateBlock(size, s);
      assert forall o :: o in Footprint() && old(allocated(o)) ==> old@Searched(allocated(o));
      if a == 0 {
        return 0;
      }
      return a + BLOCK_HEADER + WORD;
    }

    method AllocBlock(size: nat, ghost s: State) returns (p: nat)
      requires Is(s) && WorldOk(g, s.w) && ListsOk(g, s.w)
      modifies this`mem, this`calls, Footprint()
      ensures fresh(Footprint() - old(Footprint()))
      ensures var (s', r) := Sequential.AllocBlock(mmap, g, s, size); Is(s') && p == Address(g, r)
    {
      hide Is, Footprint, WorldOk, Z.Valid, B.Valid, Sequential.FindFreeBlock, Sequential.FindFreeLargeBlock;
      if size <= TINY_BLOCK_SIZE {
        p := FindFreeBlock(Tiny, size, s);
      } else if size <= SMALL_BLOCK_SIZE {
        p := FindFreeBlock(Small, size, s);
      } else {
        p := FindFreeLargeBlock(size, s);
      }
    }

    method Malloc(size: nat, ghost s: State) returns (p: nat)
      requires Is(s) && g.Sound() && Lawful(mmap) && Ok(g, s)
      modifies this`mem, this`calls, this`initialized, Footprint()
      ensures fresh(Footprint() - old(Footprint()))
      ensures var (s', r) := Sequential.Malloc(mmap, g, s, size); Is(s') && p == Address(g, r)
      ensures !(0 < size <= PTRDIFF_MAX) ==> p == 0 && Is(s) && unchanged(this)
    {
      hide Is, Footprint, Sequential.SetupGlobalHeap, Sequential.AllocBlock, WorldOk, ListsOk, SizesRecorded, Stocked;
      if size == 0 || size > PTRDIFF_MAX {
        return 0;
      }
      Flag(s);
      if !initialized {
        SetupOk(mmap, g, s);
        var failed := SetupGlobalHeap(s);
        if failed {
          return 0;
        }
        ghost var s1 := Sequential.SetupGlobalHeap(mmap, g, s).0;
        label Ready:
        p := AllocBlock(size, s1);
        assert forall o :: o in Footprint() && old(allocated(o)) ==> old@Ready(allocated(o));
      } else {
        p := AllocBlock(size, s);
      }
    }

    // free; the caller passes NULL or a pointer it holds.
    method Free(p: nat, ghost s: State)
      requires Is(s) && g.Sound() && Ok(g, s) && (p == 0 || LivePtr(g, s, p))
      modifies this`mem, Footprint()
      ensures Footprint() <= old(Footprint())
      ensures Is(if p == 0 then s else Sequential.Free(g, s, BlockAtPtr(g, s, p)))
    {
      hide ZonePool.Is, BlockPool.Is, ZonePool.Footprint, BlockPool.Footprint, WorldOk, Ok, LivePtr, BlockAtPtr, LoadWord, Z.Valid;
      hide Sequential.Free, MetaIsZone, MetaZone, MetaBlockNum, Z.Allocated, B.Valid, Ptr;
      if p == 0 {
        return;
      }
      ghost var id := BlockAtPtr(g, s, p);
      WordBefore(g, s, p);
      var meta := LoadWord(mem, p - WORD);
      if MetaIsZone(meta) {
        FreeInZone(id.c, MetaZone(meta), MetaBlockNum(meta), s);
      } else {
        FreeBig(meta, s);
      }
    }

    // The zone branch of free; the class is found in the header.
    method FreeInZone(ghost c: ZoneClass, z: nat, k: nat, ghost s: State)
      requires Is(s) && Ok(g, s) && InZone(c, z, k) in s.w.own
      modifies this`mem, Footprint()
      ensures Footprint() <= old(Footprint())
      ensures Is(Sequential.Free(g, s, InZone(c, z, k)))
    {
      hide ZonePool.Is, BlockPool.Is, ZonePool.Footprint, BlockPool.Footprint, WorldOk, Ok, Z.Valid;
      hide Sequential.Free, Z.Free, Unmap, Geometry.Length, Z.Allocated, B.Valid;
      OkParts(g, s);
      FreeParts(g, s, InZone(c, z, k));
      assert allocated(Footprint());
      KindAt(s, c, z);
      var n := if z in tiny.at then tiny.at[z] else small.at[z];
      var kind := n.item.kind;
      var dropped: bool;
      if kind == Tiny {
        dropped := tiny.Release(z, k, s.w.tiny);
      } else {
        dropped := small.Release(z, k, s.w.small);
      }
      if dropped {
        mem := Unmap(mem, z, g.Length(kind));
      }
    }

    // The other branch.
    method FreeBig(b: nat, ghost s: State)
      requires Is(s) && Ok(g, s) && Big(b) in s.w.own && b in s.w.large.full
      modifies this`mem, Footprint()
      ensures Footprint() <= old(Footprint())
      ensures Is(Sequential.Free(g, s, Big(b)))
    {
      hide ZonePool.Is, BlockPool.Is, ZonePool.Footprint, BlockPool.Footprint, WorldOk, Ok, Z.Valid;
      hide Sequential.Free, B.Free, Unmap, B.Valid;
      OkParts(g, s);
      FreeParts(g, s, Big(b));
      assert allocated(Footprint());
      large.CellOf(s.w.large, b);
      var size := large.at[b].item;
      var dropped := large.Release(b, s.w.large);
      if dropped {
        mem := Unmap(mem, b, BLOCK_HEADER + WORD + size);
      }
    }

    // The first half of realloc: the size of the block, found through the word before the pointer.
    method CurrentSize(p: nat, ghost s: State) returns (current: nat)
      requires Is(s) && g.Sound() && Ok(g, s) && LivePtr(g, s, p)
      ensures Is(s) && Footprint() == old(Footprint())
      ensures var id := BlockAtPtr(g, s, p);
              Exists(g, SpaceOf(s.w), id) && current == Capacity(SpaceOf(s.w), id)
    {
      hide Is, WorldOk, Ok, LivePtr, BlockAtPtr, LoadWord, SpaceOf, MetaIsZone, MetaZone;
      ghost var id := BlockAtPtr(g, s, p);
      WordBefore(g, s, p);
      CapacityOf(g, s, id);
      Flag(s);
      var meta := LoadWord(mem, p - WORD);
      if MetaIsZone(meta) {
        var z := MetaZone(meta);
        KindAt(s, id.c, z);
        var n := if z in tiny.at then tiny.at[z] else small.at[z];
        current := BlockSize(n.item.kind);
      } else {
        LargeAt(s, meta);
        current := large.at[meta].item;
      }
    }

    // The copy of realloc changes only memory.
    method Copy(dst: nat, src: nat, n: nat, ghost s: State)
      requires Is(s) && Mapped(s.w.mem, dst, n) && Mapped(s.w.mem, src, n)
      modifies this`mem
      ensures Footprint() == old(Footprint())
      ensures Is(s.(w := s.w.(mem := CopyBytes(s.w.mem, dst, src, n))))
    {
      hide ZonePool.Is, BlockPool.Is, ZonePool.Footprint, BlockPool.Footprint, CopyBytes;
      assert allocated(Footprint());
      mem := Memcpy(mem, dst, src, n);
    }

    // realloc; the caller passes NULL or a pointer it holds.
    method Realloc(p: nat, size: nat, ghost s: State) returns (q: nat)
      requires Is(s) && g.Sound() && Lawful(mmap) && Ok(g, s) && (p == 0 || LivePtr(g, s, p))
      modifies this`mem, this`calls, this`initialized, Footprint()
      ensures fresh(Footprint() - old(Footprint()))
      ensures var (s', r) := if p == 0 then Sequential.Malloc(mmap, g, s, size) else C.Realloc(mmap, g, s, BlockAtPtr(g, s, p), size);
              Is(s') && q == Address(g, r)
      ensures p == 0 && !(0 < size <= PTRDIFF_MAX) ==> q == 0 && Is(s) && unchanged(this)
    {
      hide Is, Footprint, WorldOk, Ok, LivePtr, BlockAtPtr, SpaceOf;
      hide Sequential.Free, Sequential.Malloc, C.Realloc, C.CopyPayload, CopiedState;
      if p == 0 {
        q := Malloc(size, s);
        return;
      }
      var current := CurrentSize(p, s);
      ghost var id := BlockAtPtr(g, s, p);
      ReallocSteps(mmap, g, s, id, size);
      if size <= current {
        return p;
      }
      label Asked:
      q := Malloc(size, s);
      assert forall o :: o in Footprint() && old(allocated(o)) ==> old@Asked(allocated(o));
      if q == 0 {
        return;
      }
      Copy(q, p, if size < current then size else current, Sequential.Malloc(mmap, g, s, size).0);
      Free(p, CopiedState(mmap, g, s, id, size));
    }

    // One event of a run, carried out on the objects.
    method Perform(e: Event, ghost s: State)
      requires Is(s) && g.Sound() && Lawful(mmap) && Ok(g, s) && Legal(g, s, e)
      modifies this`mem, this`calls, this`initialized, Footprint()
      ensures fresh(Footprint() - old(Footprint()))
      ensures Is(Step(mmap, g, s, e))
    {
      hide ZonePool.Is, BlockPool.Is, ZonePool.Footprint, BlockPool.Footprint, WorldOk, Ok, LivePtr, BlockAtPtr;
      hide Sequential.Free, Sequential.Malloc, C.Realloc;
      match e
      case CallMalloc(size) => var p := Malloc(size, s);
      case CallFree(p) => Free(p, s);
      case CallRealloc(p, size) => var q := Realloc(p, size, s);
      case ClientWrite(p, offset, v) => mem := mem[p + offset := v];
    }

    // A whole run, from a fresh heap: the objects follow the states of the run to its end, so all that
    // is proved of those states holds of the objects.
    method PerformAll(es: seq<Event>, ghost states: seq<State>)
      requires Is(INITIAL) && g.Sound() && Lawful(mmap) && Run(mmap, g, es, states)
      modifies this`mem, this`calls, this`initialized, Footprint()
      ensures Is(states[|es|]) && Ok(g, states[|es|])
    {
      hide Is, Footprint, Ok, Legal, Step;
      var i := 0;
      while i < |es|
        invariant 0 <= i <= |es| && Is(states[i])
        invariant fresh(Footprint() - old(Footprint()))
      {
        assert Next(mmap, g, states[i], es[i], states[i + 1]);
        RunsKeepInvariant(mmap, g, es, states, i);
        label Before:
        Perform(es[i], states[i]);
        assert forall o :: o in Footprint() && old(allocated(o)) ==> old@Before(allocated(o));
        i := i + 1;
      }
      RunsKeepInvariant(mmap, g, es, states, |es|);
    }

    // The header at a mapped zone address says which class the zone is of.
    lemma KindAt(s: State, c: ZoneClass, z: nat)
      requires Is(s) && WorldOk(g, s.w) && z in PoolOf(s.w, c).zones
      ensures c == Tiny ==> z in tiny.at && tiny.at[z].item.kind == Tiny
      ensures c == Small ==> z !in tiny.at && z in small.at && small.at[z].item.kind == Small
    {
      tiny.InAt(s.w.tiny, z);
      small.InAt(s.w.small, z);
    }

    lemma LargeAt(s: State, b: nat)
      requires Is(s) && b in s.w.large.sizes
      ensures b in large.at && large.at[b].item == s.w.large.sizes[b]
    {
      large.CellOf(s.w.large, b);
    }

    lemma Flag(s: State)
      requires Is(s)
      ensures initialized == s.initialized && mem == s.w.mem
    {}

    // No header lies at an address that mmap has just given.
    lemma NewAddress(a: nat, len: nat, s: State)
      requires tiny.Is(s.w.tiny) && small.Is(s.w.small) && large.Is(s.w.large)
      requires g.Sound() && WorldOk(g, s.w) && Fresh(s.w.mem, a, len) && len > 0
      ensures a !in tiny.at && a !in small.at && a !in large.at
    {
      hide WorldOk;
      WorldSpace(g, s.w);
      FreshIsNew(g, SpaceOf(s.w), s.w.mem, a, len);
      tiny.InAt(s.w.tiny, a);
      small.InAt(s.w.small, a);
      large.CellOf(s.w.large, a);
    }
  }

  // find_free_block, step by step.
  lemma FindFreeBlockSteps(o: Oracle, g: Geometry, s: State, c: ZoneClass, size: nat)
    requires g.Sound() && PoolOk(g, s.w, c)
    ensures var p, n := PoolOf(s.w, c), g.Blocks(c);
            var (s', r) := Sequential.FindFreeBlock(o, g, s, c, size);
            if p.free == [] then SameObjects(s, s') && r == None
            else
              var z, k := p.free[0], HeadIndex(p, n);
              var w1 := Take(s.w, c, z, k, size, Worlds.Client);
              if p.zones[z].freeCount != 1 then SameObjects(s.(w := w1), s') && r == Some(InZone(c, z, k))
              else
                var (s3, ok) := Sequential.CreateZone(o, g, s.(w := MoveToFull(w1, c, z)), c);
                SameObjects(s3, s') && r == if ok then Some(InZone(c, z, k)) else None
  {
    var a := if Z.FillsHead(PoolOf(s.w, c)) then o(s.calls, s.w.mem, g.Length(c)) else None;
    AllocZoneSteps(g, s.w, c, size, a, Worlds.Client);
  }

  // The word before a live pointer, and what it leads to.
  lemma WordBefore(g: Geometry, s: State, p: nat)
    requires g.Sound() && Ok(g, s) && LivePtr(g, s, p)
    ensures var id := BlockAtPtr(g, s, p);
            && WorldOk(g, s.w) && ListsOk(g, s.w) && Owns(s, id) && Ptr(g, id) == p
            && p >= WORD && Mapped(s.w.mem, p - WORD, WORD)
            && var meta := LoadWord(s.w.mem, p - WORD);
               && (MetaIsZone(meta) <==> id.InZone?)
               && (id.InZone? ==>
                     && MetaZone(meta) == id.zone && MetaBlockNum(meta) == id.index
                     && Z.Allocated(PoolOf(s.w, id.c), id.zone, id.index))
               && (id.Big? ==> meta == id.base && id.base in s.w.large.full && id.base in s.w.large.sizes)
  {
    var id := BlockAtPtr(g, s, p);
    LivePointersDecode(g, s, id);
    OwnedExists(g, s.w, id);
  }

  lemma LawfulAnswer(o: Oracle, calls: nat, mem: Mem, len: nat)
    requires Lawful(o) && o(calls, mem, len).Some?
    ensures Fresh(mem, o(calls, mem, len).value, len) && o(calls, mem, len).value > 0
  {
    assert Answer(mem, o(calls, mem, len), len);
  }

  lemma ZoneHasLength(g: Geometry, c: ZoneClass)
    requires g.Sound()
    ensures g.Length(c) > 0
  {}

  lemma ZoneMemoryIs(g: Geometry, mem: Mem, c: ZoneClass, a: nat)
    requires g.Sound()
    ensures Mapped(Map(mem, a, g.Length(c)), a, g.SlotOffset(c, g.Blocks(c)))
    ensures ZoneMemory(g, mem, c, a) == WriteMetas(g, Map(mem, a, g.Length(c)), c, a, g.Blocks(c))
  {}

  lemma BlockMemoryIs(mem: Mem, a: nat, size: nat)
    ensures Mapped(Map(mem, a, BLOCK_HEADER + WORD + size), a + BLOCK_HEADER, WORD)
    ensures BlockMemory(mem, a, size) == StoreWord(Map(mem, a, BLOCK_HEADER + WORD + size), a + BLOCK_HEADER, a)
  {}

  lemma FreeParts(g: Geometry, s: State, id: BlockId)
    requires g.Sound() && Ok(g, s) && id in s.w.own
    ensures id.InZone? ==> Z.Allocated(PoolOf(s.w, id.c), id.zone, id.index)
    ensures id.Big? ==> id.base in s.w.large.sizes
    ensures var s' := Sequential.Free(g, s, id);
            && s'.initialized == s.initialized && s'.calls == s.calls
            && match id
               case InZone(c, z, k) =>
                 var (p', dropped) := Z.Free(PoolOf(s.w, c), g.Blocks(c), z, k);
                 && s'.w.large == s.w.large
                 && s'.w.tiny == (if c == Tiny then p' else s.w.tiny) && s'.w.small == (if c == Small then p' else s.w.small)
                 && s'.w.mem == (if dropped then Unmap(s.w.mem, z, g.Length(c)) else s.w.mem)
               case Big(b) =>
                 var (l', dropped) := B.Free(s.w.large, b);
                 && s'.w.tiny == s.w.tiny && s'.w.small == s.w.small && s'.w.large == l'
                 && s'.w.mem == (if dropped then Unmap(s.w.mem, b, BLOCK_HEADER + WORD + s.w.large.sizes[b]) else s.w.mem)
  {
    OwnedExists(g, s.w, id);
  }

  lemma CapacityOf(g: Geometry, s: State, id: BlockId)
    requires Ok(g, s) && Owns(s, id)
    ensures Exists(g, SpaceOf(s.w), id)
    ensures Capacity(SpaceOf(s.w), id) == if id.InZone? then BlockSize(id.c) else s.w.large.sizes[id.base]
  {
    OwnedExists(g, s.w, id);
  }

  lemma CopyBytesStep(mem: Mem, dst: nat, src: nat, n: nat)
    requires Mapped(mem, dst, n) && Mapped(mem, src, n)
    ensures n == 0 ==> CopyBytes(mem, dst, src, n) == mem
    ensures n > 0 ==>
              var mem1 := CopyBytes(mem, dst, src, n - 1);
              && src + n - 1 in mem1
              && CopyBytes(mem, dst, src, n) == mem1[dst + n - 1 := mem1[src + n - 1]]
  {}

  // ft_memcpy
  method Memcpy(from: Mem, dst: nat, src: nat, n: nat) returns (mem: Mem)
    requires Mapped(from, dst, n) && Mapped(from, src, n)
    ensures mem == CopyBytes(from, dst, src, n)
  {
    hide CopyBytes;
    mem := from;
    var i := 0;
    CopyBytesStep(from, dst, src, 0);
    while i < n
      invariant 0 <= i <= n
      invariant mem == CopyBytes(from, dst, src, i)
    {
      CopyBytesStep(from, dst, src, i + 1);
      mem := mem[dst + i := mem[src + i]];
      i := i + 1;
    }
  }

  // A pointer leads back to the block it was made from.
  lemma PointerLeadsBack(g: Geometry, s: State, id: BlockId)
    requires g.Sound() && Ok(g, s) && Owns(s, id)
    ensures LivePtr(g, s, Ptr(g, id)) && BlockAtPtr(g, s, Ptr(g, id)) == id
  {
    var other := BlockAtPtr(g, s, Ptr(g, id));
    OwnedExists(g, s.w, id);
    OwnedExists(g, s.w, other);
    PtrInjective(g, SpaceOf(s.w), id, other);
  }

  // The state of a moving realloc between the copy and the final free.
  ghost function CopiedState(o: Oracle, g: Geometry, s: State, id: BlockId, size: nat): State
    requires g.Sound() && Lawful(o) && Ok(g, s) && Owns(s, id)
    requires Exists(g, SpaceOf(s.w), id) && size > Capacity(SpaceOf(s.w), id)
    requires Sequential.Malloc(o, g, s, size).1.Some?
  {
    C.MallocThenCopy(o, g, s, id, size);
    var (s1, r) := Sequential.Malloc(o, g, s, size);
    C.CopyPayload(g, s1, id, r.value, Capacity(SpaceOf(s.w), id))
  }

  lemma ReallocSteps(o: Oracle, g: Geometry, s: State, id: BlockId, size: nat)
    requires g.Sound() && Lawful(o) && Ok(g, s) && Owns(s, id)
    ensures Exists(g, SpaceOf(s.w), id)
    ensures var current := Capacity(SpaceOf(s.w), id);
            if size <= current then C.Realloc(o, g, s, id, size) == (s, Some(id))
               else
                 var (s1, r) := Sequential.Malloc(o, g, s, size);
                 if r.None? then C.Realloc(o, g, s, id, size) == (s1, None)
                 else
                   var s2 := CopiedState(o, g, s, id, size);
                   && Ok(g, s2) && LivePtr(g, s2, Ptr(g, id)) && BlockAtPtr(g, s2, Ptr(g, id)) == id
                   && Mapped(s1.w.mem, Ptr(g, r.value), current) && Mapped(s1.w.mem, Ptr(g, id), current)
                   && s2 == s1.(w := s1.w.(mem := CopyBytes(s1.w.mem, Ptr(g, r.value), Ptr(g, id), current)))
                   && C.Realloc(o, g, s, id, size) == (Sequential.Free(g, s2, id), r)
  {
    OwnedExists(g, s.w, id);
    var current := Capacity(SpaceOf(s.w), id);
    if size > current {
      C.MallocThenCopy(o, g, s, id, size);
      var (s1, r) := Sequential.Malloc(o, g, s, size);
      if r.Some? {
        C.CopyOk(g, s1, id, r.value, current);
        PointerLeadsBack(g, CopiedState(o, g, s, id, size), id);
      }
    }
  }

  // find_free_large_block, step by step.
  lemma FindFreeLargeBlockSteps(o: Oracle, g: Geometry, s: State, size: nat)
    requires g.Sound() && B.Valid(s.w.large)
    ensures var (s', r) := Sequential.FindFreeLargeBlock(o, g, s, size);
            && s'.initialized == s.initialized && s'.w.tiny == s.w.tiny && s'.w.small == s.w.small
            && match B.FirstFit(s.w.large.free, s.w.large.sizes, size)
               case Some(b) =>
                 && r == Some(Big(b)) && s'.calls == s.calls && s'.w.mem == s.w.mem
                 && s'.w.large == B.AppendFull(B.DetachFree(s.w.large, b), b)
               case None =>
                 && s'.calls == s.calls + 1
                 && match o(s.calls, s.w.mem, BLOCK_HEADER + WORD + size)
                    case None => r == None && s'.w.mem == s.w.mem && s'.w.large == s.w.large
                    case Some(a) =>
                      && r == Some(Big(a)) && s'.w.mem == BlockMemory(s.w.mem, a, size)
                      && s'.w.large == B.AppendFull(B.MapBlock(s.w.large, a, size), a)
  {}

  // Every slot of a mapped zone is mapped.
  lemma SlotMapped(g: Geometry, mem: Mem, c: ZoneClass, a: nat, i: nat)
    requires g.Sound() && Mapped(mem, a, g.Length(c)) && i <= g.Blocks(c)
    ensures Mapped(mem, a, g.SlotOffset(c, i))
    ensures i < g.Blocks(c) ==> Mapped(mem, a + g.SlotOffset(c, i), WORD_BYTES)
  {}

  lemma SameKeysMapped(mem: Mem, mem': Mem, a: nat, len: nat)
    requires mem'.Keys == mem.Keys && Mapped(mem, a, len)
    ensures Mapped(mem', a, len)
  {
    assert forall x :: x in mem <==> x in mem';
  }

  lemma WriteMetasStep(g: Geometry, mem: Mem, c: ZoneClass, a: nat, i: nat)
    requires g.Sound() && Mapped(mem, a, g.Length(c)) && i < g.Blocks(c)
    ensures Mapped(mem, a, g.SlotOffset(c, i)) && Mapped(mem, a, g.SlotOffset(c, i + 1))
    ensures Mapped(WriteMetas(g, mem, c, a, i), a + g.SlotOffset(c, i), WORD_BYTES)
    ensures WriteMetas(g, mem, c, a, i + 1) == StoreWord(WriteMetas(g, mem, c, a, i), a + g.SlotOffset(c, i), MetaPack(a, i))
  {
    hide Mapped, StoreWord, MetaPack, Geometry.SlotOffset;
    SlotMapped(g, mem, c, a, i);
    SlotMapped(g, mem, c, a, i + 1);
    SameKeysMapped(mem, WriteMetas(g, mem, c, a, i), a + g.SlotOffset(c, i), WORD_BYTES);
  }

  // The loop of create_zone that writes the meta words of a mapped zone.
  method WriteMetaWords(g: Geometry, mapped: Mem, c: ZoneClass, a: nat) returns (mem: Mem)
    requires g.Sound() && Mapped(mapped, a, g.Length(c))
    ensures Mapped(mapped, a, g.SlotOffset(c, g.Blocks(c)))
    ensures mem == WriteMetas(g, mapped, c, a, g.Blocks(c))
  {
    hide Mapped, StoreWord, MetaPack, Geometry.SlotOffset, WriteMetas;
    mem := mapped;
    SlotMapped(g, mapped, c, a, 0);
    NoMetasYet(g, mapped, c, a);
    var i := 0;
    while i < g.Blocks(c)
      invariant 0 <= i <= g.Blocks(c)
      invariant Mapped(mapped, a, g.SlotOffset(c, i))
      invariant mem == WriteMetas(g, mapped, c, a, i)
    {
      WriteMetasStep(g, mapped, c, a, i);
      mem := StoreWord(mem, a + g.SlotOffset(c, i), MetaPack(a, i));
      i := i + 1;
    }
  }

  lemma NoMetasYet(g: Geometry, mem: Mem, c: ZoneClass, a: nat)
    requires Mapped(mem, a, g.SlotOffset(c, 0))
    ensures WriteMetas(g, mem, c, a, 0) == mem
  {}
}
