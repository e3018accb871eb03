/** Whole runs of the sequential allocator: calls by pointer, client writes and mmap failures in any
    order, from the state in which nothing is mapped. */
module Runs {
  import opened Sequences
  import opened Memory
  import opened Meta
  import opened Layout
  import opened Spaces
  import opened Worlds
  import opened Sections
  import opened Sequential
  import opened Client
  import Z = Zones
  import B = Blocks

  // One event of a run; pointers are addresses, and 0 is NULL.
  datatype Event =
    | CallMalloc(size: nat)
    | CallFree(p: nat)
    | CallRealloc(p: nat, size: nat)
    | ClientWrite(p: nat, offset: nat, value: byte)

  ghost predicate LivePtr(g: Geometry, s: State, p: nat) {
    exists id :: Owns(s, id) && Ptr(g, id) == p
  }

  // What the allocator reads back from a live pointer: the block named by the word before it.
  ghost function BlockAtPtr(g: Geometry, s: State, p: nat): (id: BlockId)
    requires g.Sound() && Ok(g, s) && LivePtr(g, s, p)
    ensures Owns(s, id) && Ptr(g, id) == p
  {
    var id :| Owns(s, id) && Ptr(g, id) == p;
    OwnedExists(g, s.w, id);
    DecodeFindsBlock(g, SpaceOf(s.w), s.w.mem, id);
    Decode(SpaceOf(s.w), LoadWord(s.w.mem, p - WORD))
  }

  // A client frees and reallocates only pointers it holds, and writes only inside their capacity.
  ghost predicate Legal(g: Geometry, s: State, e: Event) {
    match e
    case CallMalloc(_) => true
    case CallFree(p) => p == 0 || LivePtr(g, s, p)
    case CallRealloc(p, _) => p == 0 || LivePtr(g, s, p)
    case ClientWrite(p, offset, _) =>
      exists id :: Owns(s, id) && Ptr(g, id) == p && InPayload(g, SpaceOf(s.w), id, p + offset)
  }

  ghost function Step(o: Oracle, g: Geometry, s: State, e: Event): State
    requires g.Sound() && Lawful(o) && Ok(g, s) && Legal(g, s, e)
  {
    match e
    case CallMalloc(size) => Malloc(o, g, s, size).0
    case CallFree(p) => if p == 0 then s else Free(g, s, BlockAtPtr(g, s, p))
    case CallRealloc(p, size) =>
      if p == 0 then Malloc(o, g, s, size).0 else Realloc(o, g, s, BlockAtPtr(g, s, p), size).0
    case ClientWrite(p, offset, v) => s.(w := s.w.(mem := s.w.mem[p + offset := v]))
  }

  lemma StepOk(o: Oracle, g: Geometry, s: State, e: Event)
    requires g.Sound() && Lawful(o) && Ok(g, s) && Legal(g, s, e)
    ensures Ok(g, Step(o, g, s, e))
  {
    hide Ok, Malloc, Free, Realloc;
    match e
    case CallMalloc(size) => MallocOk(o, g, s, size);
    case CallFree(p) => if p != 0 { FreeOk(g, s, BlockAtPtr(g, s, p)); }
    case CallRealloc(p, size) =>
      if p == 0 { MallocOk(o, g, s, size); } else { ReallocOk(o, g, s, BlockAtPtr(g, s, p), size); }
    case ClientWrite(p, offset, v) =>
      var id :| Owns(s, id) && Ptr(g, id) == p && InPayload(g, SpaceOf(s.w), id, p + offset);
      WriteOk(g, s, id, p + offset, v);
  }

  // A client write within capacity keeps the invariant and every byte of the allocator.
  lemma WriteOk(g: Geometry, s: State, id: BlockId, x: nat, v: byte)
    requires g.Sound() && Ok(g, s) && Owns(s, id) && InPayload(g, SpaceOf(s.w), id, x)
    ensures x in s.w.mem && Ok(g, s.(w := s.w.(mem := s.w.mem[x := v])))
    ensures forall y :: AllocatorByte(g, SpaceOf(s.w), y) && y in s.w.mem ==> s.w.mem[x := v][y] == s.w.mem[y]
  {
    hide WorldOk;
    WriteKeepsWorld(g, s.w, id, x, v);
    var s' := s.(w := s.w.(mem := s.w.mem[x := v]));
    assert LostBlocks(s'.w) == LostBlocks(s.w);
    SameRecords(s, s');
  }

  // A legal event, and the state it leads to.  What the allocator does is defined only where its
  // invariant holds; from any other state anything might follow.
  ghost predicate Next(o: Oracle, g: Geometry, s: State, e: Event, s': State)
    requires g.Sound() && Lawful(o)
  {
    Legal(g, s, e) && (Ok(g, s) ==> s' == Step(o, g, s, e))
  }

  // A run: from the initial state, each state follows from the one before by a legal event.
  ghost predicate Run(o: Oracle, g: Geometry, es: seq<Event>, states: seq<State>)
    requires g.Sound() && Lawful(o)
  {
    && |states| == |es| + 1 && states[0] == INITIAL
    && forall i :: 0 <= i < |es| ==> Next(o, g, states[i], es[i], states[i + 1])
  }

  // Every state of every run satisfies the invariant.
  lemma {:induction false} RunsKeepInvariant(o: Oracle, g: Geometry, es: seq<Event>, states: seq<State>, i: nat)
    requires g.Sound() && Lawful(o) && Run(o, g, es, states) && i <= |es|
    ensures Ok(g, states[i])
  {
    hide Ok, Step, Legal;
    if i == 0 {
      InitialOk(g);
    } else {
      RunsKeepInvariant(o, g, es, states, i - 1);
      assert Next(o, g, states[i - 1], es[i - 1], states[i]);
      StepOk(o, g, states[i - 1], es[i - 1]);
    }
  }

  // ---- what each event does to the pointers of the client ----

  // What malloc or realloc returns for an allocation result.
  function Address(g: Geometry, r: Option<BlockId>): nat {
    match r
    case None => 0
    case Some(id) => Ptr(g, id)
  }

  // The pointer an event returns; free and a write return nothing.
  ghost function Returns(o: Oracle, g: Geometry, s: State, e: Event): nat
    requires g.Sound() && Lawful(o) && Ok(g, s) && Legal(g, s, e)
  {
    match e
    case CallMalloc(size) => Address(g, Malloc(o, g, s, size).1)
    case CallRealloc(p, size) =>
      if p == 0 then Address(g, Malloc(o, g, s, size).1) else Address(g, Realloc(o, g, s, BlockAtPtr(g, s, p), size).1)
    case _ => 0
  }

  // After a malloc the live pointers are those of before and the one returned, which is new.
  lemma MallocAddsPointer(o: Oracle, g: Geometry, s: State, size: nat)
    requires g.Sound() && Lawful(o) && Ok(g, s)
    ensures var (s', r) := Malloc(o, g, s, size); var p := Address(g, r);
            forall q :: LivePtr(g, s', q) <==> LivePtr(g, s, q) || (p != 0 && q == p)
    ensures Malloc(o, g, s, size).1.Some? ==> !LivePtr(g, s, Address(g, Malloc(o, g, s, size).1))
  {
    hide Ok, Malloc, Ptr, Address;
    MallocOk(o, g, s, size);
    MallocEffect(o, g, s, size);
    var (s', r) := Malloc(o, g, s, size);
    AddressIs(g, r);
    forall q ensures LivePtr(g, s', q) <==> LivePtr(g, s, q) || (Address(g, r) != 0 && q == Address(g, r)) {
      if LivePtr(g, s, q) {
        var id :| Owns(s, id) && Ptr(g, id) == q;
        assert Owns(s', id);
      }
      if r.Some? && q == Address(g, r) { assert Owns(s', r.value); }
    }
    if r.Some? && LivePtr(g, s, Address(g, r)) {
      var id :| Owns(s, id) && Ptr(g, id) == Address(g, r);
      OnePointer(g, s', id, r.value);
    }
  }

  lemma AddressIs(g: Geometry, r: Option<BlockId>)
    ensures Address(g, r) != 0 <==> r.Some?
    ensures r.Some? ==> Address(g, r) == Ptr(g, r.value)
  {}

  lemma OnePointer(g: Geometry, s: State, x: BlockId, y: BlockId)
    requires g.Sound() && Ok(g, s) && Owns(s, x) && Owns(s, y)
    ensures Ptr(g, x) == Ptr(g, y) <==> x == y
  {
    hide Ptr;
    OwnedPayloadsDisjoint(g, s.w, x, y);
    WorldSpace(g, s.w);
    PtrInjective(g, SpaceOf(s.w), x, y);
  }

  // After a free exactly that pointer is no longer live.
  lemma FreeRemovesPointer(g: Geometry, s: State, p: nat)
    requires g.Sound() && Ok(g, s) && LivePtr(g, s, p)
    ensures forall q :: LivePtr(g, Free(g, s, BlockAtPtr(g, s, p)), q) <==> LivePtr(g, s, q) && q != p
  {
    hide Ok, Free, Ptr;
    var id := BlockAtPtr(g, s, p);
    var s' := Free(g, s, id);
    FreeOwners(g, s, id);
    forall q ensures LivePtr(g, s', q) <==> LivePtr(g, s, q) && q != p {
      if LivePtr(g, s', q) {
        var x :| Owns(s', x) && Ptr(g, x) == q;
        OnePointer(g, s, x, id);
      }
      if LivePtr(g, s, q) && q != p {
        var x :| Owns(s, x) && Ptr(g, x) == q;
        assert Owns(s', x);
      }
    }
  }

  lemma ReallocPointers(o: Oracle, g: Geometry, s: State, p: nat, size: nat)
    requires g.Sound() && Lawful(o) && Ok(g, s) && LivePtr(g, s, p)
    ensures var (s', r) := Realloc(o, g, s, BlockAtPtr(g, s, p), size); var q0 := Address(g, r);
            if r.None? then forall q :: LivePtr(g, s', q) <==> LivePtr(g, s, q)
            else forall q :: LivePtr(g, s', q) <==> (LivePtr(g, s, q) && q != p) || q == q0
  {
    hide Ok, Malloc, Free, Realloc, Ptr, CopyPayload, CopyReady;
    var id := BlockAtPtr(g, s, p);
    ReallocOk(o, g, s, id, size);
    ReallocOwners(o, g, s, id, size);
    var (s', r) := Realloc(o, g, s, id, size);
    AddressIs(g, r);
    forall q ensures LivePtr(g, s', q) <==> if r.None? then LivePtr(g, s, q) else (LivePtr(g, s, q) && q != p) || q == Address(g, r) {
      if LivePtr(g, s', q) {
        var x :| Owns(s', x) && Ptr(g, x) == q;
        if Owns(s, x) { OnePointer(g, s, x, id); }
      }
      if LivePtr(g, s, q) {
        var x :| Owns(s, x) && Ptr(g, x) == q;
        if x != id || r.None? { assert Owns(s', x); }
      }
      if r.Some? { assert Owns(s', r.value); }
    }
  }

  // What realloc does to the blocks the client owns.
  lemma ReallocOwners(o: Oracle, g: Geometry, s: State, id: BlockId, size: nat)
    requires g.Sound() && Lawful(o) && Ok(g, s) && Owns(s, id)
    ensures var (s', r) := Realloc(o, g, s, id, size);
            forall x :: Owns(s', x) <==> if r.None? then Owns(s, x) else (Owns(s, x) && x != id) || x == r.value
  {
    hide WorldOk, ListsOk, SizesRecorded, Stocked, Free, Malloc, CopyPayload;
    OwnedExists(g, s.w, id);
    var current := Capacity(SpaceOf(s.w), id);
    if size > current {
      MallocThenCopy(o, g, s, id, size);
      MallocOwners(o, g, s, size);
      var (s1, r) := Malloc(o, g, s, size);
      if r.Some? { CopyThenFree(g, s1, id, r.value, current); }
    }
  }

  lemma MallocOwners(o: Oracle, g: Geometry, s: State, size: nat)
    requires g.Sound() && Lawful(o) && Ok(g, s)
    ensures var (s', r) := Malloc(o, g, s, size); forall x :: Owns(s', x) <==> Owns(s, x) || r == Some(x)
  {
    hide Ok, Malloc;
    MallocEffect(o, g, s, size);
  }

  // Seen through its pointers alone, an event takes away the pointer it frees or moves and adds the
  // one it returns; a realloc that fails, and a write, leave them as they are.
  lemma EventPointers(o: Oracle, g: Geometry, s: State, e: Event)
    requires g.Sound() && Lawful(o) && Ok(g, s) && Legal(g, s, e)
    ensures var s', p := Step(o, g, s, e), Returns(o, g, s, e);
            forall q :: LivePtr(g, s', q) <==>
              || (p != 0 && q == p)
              || (LivePtr(g, s, q) && !(q != 0 && (e == CallFree(q) || (e.CallRealloc? && e.p == q && p != 0))))
  {
    hide Ok, Malloc, Free, Realloc, Address, Ptr;
    NullIsNotLive(g, s);
    match e
    case CallMalloc(size) => MallocAddsPointer(o, g, s, size);
    case CallFree(p) => if p != 0 { FreeRemovesPointer(g, s, p); }
    case CallRealloc(p, size) =>
      if p == 0 {
        MallocAddsPointer(o, g, s, size);
      } else {
        ReallocPointers(o, g, s, p, size);
        AddressIs(g, Realloc(o, g, s, BlockAtPtr(g, s, p), size).1);
      }
    case ClientWrite(p, offset, v) => WriteMovesNoPointer(g, s, Step(o, g, s, e));
  }

  lemma NullIsNotLive(g: Geometry, s: State)
    ensures !LivePtr(g, s, 0)
  {}

  lemma WriteMovesNoPointer(g: Geometry, s: State, s': State)
    requires s'.w.own == s.w.own
    ensures forall q :: LivePtr(g, s', q) <==> LivePtr(g, s, q)
  {
    forall q ensures LivePtr(g, s', q) <==> LivePtr(g, s, q) {
      if LivePtr(g, s, q) { var id :| Owns(s, id) && Ptr(g, id) == q; assert Owns(s', id); }
      if LivePtr(g, s', q) { var id :| Owns(s', id) && Ptr(g, id) == q; assert Owns(s, id); }
    }
  }

  lemma FreeOwners(g: Geometry, s: State, id: BlockId)
    requires g.Sound() && Ok(g, s) && Owns(s, id)
    ensures Free(g, s, id).w.own == s.w.own - {id}
  {
    hide WorldOk, SizesRecorded, Stocked, Z.Free, B.Free;
    OwnedExists(g, s.w, id);
  }

  // ---- what holds in every state of every run ----

  // Live payloads are mapped, pairwise disjoint, and disjoint from every byte of the allocator.
  lemma LivePayloadsDisjoint(g: Geometry, s: State, x: BlockId, y: BlockId)
    requires g.Sound() && Ok(g, s) && Owns(s, x) && Owns(s, y)
    ensures var sp := SpaceOf(s.w);
            && Exists(g, sp, x) && Exists(g, sp, y)
            && (x != y ==> Ptr(g, x) + Capacity(sp, x) <= Ptr(g, y) || Ptr(g, y) + Capacity(sp, y) <= Ptr(g, x))
            && (forall a :: InPayload(g, sp, x, a) ==> a in s.w.mem && !AllocatorByte(g, sp, a))
  {
    OwnedPayloadsDisjoint(g, s.w, x, y);
  }

  // The word before a live pointer is mapped and decodes to the block the pointer came from.
  lemma LivePointersDecode(g: Geometry, s: State, id: BlockId)
    requires g.Sound() && Ok(g, s) && Owns(s, id)
    ensures Mapped(s.w.mem, Ptr(g, id) - WORD, WORD)
    ensures var meta := LoadWord(s.w.mem, Ptr(g, id) - WORD);
            && (id.InZone? ==> MetaIsZone(meta) && MetaZone(meta) == id.zone && MetaBlockNum(meta) == id.index
                               && id.zone in PoolOf(s.w, id.c).zones)
            && (id.Big? ==> !MetaIsZone(meta) && meta == id.base && id.base in s.w.large.full)
  {
    OwnedExists(g, s.w, id);
    DecodeFindsBlock(g, SpaceOf(s.w), s.w.mem, id);
  }

  // Every zone is on the list its counter says, the counter is the number of free bits, and the
  // large lists partition the mapped large blocks.
  lemma ListsInOrder(g: Geometry, s: State)
    requires g.Sound() && Ok(g, s)
    ensures forall c: ZoneClass, z :: z in PoolOf(s.w, c).zones ==>
              var p := PoolOf(s.w, c);
              && p.zones[z].freeCount == Z.CountFree(p.zones[z].bits)
              && (z in p.free <==> p.zones[z].freeCount >= 1)
              && (z in p.full <==> p.zones[z].freeCount == 0)
    ensures forall b :: b in s.w.large.sizes ==> (b in s.w.large.free <==> b !in s.w.large.full)
    ensures forall b :: b in s.w.large.free ==> b in s.w.large.sizes && SMALL_BLOCK_SIZE < s.w.large.sizes[b] <= CACHE_LIMIT
    ensures forall b :: b in s.w.large.full <==> Big(b) in s.w.own
  {
  }

  // Conservation: the cleared bits are the live zone blocks plus exactly one lost block for each
  // failed refill.
  lemma ClearedBitsAccountedFor(g: Geometry, s: State)
    requires g.Sound() && Ok(g, s)
    ensures forall c: ZoneClass, z, k :: Z.Allocated(PoolOf(s.w, c), z, k) <==>
              Owns(s, InZone(c, z, k)) || InZone(c, z, k) in LostBlocks(s.w)
    ensures forall id :: id in LostBlocks(s.w) ==> !Owns(s, id)
    ensures |LostBlocks(s.w)| == s.failedRefills
  {
    forall c: ZoneClass, z, k
      ensures Z.Allocated(PoolOf(s.w, c), z, k) <==> Owns(s, InZone(c, z, k)) || InZone(c, z, k) in LostBlocks(s.w)
    {
      assert Z.Allocated(PoolOf(s.w, c), z, k) <==> InZone(c, z, k) in s.w.own;
    }
  }

  lemma NoFailureNoLoss(g: Geometry, s: State)
    requires g.Sound() && Ok(g, s) && s.failedRefills == 0
    ensures forall id :: id in s.w.own ==> Owns(s, id)
  {
    assert LostBlocks(s.w) == {};
    forall id | id in s.w.own ensures Owns(s, id) { assert id !in LostBlocks(s.w); }
  }

  // The one place that alloc_block looks at has nothing, and mmap refuses what it is then asked for.
  ghost predicate AllocRefused(o: Oracle, g: Geometry, s: State, size: nat)
    requires g.Sound()
  {
    var c := ClassOf(size);
    if c == Large then
      (forall b :: b in s.w.large.free && b in s.w.large.sizes ==> s.w.large.sizes[b] < size)
      && o(s.calls, s.w.mem, BLOCK_HEADER + WORD + size).None?
    else
      PoolOf(s.w, c).free == [] || (Z.FillsHead(PoolOf(s.w, c)) && o(s.calls, s.w.mem, g.Length(c)).None?)
  }

  lemma ZoneAllocFails(o: Oracle, g: Geometry, s: State, c: ZoneClass, size: nat)
    requires g.Sound() && Lawful(o) && Ok(g, s)
    ensures FindFreeBlock(o, g, s, c, size).1.None? <==>
            PoolOf(s.w, c).free == [] || (Z.FillsHead(PoolOf(s.w, c)) && o(s.calls, s.w.mem, g.Length(c)).None?)
  {
    hide WorldOk, SizesRecorded, Stocked, LostBlocks, AllocZone, B.Valid;
    var r := if Z.FillsHead(PoolOf(s.w, c)) then o(s.calls, s.w.mem, g.Length(c)) else None;
    assert Answer(s.w.mem, r, g.Length(c));
    AllocZoneEffect(g, s.w, c, size, r, Worlds.Client);
    var t := AllocZone(g, s.w, c, size, r, Worlds.Client).1;
    assert FindFreeBlock(o, g, s, c, size).1.Some? <==> t.Block?;
    assert t.Block? <==> !t.NoBlock? && !t.Leaked?;
    assert t.NoBlock? <==> PoolOf(s.w, c).free == [];
  }

  lemma LargeAllocFails(o: Oracle, g: Geometry, s: State, size: nat)
    requires Ok(g, s)
    ensures FindFreeLargeBlock(o, g, s, size).1.None? <==>
            (forall b :: b in s.w.large.free && b in s.w.large.sizes ==> s.w.large.sizes[b] < size)
            && o(s.calls, s.w.mem, BLOCK_HEADER + WORD + size).None?
  {
    hide WorldOk, SizesRecorded, Stocked, LostBlocks, Z.Valid;
    B.FreeHaveSizes(s.w.large);
  }

  lemma AllocFailsExactly(o: Oracle, g: Geometry, s: State, size: nat)
    requires g.Sound() && Lawful(o) && Ok(g, s)
    ensures AllocBlock(o, g, s, size).1.None? <==> AllocRefused(o, g, s, size)
  {
    hide Ok, FindFreeBlock, FindFreeLargeBlock, Z.FillsHead;
    if size <= TINY_BLOCK_SIZE {
      ZoneAllocFails(o, g, s, Tiny, size);
    } else if size <= SMALL_BLOCK_SIZE {
      ZoneAllocFails(o, g, s, Small, size);
    } else {
      LargeAllocFails(o, g, s, size);
    }
  }

  // setup_global_heap fails exactly when mmap refuses the first zone, or the second one after it.
  ghost predicate SetupRefused(o: Oracle, g: Geometry, s: State)
    requires g.Sound()
  {
    var first := o(s.calls, s.w.mem, g.Length(Tiny));
    first.None? || o(s.calls + 1, ZoneMemory(g, s.w.mem, Tiny, first.value), g.Length(Small)).None?
  }

  lemma SetupFailsExactly(o: Oracle, g: Geometry, s: State)
    requires g.Sound() && Lawful(o) && Ok(g, s) && !s.initialized
    ensures !SetupGlobalHeap(o, g, s).1 <==> SetupRefused(o, g, s)
  {
    hide ZoneMemory;
  }

  // A heap that has just been set up has a free block of either zone class.
  lemma SetupServes(o: Oracle, g: Geometry, s: State, c: ZoneClass)
    requires g.Sound() && Lawful(o) && Ok(g, s) && !s.initialized && SetupGlobalHeap(o, g, s).1
    ensures var p := PoolOf(SetupGlobalHeap(o, g, s).0.w, c); p.free != [] && !Z.FillsHead(p)
  {
    hide WorldOk, SizesRecorded, Stocked, LostBlocks, SetupGlobalHeap;
    SetupOk(o, g, s);
    NobodyOwnsHead(g, SetupGlobalHeap(o, g, s).0.w, c);
  }

  // Where nothing is owned every bit is set, so taking one leaves others.
  lemma NobodyOwnsHead(g: Geometry, w: World, c: ZoneClass)
    requires g.Sound() && WorldOk(g, w) && Z.Valid(PoolOf(w, c), g.Blocks(c)) && w.own == map[]
    ensures !Z.FillsHead(PoolOf(w, c))
  {
    var p := PoolOf(w, c);
    if p.free != [] {
      var z := p.free[0];
      assert z in p.zones;
      forall k | 0 <= k < |p.zones[z].bits| ensures p.zones[z].bits[k] {
        assert InZone(c, z, k) in w.own <==> Z.Allocated(p, z, k);
      }
      Z.CountExtremes(p.zones[z].bits);
    }
  }

  // The sizes malloc turns down: nothing is mapped, mmap is not asked and the flag stays as it is.
  lemma MallocRejects(o: Oracle, g: Geometry, s: State, size: nat)
    requires g.Sound() && Lawful(o) && Ok(g, s) && !(0 < size <= PTRDIFF_MAX)
    ensures Malloc(o, g, s, size) == (s, None)
  {
    hide Ok, AllocBlock, SetupGlobalHeap;
  }

  // malloc fails exactly for size 0 and above PTRDIFF_MAX, when the heap has to be set up first and
  // cannot be, or when alloc_block then finds nothing; a small request that found no heap yet fails only
  // with the setup.
  lemma MallocFailsExactly(o: Oracle, g: Geometry, s: State, size: nat)
    requires g.Sound() && Lawful(o) && Ok(g, s)
    ensures Malloc(o, g, s, size).1.None? <==>
            || size == 0 || size > PTRDIFF_MAX
            || if s.initialized then AllocRefused(o, g, s, size)
               else SetupRefused(o, g, s) || (ClassOf(size) == Large && AllocRefused(o, g, SetupGlobalHeap(o, g, s).0, size))
  {
    hide Ok, AllocBlock, SetupGlobalHeap, Lawful;
    if !(0 < size <= PTRDIFF_MAX) {
      MallocRejects(o, g, s, size);
    } else if s.initialized {
      AllocFailsExactly(o, g, s, size);
    } else {
      SetupFailsExactly(o, g, s);
      if SetupGlobalHeap(o, g, s).1 {
        SetupOk(o, g, s);
        AllocFailsExactly(o, g, SetupGlobalHeap(o, g, s).0, size);
        if ClassOf(size) != Large { SetupServes(o, g, s, ClassOf(size)); }
      }
    }
  }

  // As long as no refill has been refused, every small request on an initialised heap is served.
  lemma SmallRequestsServed(o: Oracle, g: Geometry, s: State, size: nat)
    requires g.Sound() && Lawful(o) && Ok(g, s) && s.initialized && 0 < size <= SMALL_BLOCK_SIZE
    ensures Malloc(o, g, s, size).0.failedRefills == 0 ==> Malloc(o, g, s, size).1.Some?
  {
    hide WorldOk, SizesRecorded, LostBlocks, AllocZone, B.Valid, Z.Valid;
    var c: ZoneClass := if size <= TINY_BLOCK_SIZE then Tiny else Small;
    var r := if Z.FillsHead(PoolOf(s.w, c)) then o(s.calls, s.w.mem, g.Length(c)) else None;
    assert Answer(s.w.mem, r, g.Length(c));
    AllocZoneEffect(g, s.w, c, size, r, Worlds.Client);
    var t := AllocZone(g, s.w, c, size, r, Worlds.Client).1;
    assert FindFreeBlock(o, g, s, c, size).1.Some? <==> t.Block?;
    assert t.NoBlock? <==> PoolOf(s.w, c).free == [];
  }
}
