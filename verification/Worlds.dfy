/** The whole shared state: the three size classes, the bytes of memory and, as a record kept for the
    proofs, who owns each block that is not free.

    Every elementary change the allocator or a client makes to this state has a lemma here saying that
    it keeps the structural invariant.  The sequential allocator and the threaded one are both built
    from these changes. */
module Worlds {
  import opened Sequences
  import opened Memory
  import opened Layout
  import opened Spaces
  import Z = Zones
  import B = Blocks

  // Lost marks a block whose bit was cleared just before the refilling mmap failed.
  datatype Owner = Client | Held(thread: nat) | Lost

  datatype World = World(tiny: Z.Pool, small: Z.Pool, large: B.Store, mem: Mem, own: map<BlockId, Owner>)

  const EMPTY_WORLD := World(Z.EMPTY_POOL, Z.EMPTY_POOL, B.EMPTY_STORE, map[], map[])

  function PoolOf(w: World, c: ZoneClass): Z.Pool { if c.Tiny? then w.tiny else w.small }

  function SetPool(w: World, c: ZoneClass, p: Z.Pool): World {
    if c.Tiny? then w.(tiny := p) else w.(small := p)
  }

  function SpaceOf(w: World): Space {
    map a | a in w.tiny.zones.Keys + w.small.zones.Keys + w.large.sizes.Keys ::
      if a in w.tiny.zones then ZoneAt(Tiny)
      else if a in w.small.zones then ZoneAt(Small)
      else BlockAt(w.large.sizes[a])
  }

  ghost predicate KeysApart(w: World) {
    && (forall a :: a in w.tiny.zones ==> a !in w.small.zones && a !in w.large.sizes)
    && (forall a :: a in w.small.zones ==> a !in w.large.sizes)
  }

  ghost predicate Shaped(p: Z.Pool, n: nat) {
    forall z :: z in p.zones ==> |p.zones[z].bits| == |p.zones[z].requested| == n
  }

  // Cleared bits, and large blocks that are not cached, are exactly the blocks somebody owns.
  ghost predicate OwnExact(w: World) {
    && (forall c: ZoneClass, z, k :: InZone(c, z, k) in w.own <==> Z.Allocated(PoolOf(w, c), z, k))
    && (forall b :: Big(b) in w.own <==> b in w.large.sizes && b !in w.large.free)
  }

  ghost predicate WorldOk(g: Geometry, w: World) {
    && KeysApart(w)
    && Shaped(w.tiny, g.tinyBlocks) && Shaped(w.small, g.smallBlocks)
    && OwnExact(w)
    && SpaceOk(g, SpaceOf(w), w.mem)
  }

  lemma WorldSpace(g: Geometry, w: World)
    requires WorldOk(g, w)
    ensures SpaceOk(g, SpaceOf(w), w.mem)
  {}

  // The lists of all three classes are in order; true whenever no operation is under way.
  ghost predicate ListsOk(g: Geometry, w: World) {
    Z.Valid(w.tiny, g.tinyBlocks) && Z.Valid(w.small, g.smallBlocks) && B.Valid(w.large)
  }

  // The parts put together; the space may be known by another name.
  lemma WorldOkFromParts(g: Geometry, w: World, sp: Space)
    requires KeysApart(w) && Shaped(w.tiny, g.tinyBlocks) && Shaped(w.small, g.smallBlocks) && OwnExact(w)
    requires SpaceOf(w) == sp && SpaceOk(g, sp, w.mem)
    ensures WorldOk(g, w)
  {}

  lemma EmptyWorldOk(g: Geometry)
    ensures WorldOk(g, EMPTY_WORLD) && ListsOk(g, EMPTY_WORLD)
  {
    assert SpaceOf(EMPTY_WORLD) == map[];
  }

  // An owned block exists, so all that is known about existing blocks applies to it.
  lemma OwnedExists(g: Geometry, w: World, id: BlockId)
    requires WorldOk(g, w) && id in w.own
    ensures Exists(g, SpaceOf(w), id)
    ensures id.InZone? ==> Z.Allocated(PoolOf(w, id.c), id.zone, id.index)
    ensures id.Big? ==> id.base in w.large.sizes && id.base !in w.large.free && SpaceOf(w)[id.base] == BlockAt(w.large.sizes[id.base])
  {
    match id
    case InZone(c, z, k) => assert Z.Allocated(PoolOf(w, c), z, k);
    case Big(b) =>
  }

  // ---- bits ----

  function Take(w: World, c: ZoneClass, z: nat, k: nat, size: nat, o: Owner): World
    requires z in PoolOf(w, c).zones && k < |PoolOf(w, c).zones[z].bits| && k < |PoolOf(w, c).zones[z].requested|
  {
    SetPool(w, c, Z.TakeBit(PoolOf(w, c), z, k, size)).(own := w.own[InZone(c, z, k) := o])
  }

  function Give(w: World, c: ZoneClass, z: nat, k: nat): World
    requires z in PoolOf(w, c).zones && k < |PoolOf(w, c).zones[z].bits|
  {
    SetPool(w, c, Z.GiveBit(PoolOf(w, c), z, k)).(own := w.own - {InZone(c, z, k)})
  }

  lemma TakeKeepsOwners(g: Geometry, w: World, c: ZoneClass, z: nat, k: nat, size: nat, o: Owner)
    requires OwnExact(w) && Shaped(PoolOf(w, c), g.Blocks(c))
    requires z in PoolOf(w, c).zones && k < g.Blocks(c)
    ensures OwnExact(Take(w, c, z, k, size, o))
  {
    var w' := Take(w, c, z, k, size, o);
    forall c': ZoneClass, z', k'
      ensures InZone(c', z', k') in w'.own <==> Z.Allocated(PoolOf(w', c'), z', k')
    {
      assert InZone(c', z', k') in w.own <==> Z.Allocated(PoolOf(w, c'), z', k');
    }
  }

  // A bit update leaves the shapes and the space as they are.
  lemma BitsKeepShape(g: Geometry, w: World, c: ZoneClass, p: Z.Pool)
    requires KeysApart(w) && Shaped(w.tiny, g.tinyBlocks) && Shaped(w.small, g.smallBlocks)
    requires p.zones.Keys == PoolOf(w, c).zones.Keys && Shaped(p, g.Blocks(c))
    ensures var w' := SetPool(w, c, p);
            KeysApart(w') && Shaped(w'.tiny, g.tinyBlocks) && Shaped(w'.small, g.smallBlocks) && SpaceOf(w') == SpaceOf(w)
  {
    assert forall a :: a in p.zones <==> a in PoolOf(w, c).zones;
    assert SpaceOf(SetPool(w, c, p)) == SpaceOf(w);
  }

  lemma TakeKeepsWorld(g: Geometry, w: World, c: ZoneClass, z: nat, k: nat, size: nat, o: Owner)
    requires WorldOk(g, w) && z in PoolOf(w, c).zones && k < g.Blocks(c) && PoolOf(w, c).zones[z].bits[k]
    ensures InZone(c, z, k) !in w.own
    ensures WorldOk(g, Take(w, c, z, k, size, o)) && SpaceOf(Take(w, c, z, k, size, o)) == SpaceOf(w)
  {
    assert !Z.Allocated(PoolOf(w, c), z, k);
    TakeKeepsOwners(g, w, c, z, k, size, o);
    var p' := Z.TakeBit(PoolOf(w, c), z, k, size);
    assert p'.zones.Keys == PoolOf(w, c).zones.Keys;
    BitsKeepShape(g, w, c, p');
    var w' := Take(w, c, z, k, size, o);
    assert SpaceOf(w') == SpaceOf(SetPool(w, c, p'));
    WorldOkFromParts(g, w', SpaceOf(w));
  }

  lemma GiveKeepsOwners(w: World, c: ZoneClass, z: nat, k: nat)
    requires OwnExact(w) && Z.Allocated(PoolOf(w, c), z, k)
    ensures OwnExact(Give(w, c, z, k))
  {
    var w' := Give(w, c, z, k);
    forall c': ZoneClass, z', k'
      ensures InZone(c', z', k') in w'.own <==> Z.Allocated(PoolOf(w', c'), z', k')
    {
      assert InZone(c', z', k') in w.own <==> Z.Allocated(PoolOf(w, c'), z', k');
    }
  }

  lemma GiveKeepsWorld(g: Geometry, w: World, c: ZoneClass, z: nat, k: nat)
    requires WorldOk(g, w) && InZone(c, z, k) in w.own
    ensures z in PoolOf(w, c).zones && k < g.Blocks(c)
    ensures WorldOk(g, Give(w, c, z, k)) && SpaceOf(Give(w, c, z, k)) == SpaceOf(w)
  {
    assert Z.Allocated(PoolOf(w, c), z, k);
    GiveKeepsOwners(w, c, z, k);
    var p' := Z.GiveBit(PoolOf(w, c), z, k);
    assert p'.zones.Keys == PoolOf(w, c).zones.Keys;
    BitsKeepShape(g, w, c, p');
    var w' := Give(w, c, z, k);
    assert SpaceOf(w') == SpaceOf(SetPool(w, c, p'));
    WorldOkFromParts(g, w', SpaceOf(w));
  }

  // ---- ownership and bytes ----

  lemma OwnerChangeKeepsWorld(g: Geometry, w: World, id: BlockId, o: Owner)
    requires WorldOk(g, w) && id in w.own
    ensures WorldOk(g, w.(own := w.own[id := o])) && SpaceOf(w.(own := w.own[id := o])) == SpaceOf(w)
  {
    assert SpaceOf(w.(own := w.own[id := o])) == SpaceOf(w);
  }

  // A client that writes inside a payload it owns changes nothing the allocator relies on.
  lemma WriteKeepsWorld(g: Geometry, w: World, id: BlockId, x: nat, v: byte)
    requires g.Sound() && WorldOk(g, w) && id in w.own && InPayload(g, SpaceOf(w), id, x)
    ensures x in w.mem
    ensures var w' := w.(mem := w.mem[x := v]); WorldOk(g, w') && SpaceOf(w') == SpaceOf(w)
    ensures forall y :: AllocatorByte(g, SpaceOf(w), y) && y in w.mem ==> w.mem[x := v][y] == w.mem[y]
  {
    PayloadWriteKeepsSpace(g, SpaceOf(w), w.mem, id, x, v);
    assert SpaceOf(w.(mem := w.mem[x := v])) == SpaceOf(w);
  }

  // The same for any number of bytes at once.
  lemma PayloadChangeKeepsWorld(g: Geometry, w: World, id: BlockId, mem: Mem)
    requires g.Sound() && WorldOk(g, w) && id in w.own
    requires mem.Keys == w.mem.Keys
    requires forall x :: x in mem && !InPayload(g, SpaceOf(w), id, x) ==> mem[x] == w.mem[x]
    ensures WorldOk(g, w.(mem := mem)) && SpaceOf(w.(mem := mem)) == SpaceOf(w)
  {
    var sp := SpaceOf(w);
    forall other, x | Exists(g, sp, other) && Ptr(g, other) - WORD <= x < Ptr(g, other) && x in w.mem && x in mem
      ensures mem[x] == w.mem[x]
    {
      if InPayload(g, sp, id, x) { PayloadIsNotAllocator(g, sp, id, x); assert AllocatorByte(g, sp, x); assert false; }
    }
    assert AllMapped(g, sp, mem) by {
      forall a | a in sp ensures Mapped(mem, a, Length(g, sp[a])) {
        assert Mapped(w.mem, a, Length(g, sp[a]));
        assert forall x :: x in w.mem <==> x in mem;
      }
    }
    MemoryChangeKeepsSpace(g, sp, w.mem, mem);
    assert SpaceOf(w.(mem := mem)) == sp;
    WorldOkFromParts(g, w.(mem := mem), sp);
  }

  // ---- lists ----

  // Zone lists may be rearranged freely: the structural invariant does not look at them.
  lemma ZoneListsKeepWorld(g: Geometry, w: World, c: ZoneClass, p: Z.Pool)
    requires WorldOk(g, w) && p.zones == PoolOf(w, c).zones
    ensures WorldOk(g, SetPool(w, c, p)) && SpaceOf(SetPool(w, c, p)) == SpaceOf(w)
  {
    var w' := SetPool(w, c, p);
    assert SpaceOf(w') == SpaceOf(w);
    forall c': ZoneClass, z', k'
      ensures InZone(c', z', k') in w'.own <==> Z.Allocated(PoolOf(w', c'), z', k')
    {
      assert InZone(c', z', k') in w.own <==> Z.Allocated(PoolOf(w, c'), z', k');
    }
  }

  lemma BlockListsKeepWorld(g: Geometry, w: World, s: B.Store)
    requires WorldOk(g, w) && s.sizes == w.large.sizes
    requires forall b :: b in s.free <==> b in w.large.free
    ensures WorldOk(g, w.(large := s)) && SpaceOf(w.(large := s)) == SpaceOf(w)
  {
    assert SpaceOf(w.(large := s)) == SpaceOf(w);
  }

  // ---- mapping and unmapping ----

  function AddZone(g: Geometry, w: World, c: ZoneClass, a: nat): World
    requires g.Sound()
  {
    SetPool(w, c, Z.MapZone(PoolOf(w, c), a, g.Blocks(c))).(mem := ZoneMemory(g, w.mem, c, a))
  }

  function DropZone(g: Geometry, w: World, c: ZoneClass, z: nat): World {
    SetPool(w, c, Z.UnmapZone(PoolOf(w, c), z)).(mem := Unmap(w.mem, z, g.Length(c)))
  }

  function AddBlock(w: World, a: nat, size: nat, o: Owner): World {
    w.(large := B.MapBlock(w.large, a, size), mem := BlockMemory(w.mem, a, size), own := w.own[Big(a) := o])
  }

  function DropBlock(w: World, b: nat): World
    requires b in w.large.sizes
  {
    w.(large := B.UnmapBlock(w.large, b), mem := Unmap(w.mem, b, BLOCK_HEADER + WORD + w.large.sizes[b]), own := w.own - {Big(b)})
  }

  lemma AddZoneKeepsOwners(g: Geometry, w: World, c: ZoneClass, a: nat)
    requires g.Sound() && OwnExact(w) && a !in PoolOf(w, c).zones
    ensures OwnExact(AddZone(g, w, c, a))
  {
    var w' := AddZone(g, w, c, a);
    forall c': ZoneClass, z', k'
      ensures InZone(c', z', k') in w'.own <==> Z.Allocated(PoolOf(w', c'), z', k')
    {
      assert InZone(c', z', k') in w.own <==> Z.Allocated(PoolOf(w, c'), z', k');
    }
  }

  lemma AddZoneShape(g: Geometry, w: World, c: ZoneClass, a: nat, mem: Mem)
    requires g.Sound() && KeysApart(w) && Shaped(w.tiny, g.tinyBlocks) && Shaped(w.small, g.smallBlocks)
    requires a !in SpaceOf(w)
    ensures var w' := SetPool(w, c, Z.MapZone(PoolOf(w, c), a, g.Blocks(c))).(mem := mem);
            && KeysApart(w') && Shaped(w'.tiny, g.tinyBlocks) && Shaped(w'.small, g.smallBlocks)
            && SpaceOf(w') == SpaceOf(w)[a := ZoneAt(c)]
  {
    hide SpaceOf;
    SpaceAt(w, a);
    AddZoneSpace(g, w, c, a, mem);
  }

  lemma AddZoneSpace(g: Geometry, w: World, c: ZoneClass, a: nat, mem: Mem)
    requires a !in SpaceOf(w)
    ensures SpaceOf(SetPool(w, c, Z.MapZone(PoolOf(w, c), a, g.Blocks(c))).(mem := mem)) == SpaceOf(w)[a := ZoneAt(c)]
  {
    hide SpaceOf, Z.FreshZone;
    var w' := SetPool(w, c, Z.MapZone(PoolOf(w, c), a, g.Blocks(c))).(mem := mem);
    SpaceAt(w, a);
    forall x ensures x in SpaceOf(w') <==> x in SpaceOf(w) || x == a {
      SpaceAt(w, x);
      SpaceAt(w', x);
    }
    forall x | x in SpaceOf(w') ensures SpaceOf(w')[x] == SpaceOf(w)[a := ZoneAt(c)][x] {
      SpaceAt(w, x);
      SpaceAt(w', x);
    }
  }

  lemma SpaceAt(w: World, x: nat)
    ensures x in SpaceOf(w) <==> x in w.tiny.zones || x in w.small.zones || x in w.large.sizes
    ensures x in SpaceOf(w) ==>
              SpaceOf(w)[x] == if x in w.tiny.zones then ZoneAt(Tiny) else if x in w.small.zones then ZoneAt(Small) else BlockAt(w.large.sizes[x])
  {}

  lemma AddZoneKeepsWorld(g: Geometry, w: World, c: ZoneClass, a: nat)
    requires g.Sound() && WorldOk(g, w) && Fresh(w.mem, a, g.Length(c))
    ensures a !in SpaceOf(w)
    ensures WorldOk(g, AddZone(g, w, c, a)) && SpaceOf(AddZone(g, w, c, a)) == SpaceOf(w)[a := ZoneAt(c)]
  {
    NewZoneKeepsSpace(g, SpaceOf(w), w.mem, c, a);
    AddZoneShape(g, w, c, a, ZoneMemory(g, w.mem, c, a));
    AddZoneKeepsOwners(g, w, c, a);
    WorldOkFromParts(g, AddZone(g, w, c, a), SpaceOf(w)[a := ZoneAt(c)]);
  }

  lemma DropZoneKeepsOwners(g: Geometry, w: World, c: ZoneClass, z: nat)
    requires OwnExact(w) && forall k :: InZone(c, z, k) !in w.own
    ensures OwnExact(DropZone(g, w, c, z))
  {
    var w' := DropZone(g, w, c, z);
    forall c': ZoneClass, z', k'
      ensures InZone(c', z', k') in w'.own <==> Z.Allocated(PoolOf(w', c'), z', k')
    {
      assert InZone(c', z', k') in w.own <==> Z.Allocated(PoolOf(w, c'), z', k');
    }
  }

  lemma DropZoneShape(g: Geometry, w: World, c: ZoneClass, z: nat)
    requires KeysApart(w) && Shaped(w.tiny, g.tinyBlocks) && Shaped(w.small, g.smallBlocks)
    requires z in PoolOf(w, c).zones
    ensures var w' := DropZone(g, w, c, z);
            && KeysApart(w') && Shaped(w'.tiny, g.tinyBlocks) && Shaped(w'.small, g.smallBlocks)
            && SpaceOf(w') == SpaceOf(w) - {z}
  {
    var w' := DropZone(g, w, c, z);
    assert SpaceOf(w') == SpaceOf(w) - {z};
  }

  lemma DropZoneKeepsWorld(g: Geometry, w: World, c: ZoneClass, z: nat)
    requires g.Sound() && WorldOk(g, w) && z in PoolOf(w, c).zones
    requires forall k :: InZone(c, z, k) !in w.own
    ensures WorldOk(g, DropZone(g, w, c, z)) && SpaceOf(DropZone(g, w, c, z)) == SpaceOf(w) - {z}
    ensures SpaceOf(w)[z] == ZoneAt(c)
  {
    assert SpaceOf(w)[z] == ZoneAt(c);
    UnmapKeepsSpace(g, SpaceOf(w), w.mem, z);
    DropZoneShape(g, w, c, z);
    DropZoneKeepsOwners(g, w, c, z);
    WorldOkFromParts(g, DropZone(g, w, c, z), SpaceOf(w) - {z});
  }

  lemma AddBlockShape(g: Geometry, w: World, a: nat, size: nat, o: Owner)
    requires KeysApart(w) && OwnExact(w) && a !in SpaceOf(w) && a !in w.large.free
    ensures var w' := AddBlock(w, a, size, o);
            KeysApart(w') && OwnExact(w') && SpaceOf(w') == SpaceOf(w)[a := BlockAt(size)]
  {
    hide SpaceOf, BlockMemory;
    SpaceAt(w, a);
    AddBlockSpace(w, a, size, o);
  }

  lemma AddBlockSpace(w: World, a: nat, size: nat, o: Owner)
    requires a !in SpaceOf(w)
    ensures SpaceOf(AddBlock(w, a, size, o)) == SpaceOf(w)[a := BlockAt(size)]
  {
    hide SpaceOf, BlockMemory;
    var w' := AddBlock(w, a, size, o);
    SpaceAt(w, a);
    forall x ensures x in SpaceOf(w') <==> x in SpaceOf(w) || x == a {
      SpaceAt(w, x);
      SpaceAt(w', x);
    }
    forall x | x in SpaceOf(w') ensures SpaceOf(w')[x] == SpaceOf(w)[a := BlockAt(size)][x] {
      SpaceAt(w, x);
      SpaceAt(w', x);
    }
  }

  lemma DropBlockShape(g: Geometry, w: World, b: nat)
    requires KeysApart(w) && OwnExact(w) && b in w.large.sizes
    ensures var w' := DropBlock(w, b);
            KeysApart(w') && OwnExact(w') && SpaceOf(w') == SpaceOf(w) - {b}
  {
    assert SpaceOf(DropBlock(w, b)) == SpaceOf(w) - {b};
  }

  lemma AddBlockKeepsWorld(g: Geometry, w: World, a: nat, size: nat, o: Owner)
    requires g.Sound() && WorldOk(g, w) && Fresh(w.mem, a, BLOCK_HEADER + WORD + size) && a !in w.large.free
    ensures a !in SpaceOf(w) && Big(a) !in w.own
    ensures WorldOk(g, AddBlock(w, a, size, o)) && SpaceOf(AddBlock(w, a, size, o)) == SpaceOf(w)[a := BlockAt(size)]
  {
    NewBlockKeepsSpace(g, SpaceOf(w), w.mem, a, size);
    AddBlockShape(g, w, a, size, o);
    WorldOkFromParts(g, AddBlock(w, a, size, o), SpaceOf(w)[a := BlockAt(size)]);
  }

  lemma DropBlockSpace(g: Geometry, w: World, b: nat)
    requires g.Sound() && SpaceOk(g, SpaceOf(w), w.mem)
    requires b in w.large.sizes && SpaceOf(w)[b] == BlockAt(w.large.sizes[b])
    ensures SpaceOk(g, SpaceOf(w) - {b}, DropBlock(w, b).mem)
  {
    hide SpaceOf, SpaceOk, Unmap;
    SpaceAt(w, b);
    UnmapKeepsSpace(g, SpaceOf(w), w.mem, b);
  }

  lemma DropBlockKeepsWorld(g: Geometry, w: World, b: nat)
    requires g.Sound() && WorldOk(g, w) && Big(b) in w.own
    ensures b in w.large.sizes
    ensures WorldOk(g, DropBlock(w, b)) && SpaceOf(DropBlock(w, b)) == SpaceOf(w) - {b}
  {
    OwnedExists(g, w, Big(b));
    DropBlockSpace(g, w, b);
    DropBlockShape(g, w, b);
    WorldOkFromParts(g, DropBlock(w, b), SpaceOf(w) - {b});
  }

  // A cached block goes into use, and back.
  function Reuse(w: World, b: nat, o: Owner): World {
    w.(large := B.DetachFree(w.large, b), own := w.own[Big(b) := o])
  }

  function Cache(w: World, b: nat): World {
    w.(large := B.AppendFree(w.large, b), own := w.own - {Big(b)})
  }

  lemma ReuseKeepsWorld(g: Geometry, w: World, b: nat, o: Owner)
    requires WorldOk(g, w) && b in w.large.free && NoDup(w.large.free) && b in w.large.sizes
    ensures Big(b) !in w.own
    ensures WorldOk(g, Reuse(w, b, o)) && SpaceOf(Reuse(w, b, o)) == SpaceOf(w)
  {
    RemoveKeeps(w.large.free, b);
    assert SpaceOf(Reuse(w, b, o)) == SpaceOf(w);
  }

  lemma CacheKeepsWorld(g: Geometry, w: World, b: nat)
    requires WorldOk(g, w) && Big(b) in w.own
    ensures WorldOk(g, Cache(w, b)) && SpaceOf(Cache(w, b)) == SpaceOf(w)
  {
    assert SpaceOf(Cache(w, b)) == SpaceOf(w);
  }

  // ---- what it means to leave a block alone ----

  // The block keeps its place, its capacity and its bytes.
  ghost predicate PayloadKept(g: Geometry, w: World, w': World, id: BlockId) {
    && Exists(g, SpaceOf(w), id) && Exists(g, SpaceOf(w'), id)
    && Capacity(SpaceOf(w'), id) == Capacity(SpaceOf(w), id)
    && forall x :: Ptr(g, id) <= x < Ptr(g, id) + Capacity(SpaceOf(w), id) ==>
                     x in w.mem && x in w'.mem && w'.mem[x] == w.mem[x]
  }

  lemma KeptTwice(g: Geometry, w: World, w1: World, w2: World, id: BlockId)
    requires PayloadKept(g, w, w1, id) && PayloadKept(g, w1, w2, id)
    ensures PayloadKept(g, w, w2, id)
  {}

  lemma PayloadMapped(g: Geometry, w: World, id: BlockId)
    requires g.Sound() && WorldOk(g, w) && id in w.own
    ensures Exists(g, SpaceOf(w), id)
    ensures Mapped(w.mem, Ptr(g, id), Capacity(SpaceOf(w), id))
  {
    OwnedExists(g, w, id);
    SlotInside(g, SpaceOf(w), id);
    assert Mapped(w.mem, Base(id), Length(g, SpaceOf(w)[Base(id)]));
  }

  // Owned payloads are mapped, pairwise disjoint, and disjoint from every byte of the allocator.
  lemma OwnedPayloadsDisjoint(g: Geometry, w: World, x: BlockId, y: BlockId)
    requires g.Sound() && WorldOk(g, w) && x in w.own && y in w.own
    ensures var sp := SpaceOf(w);
            && Exists(g, sp, x) && Exists(g, sp, y)
            && (x != y ==> Ptr(g, x) + Capacity(sp, x) <= Ptr(g, y) || Ptr(g, y) + Capacity(sp, y) <= Ptr(g, x))
            && (forall a :: InPayload(g, sp, x, a) ==> a in w.mem && !AllocatorByte(g, sp, a))
  {
    var sp := SpaceOf(w);
    PayloadMapped(g, w, x);
    PayloadMapped(g, w, y);
    if x != y { SlotsApart(g, sp, x, y); }
    forall a | InPayload(g, sp, x, a) ensures !AllocatorByte(g, sp, a) { PayloadIsNotAllocator(g, sp, x, a); }
  }

  // When mapped bytes keep their values, every owned block that stays owned is left alone.
  lemma BytesKeptIsKept(g: Geometry, w: World, w': World, id: BlockId)
    requires g.Sound() && WorldOk(g, w) && WorldOk(g, w') && BytesKept(w.mem, w'.mem) && id in w.own && id in w'.own
    requires id.Big? && id.base in w.large.sizes && id.base in w'.large.sizes ==> w'.large.sizes[id.base] == w.large.sizes[id.base]
    ensures PayloadKept(g, w, w', id)
  {
    PayloadMapped(g, w, id);
    OwnedExists(g, w, id);
    OwnedExists(g, w', id);
  }
}
