/** The effect of one whole allocation or release on the shared state.  The sequential allocator runs
    these without a lock; under threads they are what a locked section amounts to. */
module Sections {
  import opened Sequences
  import opened Memory
  import opened Layout
  import opened Spaces
  import opened Worlds
  import Z = Zones
  import B = Blocks

  ghost predicate PoolOk(g: Geometry, w: World, c: ZoneClass) { Z.Valid(PoolOf(w, c), g.Blocks(c)) }

  // Legal answers of mmap for a request of the given length.
  ghost predicate Answer(mem: Mem, r: Option<nat>, len: nat) {
    r.Some? ==> Fresh(mem, r.value, len)
  }

  // create_zone once mmap has answered: the zone is initialised and put at the back of its free list.
  function JoinZone(g: Geometry, w: World, c: ZoneClass, a: nat): World
    requires g.Sound()
  {
    var w1 := AddZone(g, w, c, a);
    SetPool(w1, c, Z.AppendFree(PoolOf(w1, c), a))
  }

  lemma JoinZoneOk(g: Geometry, w: World, c: ZoneClass, a: nat)
    requires g.Sound() && WorldOk(g, w) && PoolOk(g, w, c) && Fresh(w.mem, a, g.Length(c))
    ensures a !in SpaceOf(w)
    ensures WorldOk(g, JoinZone(g, w, c, a)) && PoolOk(g, JoinZone(g, w, c, a), c)
    ensures SpaceOf(JoinZone(g, w, c, a)) == SpaceOf(w)[a := ZoneAt(c)]
  {
    AddZoneKeepsWorld(g, w, c, a);
    var w1 := AddZone(g, w, c, a);
    Z.NewZoneKeepsValid(PoolOf(w, c), g.Blocks(c), a);
    ZoneListsKeepWorld(g, w1, c, Z.AppendFree(PoolOf(w1, c), a));
  }

  lemma JoinZoneParts(g: Geometry, w: World, c: ZoneClass, a: nat)
    requires g.Sound()
    ensures var w' := JoinZone(g, w, c, a);
            && w'.mem == ZoneMemory(g, w.mem, c, a) && w'.large == w.large && w'.own == w.own
            && w'.tiny == (if c == Tiny then Z.AppendFree(Z.MapZone(w.tiny, a, g.tinyBlocks), a) else w.tiny)
            && w'.small == (if c == Small then Z.AppendFree(Z.MapZone(w.small, a, g.smallBlocks), a) else w.small)
  {}

  // find_free_block: o is recorded as the owner of the block handed out.
  function AllocZone(g: Geometry, w: World, c: ZoneClass, size: nat, r: Option<nat>, o: Owner): (World, Z.Taken)
    requires g.Sound() && PoolOk(g, w, c)
  {
    var (p, t) := Z.Alloc(PoolOf(w, c), g.Blocks(c), size, r);
    var w1 := SetPool(w, c, p);
    var w2 := if Z.FillsHead(PoolOf(w, c)) && r.Some? then w1.(mem := ZoneMemory(g, w.mem, c, r.value)) else w1;
    match t
    case NoBlock => (w2, t)
    case Block(z, k) => (w2.(own := w.own[InZone(c, z, k) := o]), t)
    case Leaked(z, k) => (w2.(own := w.own[InZone(c, z, k) := Lost]), t)
  }

  function TakenOwner(t: Z.Taken, o: Owner): Owner { if t.Leaked? then Lost else o }

  // The block that find_set_bit picks in the head zone.
  function HeadIndex(p: Z.Pool, n: nat): (k: nat)
    requires Z.Valid(p, n) && p.free != []
    ensures k < n && p.zones[p.free[0]].bits[k]
  {
    Z.CountExtremes(p.zones[p.free[0]].bits);
    Z.FirstFree(p.zones[p.free[0]].bits).value
  }

  function MoveToFull(w: World, c: ZoneClass, z: nat): World {
    SetPool(w, c, Z.AppendFull(Z.DetachFree(PoolOf(w, c), z), z))
  }

  // The allocation spelled out as its steps: clear the bit; when that was the last one, move the
  // zone to the full list and join a new zone if mmap grants one.
  lemma AllocZoneSteps(g: Geometry, w: World, c: ZoneClass, size: nat, r: Option<nat>, o: Owner)
    requires g.Sound() && PoolOk(g, w, c)
    ensures var p, n := PoolOf(w, c), g.Blocks(c);
            if p.free == [] then AllocZone(g, w, c, size, r, o) == (w, Z.NoBlock)
            else
              var z, k := p.free[0], HeadIndex(p, n);
              if p.zones[z].freeCount != 1 then
                AllocZone(g, w, c, size, r, o) == (Take(w, c, z, k, size, o), Z.Block(z, k))
              else if r.None? then
                AllocZone(g, w, c, size, r, o) == (MoveToFull(Take(w, c, z, k, size, Lost), c, z), Z.Leaked(z, k))
              else
                AllocZone(g, w, c, size, r, o) == (JoinZone(g, MoveToFull(Take(w, c, z, k, size, o), c, z), c, r.value), Z.Block(z, k))
  {}

  lemma AllocZoneOk(g: Geometry, w: World, c: ZoneClass, size: nat, r: Option<nat>, o: Owner)
    requires g.Sound() && WorldOk(g, w) && PoolOk(g, w, c)
    requires Answer(w.mem, r, g.Length(c))
    ensures var (w', t) := AllocZone(g, w, c, size, r, o);
            && WorldOk(g, w') && PoolOk(g, w', c)
            && SpaceOf(w') == (if Z.FillsHead(PoolOf(w, c)) && r.Some? then SpaceOf(w)[r.value := ZoneAt(c)] else SpaceOf(w))
  {
    var p, n := PoolOf(w, c), g.Blocks(c);
    AllocZoneSteps(g, w, c, size, r, o);
    if p.free != [] {
      var z, k := p.free[0], HeadIndex(p, n);
      var o' := if p.zones[z].freeCount == 1 && r.None? then Lost else o;
      TakeOk(g, w, c, size, o');
      if p.zones[z].freeCount == 1 {
        MoveToFullOk(g, w, c, size, o');
        if r.Some? { JoinZoneOk(g, MoveToFull(Take(w, c, z, k, size, o'), c, z), c, r.value); }
      }
    }
  }

  lemma TakeOk(g: Geometry, w: World, c: ZoneClass, size: nat, o: Owner)
    requires g.Sound() && WorldOk(g, w) && PoolOk(g, w, c) && PoolOf(w, c).free != []
    ensures var z, k := PoolOf(w, c).free[0], HeadIndex(PoolOf(w, c), g.Blocks(c));
            var w1 := Take(w, c, z, k, size, o);
            && WorldOk(g, w1) && SpaceOf(w1) == SpaceOf(w)
            && InZone(c, z, k) !in w.own
            && (PoolOf(w, c).zones[z].freeCount != 1 ==> PoolOk(g, w1, c))
  {
    var z, k := PoolOf(w, c).free[0], HeadIndex(PoolOf(w, c), g.Blocks(c));
    TakeKeepsWorld(g, w, c, z, k, size, o);
    if PoolOf(w, c).zones[z].freeCount != 1 { Z.TakeKeepsValid(PoolOf(w, c), g.Blocks(c), z, k, size); }
  }

  lemma MoveToFullOk(g: Geometry, w: World, c: ZoneClass, size: nat, o: Owner)
    requires g.Sound() && WorldOk(g, w) && PoolOk(g, w, c) && PoolOf(w, c).free != []
    requires PoolOf(w, c).zones[PoolOf(w, c).free[0]].freeCount == 1
    ensures var z, k := PoolOf(w, c).free[0], HeadIndex(PoolOf(w, c), g.Blocks(c));
            var w2 := MoveToFull(Take(w, c, z, k, size, o), c, z);
            WorldOk(g, w2) && SpaceOf(w2) == SpaceOf(w) && PoolOk(g, w2, c)
  {
    var z, k := PoolOf(w, c).free[0], HeadIndex(PoolOf(w, c), g.Blocks(c));
    TakeKeepsWorld(g, w, c, z, k, size, o);
    var w1 := Take(w, c, z, k, size, o);
    Z.MoveToFullKeepsValid(PoolOf(w, c), g.Blocks(c), z, k, size);
    ZoneListsKeepWorld(g, w1, c, Z.AppendFull(Z.DetachFree(PoolOf(w1, c), z), z));
  }

  // A block is handed out that nobody owned; nobody else's ownership changes; its requested size is
  // recorded; and every byte that was mapped keeps its value.
  lemma AllocZoneEffect(g: Geometry, w: World, c: ZoneClass, size: nat, r: Option<nat>, o: Owner)
    requires g.Sound() && WorldOk(g, w) && PoolOk(g, w, c)
    requires Answer(w.mem, r, g.Length(c))
    ensures var p := PoolOf(w, c);
            var (w', t) := AllocZone(g, w, c, size, r, o);
            && (t.NoBlock? <==> p.free == [])
            && (t.Leaked? <==> Z.FillsHead(p) && r.None?)
            && (t.NoBlock? ==> w' == w)
            && (!t.NoBlock? ==>
                  && InZone(c, t.zone, t.index) !in w.own
                  && w'.own == w.own[InZone(c, t.zone, t.index) := TakenOwner(t, o)])
            && (forall x :: x in w.mem ==> x in w'.mem && w'.mem[x] == w.mem[x])
  {
    hide WorldOk, AllocZone, Z.Valid, ZoneMemory, HeadIndex, SpaceOf, Z.Alloc;
    var p, n := PoolOf(w, c), g.Blocks(c);
    AllocZoneSteps(g, w, c, size, r, o);
    if p.free != [] {
      TakeOk(g, w, c, size, o);
      Z.FreeZoneHasBit(p, n, p.free[0]);
      if p.zones[p.free[0]].freeCount == 1 && r.Some? {
        assert forall x :: x in w.mem ==> !(r.value <= x < r.value + g.Length(c));
      }
    }
  }

  function Requested(w: World, c: ZoneClass, z: nat, k: nat): nat
    requires z in PoolOf(w, c).zones && k < |PoolOf(w, c).zones[z].requested|
  {
    PoolOf(w, c).zones[z].requested[k]
  }

  // The size is recorded for the block handed out and for no other.
  lemma AllocZoneSizes(g: Geometry, w: World, c: ZoneClass, size: nat, r: Option<nat>, o: Owner, z: nat, k: nat)
    requires g.Sound() && WorldOk(g, w) && PoolOk(g, w, c)
    requires Answer(w.mem, r, g.Length(c))
    requires InZone(c, z, k) in AllocZone(g, w, c, size, r, o).0.own
    ensures var (w', t) := AllocZone(g, w, c, size, r, o);
            && z in PoolOf(w', c).zones && k < |PoolOf(w', c).zones[z].requested|
            && (if InZone(c, z, k) in w.own then
                  && z in PoolOf(w, c).zones && k < |PoolOf(w, c).zones[z].requested|
                  && Requested(w', c, z, k) == Requested(w, c, z, k)
                else Requested(w', c, z, k) == size)
  {
    var p := PoolOf(w, c);
    var w' := AllocZone(g, w, c, size, r, o).0;
    AllocZonePool(g, w, c, size, r, o);
    assert InZone(c, z, k) in w.own <==> Z.Allocated(p, z, k);
    assert Z.Allocated(PoolOf(w', c), z, k) by {
      AllocZoneOk(g, w, c, size, r, o);
      OwnedExists(g, w', InZone(c, z, k));
    }
    if r.Some? { FreshIsNew(g, SpaceOf(w), w.mem, r.value, g.Length(c)); }
    Z.AllocRecordsSize(p, g.Blocks(c), size, r, z, k);
  }

  lemma AllocZonePool(g: Geometry, w: World, c: ZoneClass, size: nat, r: Option<nat>, o: Owner)
    requires g.Sound() && PoolOk(g, w, c)
    ensures PoolOf(AllocZone(g, w, c, size, r, o).0, c) == Z.Alloc(PoolOf(w, c), g.Blocks(c), size, r).0
  {}

  // The zone part of free.
  function FreeZone(g: Geometry, w: World, c: ZoneClass, z: nat, k: nat): World
    requires z in PoolOf(w, c).zones && k < |PoolOf(w, c).zones[z].bits|
  {
    var (p, dropped) := Z.Free(PoolOf(w, c), g.Blocks(c), z, k);
    var w1 := SetPool(w, c, p).(own := w.own - {InZone(c, z, k)});
    if dropped then w1.(mem := Unmap(w.mem, z, g.Length(c))) else w1
  }

  lemma FreeZoneOk(g: Geometry, w: World, c: ZoneClass, z: nat, k: nat)
    requires g.Sound() && WorldOk(g, w) && PoolOk(g, w, c) && InZone(c, z, k) in w.own
    ensures Z.Allocated(PoolOf(w, c), z, k)
    ensures var w' := FreeZone(g, w, c, z, k);
            var dropped := Z.Free(PoolOf(w, c), g.Blocks(c), z, k).1;
            && WorldOk(g, w') && PoolOk(g, w', c)
            && SpaceOf(w') == (if dropped then SpaceOf(w) - {z} else SpaceOf(w))
            && SpaceOf(w)[z] == ZoneAt(c)
            && (dropped ==> forall i :: InZone(c, z, i) in w.own ==> i == k)
  {
    OwnedExists(g, w, InZone(c, z, k));
    Z.FreeKeepsValid(PoolOf(w, c), g.Blocks(c), z, k);
    var (p', dropped) := Z.Free(PoolOf(w, c), g.Blocks(c), z, k);
    if dropped {
      FreeZoneDrops(g, w, c, z, k);
    } else {
      FreeZoneKeeps(g, w, c, z, k);
    }
  }

  lemma FreeZoneKeeps(g: Geometry, w: World, c: ZoneClass, z: nat, k: nat)
    requires g.Sound() && WorldOk(g, w) && InZone(c, z, k) in w.own
    requires Z.Allocated(PoolOf(w, c), z, k) && !Z.Free(PoolOf(w, c), g.Blocks(c), z, k).1
    ensures var w' := FreeZone(g, w, c, z, k); WorldOk(g, w') && SpaceOf(w') == SpaceOf(w)
  {
    var w1 := Give(w, c, z, k);
    GiveKeepsWorld(g, w, c, z, k);
    var p' := Z.Free(PoolOf(w, c), g.Blocks(c), z, k).0;
    ZoneListsKeepWorld(g, w1, c, p');
    assert FreeZone(g, w, c, z, k) == SetPool(w1, c, p');
  }

  lemma FreeZoneDrops(g: Geometry, w: World, c: ZoneClass, z: nat, k: nat)
    requires g.Sound() && WorldOk(g, w) && PoolOk(g, w, c) && InZone(c, z, k) in w.own
    requires Z.Allocated(PoolOf(w, c), z, k) && Z.Free(PoolOf(w, c), g.Blocks(c), z, k).1
    ensures var w' := FreeZone(g, w, c, z, k); WorldOk(g, w') && SpaceOf(w') == SpaceOf(w) - {z}
    ensures forall i :: InZone(c, z, i) in w.own ==> i == k
  {
    var p, n := PoolOf(w, c), g.Blocks(c);
    Z.FreeGivesOne(p, n, z, k);
    var w1 := Give(w, c, z, k);
    GiveKeepsWorld(g, w, c, z, k);
    var w2 := SetPool(w1, c, Z.DetachFree(PoolOf(w1, c), z));
    ZoneListsKeepWorld(g, w1, c, PoolOf(w2, c));
    var p' := Z.Free(p, n, z, k).0;
    forall i ensures InZone(c, z, i) !in w2.own && (InZone(c, z, i) in w.own ==> i == k) {
      assert Z.Allocated(p', z, i) <==> Z.Allocated(p, z, i) && i != k;
      assert InZone(c, z, i) in w.own <==> Z.Allocated(p, z, i);
    }
    DropZoneKeepsWorld(g, w2, c, z);
    assert FreeZone(g, w, c, z, k) == DropZone(g, w2, c, z);
  }

  // Freeing leaves a non-empty free list, and every byte of any other owned block.
  lemma FreeZoneEffect(g: Geometry, w: World, c: ZoneClass, z: nat, k: nat, id: BlockId, x: nat)
    requires g.Sound() && WorldOk(g, w) && PoolOk(g, w, c) && InZone(c, z, k) in w.own
    requires id in w.own && id != InZone(c, z, k) && InPayload(g, SpaceOf(w), id, x)
    ensures Z.Allocated(PoolOf(w, c), z, k)
    ensures var w' := FreeZone(g, w, c, z, k);
            x in w.mem && x in w'.mem && w'.mem[x] == w.mem[x]
  {
    hide WorldOk, SpaceOf, Unmap, Z.Valid, Z.Free;
    FreeZoneOk(g, w, c, z, k);
    OwnedExists(g, w, id);
    OwnedExists(g, w, InZone(c, z, k));
    WorldSpace(g, w);
    if Z.Free(PoolOf(w, c), g.Blocks(c), z, k).1 {
      assert Base(id) != z;
      UnmapKeepsPayload(g, SpaceOf(w), w.mem, z, id, x);
    } else {
      PayloadMapped(g, w, id);
    }
  }

  // find_free_large_block.
  function AllocLarge(g: Geometry, w: World, size: nat, r: Option<nat>, o: Owner): (World, Option<nat>)
    requires B.Valid(w.large)
  {
    var (s, t) := B.Alloc(w.large, size, r);
    var mem := if B.FirstFit(w.large.free, w.large.sizes, size).None? && r.Some? then BlockMemory(w.mem, r.value, size) else w.mem;
    match t
    case None => (w, None)
    case Some(b) => (w.(large := s, mem := mem, own := w.own[Big(b) := o]), t)
  }

  lemma AllocLargeOk(g: Geometry, w: World, size: nat, r: Option<nat>, o: Owner)
    requires g.Sound() && WorldOk(g, w) && B.Valid(w.large) && size > SMALL_BLOCK_SIZE
    requires Answer(w.mem, r, BLOCK_HEADER + WORD + size)
    ensures var (w', t) := AllocLarge(g, w, size, r, o);
            && WorldOk(g, w') && B.Valid(w'.large)
            && (t.None? ==> w' == w)
            && (t.Some? ==> Big(t.value) !in w.own && w'.own == w.own[Big(t.value) := o])
            && (t.Some? ==> t.value in w'.large.sizes && w'.large.sizes[t.value] >= size)
            && (forall x :: x in w.mem ==> x in w'.mem && w'.mem[x] == w.mem[x])
            && (forall b :: b in w.large.sizes ==> b in w'.large.sizes && w'.large.sizes[b] == w.large.sizes[b])
            && (SpaceOf(w') == SpaceOf(w) || (t.Some? && t.value !in SpaceOf(w) && SpaceOf(w') == SpaceOf(w)[t.value := BlockAt(size)]))
  {
    if r.Some? { FreshIsNew(g, SpaceOf(w), w.mem, r.value, BLOCK_HEADER + WORD + size); }
    B.AllocKeepsValid(w.large, size, r);
    B.AllocFits(w.large, size, r);
    match B.FirstFit(w.large.free, w.large.sizes, size)
    case Some(b) =>
      var w1 := Reuse(w, b, o);
      ReuseKeepsWorld(g, w, b, o);
      BlockListsKeepWorld(g, w1, B.AppendFull(w1.large, b));
      assert AllocLarge(g, w, size, r, o).0 == w1.(large := B.AppendFull(w1.large, b));
    case None =>
      if r.Some? {
        AddBlockKeepsWorld(g, w, r.value, size, o);
        var w1 := AddBlock(w, r.value, size, o);
        BlockListsKeepWorld(g, w1, B.AppendFull(w1.large, r.value));
        assert AllocLarge(g, w, size, r, o).0 == w1.(large := B.AppendFull(w1.large, r.value));
      }
  }

  // The large part of free.
  function FreeLarge(w: World, b: nat): World
    requires b in w.large.sizes
  {
    var (s, dropped) := B.Free(w.large, b);
    var w1 := w.(large := s, own := w.own - {Big(b)});
    if dropped then w1.(mem := Unmap(w.mem, b, BLOCK_HEADER + WORD + w.large.sizes[b])) else w1
  }

  lemma FreeLargeOk(g: Geometry, w: World, b: nat)
    requires g.Sound() && WorldOk(g, w) && B.Valid(w.large) && Big(b) in w.own
    ensures b in w.large.full && b in SpaceOf(w)
    ensures var w' := FreeLarge(w, b);
            && WorldOk(g, w') && B.Valid(w'.large)
            && SpaceOf(w') == (if w.large.sizes[b] > CACHE_LIMIT then SpaceOf(w) - {b} else SpaceOf(w))
  {
    OwnedExists(g, w, Big(b));
    B.FreeKeepsValid(w.large, b);
    var w1 := w.(large := B.DetachFull(w.large, b));
    BlockListsKeepWorld(g, w, w1.large);
    if w.large.sizes[b] > CACHE_LIMIT {
      DropBlockKeepsWorld(g, w1, b);
      assert FreeLarge(w, b) == DropBlock(w1, b);
    } else {
      CacheKeepsWorld(g, w1, b);
      assert FreeLarge(w, b) == Cache(w1, b);
    }
  }

  lemma FreeLargeEffect(g: Geometry, w: World, b: nat, id: BlockId, x: nat)
    requires g.Sound() && WorldOk(g, w) && B.Valid(w.large) && Big(b) in w.own
    requires id in w.own && id != Big(b) && InPayload(g, SpaceOf(w), id, x)
    ensures b in w.large.sizes
    ensures var w' := FreeLarge(w, b); x in w.mem && x in w'.mem && w'.mem[x] == w.mem[x]
  {
    FreeLargeOk(g, w, b);
    OwnedExists(g, w, Big(b));
    OwnedExists(g, w, id);
    if w.large.sizes[b] > CACHE_LIMIT {
      assert Base(id) != b;
      UnmapKeepsPayload(g, SpaceOf(w), w.mem, b, id, x);
    } else {
      SlotInside(g, SpaceOf(w), id);
      assert Mapped(w.mem, Base(id), Length(g, SpaceOf(w)[Base(id)]));
    }
  }
}
