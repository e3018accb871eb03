/** free and realloc of the sequential allocator, and what each call does to the blocks of the client. */
module Client {
  import opened Sequences
  import opened Memory
  import opened Layout
  import opened Spaces
  import opened Worlds
  import opened Sections
  import opened Sequential
  import Z = Zones
  import B = Blocks

  lemma MallocKeeps(o: Oracle, g: Geometry, s: State, size: nat, id: BlockId)
    requires g.Sound() && Lawful(o) && Ok(g, s) && id in s.w.own
    ensures var s' := Malloc(o, g, s, size).0; id in s'.w.own && s'.w.own[id] == s.w.own[id] && PayloadKept(g, s.w, s'.w, id)
  {
    MallocOk(o, g, s, size);
    MallocEffect(o, g, s, size);
    PayloadMapped(g, s.w, id);
    var s' := Malloc(o, g, s, size).0;
    OwnedExists(g, s.w, id);
    OwnedExists(g, s'.w, id);
  }

  // ---- free ----

  lemma FreeZoneRest(g: Geometry, w: World, c: ZoneClass, z: nat, k: nat)
    requires g.Sound() && PoolOk(g, w, c) && Z.Allocated(PoolOf(w, c), z, k)
    ensures var w' := FreeZone(g, w, c, z, k);
            && PoolOf(w', c).free != [] && w'.large == w.large
            && (c == Tiny ==> w'.small == w.small) && (c == Small ==> w'.tiny == w.tiny)
            && forall y, i :: Z.Allocated(PoolOf(w', c), y, i) ==>
                 Z.Allocated(PoolOf(w, c), y, i) && PoolOf(w', c).zones[y].requested == PoolOf(w, c).zones[y].requested
  {
    Z.FreeGivesOne(PoolOf(w, c), g.Blocks(c), z, k);
  }

  lemma FreeZoneSizes(g: Geometry, s: State, c: ZoneClass, z: nat, k: nat)
    requires g.Sound() && WorldOk(g, s.w) && PoolOk(g, s.w, c) && InZone(c, z, k) in s.w.own && SizesRecorded(s)
    ensures Z.Allocated(PoolOf(s.w, c), z, k)
    ensures SizesRecorded(s.(w := FreeZone(g, s.w, c, z, k)))
  {
    hide SpaceOk, Z.Valid, Z.Free;
    assert Z.Allocated(PoolOf(s.w, c), z, k);
    FreeZoneRest(g, s.w, c, z, k);
    FreeZoneOk(g, s.w, c, z, k);
    var w' := FreeZone(g, s.w, c, z, k);
    forall c': ZoneClass, y: nat, i: nat | InZone(c', y, i) in w'.own
      ensures y in PoolOf(w', c').zones && i < |PoolOf(w', c').zones[y].requested|
      ensures InZone(c', y, i) in s.asked && Requested(w', c', y, i) == s.asked[InZone(c', y, i)]
    {
      assert InZone(c', y, i) in s.w.own;
      assert Z.Allocated(PoolOf(w', c'), y, i);
    }
  }

  lemma FreeOk(g: Geometry, s: State, id: BlockId)
    requires g.Sound() && Ok(g, s) && Owns(s, id)
    ensures Ok(g, Free(g, s, id))
  {
    OwnedExists(g, s.w, id);
    match id
    case InZone(c, z, k) => FreeZoneBlockOk(g, s, c, z, k);
    case Big(b) => FreeLargeBlockOk(g, s, b);
  }

  lemma FreeZoneBlockOk(g: Geometry, s: State, c: ZoneClass, z: nat, k: nat)
    requires g.Sound() && Ok(g, s) && Owns(s, InZone(c, z, k)) && Z.Allocated(PoolOf(s.w, c), z, k)
    ensures Ok(g, s.(w := FreeZone(g, s.w, c, z, k)))
  {
    hide WorldOk, SizesRecorded, Z.Valid, B.Valid, Z.Free;
    FreeZoneLists(g, s.w, c, z, k);
    FreeZoneRest(g, s.w, c, z, k);
    FreeZoneSizes(g, s, c, z, k);
    assert LostBlocks(FreeZone(g, s.w, c, z, k)) == LostBlocks(s.w);
  }

  lemma FreeZoneLists(g: Geometry, w: World, c: ZoneClass, z: nat, k: nat)
    requires g.Sound() && WorldOk(g, w) && ListsOk(g, w) && InZone(c, z, k) in w.own && Z.Allocated(PoolOf(w, c), z, k)
    ensures WorldOk(g, FreeZone(g, w, c, z, k)) && ListsOk(g, FreeZone(g, w, c, z, k))
  {
    FreeZoneOk(g, w, c, z, k);
    FreeZoneRest(g, w, c, z, k);
  }

  lemma FreeLargeBlockOk(g: Geometry, s: State, b: nat)
    requires g.Sound() && Ok(g, s) && Owns(s, Big(b)) && b in s.w.large.sizes
    ensures Ok(g, s.(w := FreeLarge(s.w, b)))
  {
    hide WorldOk, SizesRecorded, Z.Valid, B.Valid, B.Free;
    FreeLargeOk(g, s.w, b);
    var w' := FreeLarge(s.w, b);
    assert LostBlocks(w') == LostBlocks(s.w);
    assert forall c: ZoneClass, z: nat, k: nat :: InZone(c, z, k) in w'.own <==> InZone(c, z, k) in s.w.own;
    SizesStay(s, s.(w := w'));
  }

  // Only the freed block leaves; every other owned block keeps its place, its capacity and its bytes,
  // even when the zone or the large block of the freed one is unmapped.
  lemma FreeKeeps(g: Geometry, s: State, id: BlockId, other: BlockId)
    requires g.Sound() && Ok(g, s) && Owns(s, id) && other in s.w.own && other != id
    ensures Free(g, s, id).w.own == s.w.own - {id}
    ensures PayloadKept(g, s.w, Free(g, s, id).w, other)
  {
    hide WorldOk, SizesRecorded, Stocked, PayloadKept, Z.Valid, B.Valid, Z.Free, B.Free;
    OwnedExists(g, s.w, id);
    match id
    case InZone(c, z, k) => FreeZoneKeepsOther(g, s.w, c, z, k, other);
    case Big(b) => FreeLargeKeepsOther(g, s.w, b, other);
  }

  lemma FreeZoneKeepsOther(g: Geometry, w: World, c: ZoneClass, z: nat, k: nat, other: BlockId)
    requires g.Sound() && WorldOk(g, w) && PoolOk(g, w, c) && InZone(c, z, k) in w.own && Z.Allocated(PoolOf(w, c), z, k)
    requires other in w.own && other != InZone(c, z, k)
    ensures PayloadKept(g, w, FreeZone(g, w, c, z, k), other)
  {
    hide Z.Free, Z.Valid;
    hide WorldOk, SizesRecorded, Stocked;
    OwnedExists(g, w, other);
    FreeZoneOk(g, w, c, z, k);
    var w' := FreeZone(g, w, c, z, k);
    forall x | Ptr(g, other) <= x < Ptr(g, other) + Capacity(SpaceOf(w), other)
      ensures x in w.mem && x in w'.mem && w'.mem[x] == w.mem[x]
    {
      FreeZoneEffect(g, w, c, z, k, other, x);
    }
  }

  lemma FreeLargeKeepsOther(g: Geometry, w: World, b: nat, other: BlockId)
    requires g.Sound() && WorldOk(g, w) && B.Valid(w.large) && Big(b) in w.own && b in w.large.sizes
    requires other in w.own && other != Big(b)
    ensures PayloadKept(g, w, FreeLarge(w, b), other)
  {
    hide WorldOk, SizesRecorded, Stocked;
    OwnedExists(g, w, Big(b));
    OwnedExists(g, w, other);
    FreeLargeOk(g, w, b);
    var w' := FreeLarge(w, b);
    forall x | Ptr(g, other) <= x < Ptr(g, other) + Capacity(SpaceOf(w), other)
      ensures x in w.mem && x in w'.mem && w'.mem[x] == w.mem[x]
    {
      FreeLargeEffect(g, w, b, other, x);
    }
  }

  // ---- realloc ----

  function CopyPayload(g: Geometry, s: State, from: BlockId, target: BlockId, n: nat): State
    requires Mapped(s.w.mem, Ptr(g, target), n) && Mapped(s.w.mem, Ptr(g, from), n)
  {
    s.(w := s.w.(mem := CopyBytes(s.w.mem, Ptr(g, target), Ptr(g, from), n)))
  }

  ghost predicate CopyReady(g: Geometry, s: State, from: BlockId, target: BlockId, n: nat) {
    && from in s.w.own && target in s.w.own && from != target
    && Exists(g, SpaceOf(s.w), from) && Exists(g, SpaceOf(s.w), target)
    && n <= Capacity(SpaceOf(s.w), from) && n <= Capacity(SpaceOf(s.w), target)
    && Mapped(s.w.mem, Ptr(g, target), n) && Mapped(s.w.mem, Ptr(g, from), n)
  }

  // ft_memcpy between two owned blocks copies, and touches nothing outside the target payload.
  lemma CopyCopies(g: Geometry, s: State, from: BlockId, target: BlockId, n: nat)
    requires g.Sound() && RegionsApart(g, SpaceOf(s.w)) && CopyReady(g, s, from, target, n)
    ensures var mem' := CopyPayload(g, s, from, target, n).w.mem;
            && mem'.Keys == s.w.mem.Keys
            && (forall x :: Ptr(g, target) <= x < Ptr(g, target) + n ==> mem'[x] == s.w.mem[Ptr(g, from) + (x - Ptr(g, target))])
            && (forall x :: x in s.w.mem && !InPayload(g, SpaceOf(s.w), target, x) ==> mem'[x] == s.w.mem[x])
  {
    hide CopyBytes, RegionsApart;
    SlotsApart(g, SpaceOf(s.w), from, target);
    CopyBytesCopies(s.w.mem, Ptr(g, target), Ptr(g, from), n);
  }

  lemma CopyOk(g: Geometry, s: State, from: BlockId, target: BlockId, n: nat)
    requires g.Sound() && Ok(g, s) && CopyReady(g, s, from, target, n)
    ensures Ok(g, CopyPayload(g, s, from, target, n))
    ensures SpaceOf(CopyPayload(g, s, from, target, n).w) == SpaceOf(s.w)
  {
    hide WorldOk, Z.Valid, B.Valid, CopyBytes, SizesRecorded;
    WorldApart(g, s.w);
    CopyCopies(g, s, from, target, n);
    var s' := CopyPayload(g, s, from, target, n);
    PayloadChangeKeepsWorld(g, s.w, target, s'.w.mem);
    assert LostBlocks(s'.w) == LostBlocks(s.w);
    SameRecords(s, s');
  }

  lemma SameRecords(s: State, s': State)
    requires SizesRecorded(s) && s'.asked == s.asked && s'.w.own == s.w.own && s'.w.tiny == s.w.tiny && s'.w.small == s.w.small
    ensures SizesRecorded(s')
  {
    assert forall c: ZoneClass :: PoolOf(s'.w, c) == PoolOf(s.w, c);
  }

  lemma CopyKeeps(g: Geometry, s: State, from: BlockId, target: BlockId, n: nat, other: BlockId)
    requires g.Sound() && Ok(g, s) && CopyReady(g, s, from, target, n) && other in s.w.own && other != target
    ensures PayloadKept(g, s.w, CopyPayload(g, s, from, target, n).w, other)
  {
    hide CopyBytes, ListsOk, SizesRecorded, RegionsApart, CopyPayload, WorldOk;
    WorldApart(g, s.w);
    CopySpace(g, s, from, target, n);
    CopyCopies(g, s, from, target, n);
    PayloadMapped(g, s.w, other);
    SlotsApart(g, SpaceOf(s.w), other, target);
  }

  lemma CopySpace(g: Geometry, s: State, from: BlockId, target: BlockId, n: nat)
    requires Mapped(s.w.mem, Ptr(g, target), n) && Mapped(s.w.mem, Ptr(g, from), n)
    ensures SpaceOf(CopyPayload(g, s, from, target, n).w) == SpaceOf(s.w)
  {}

  // After a successful malloc for a growing block, the copy is in bounds on both sides.
  lemma MallocThenCopy(o: Oracle, g: Geometry, s: State, id: BlockId, size: nat)
    requires g.Sound() && Lawful(o) && Ok(g, s) && Owns(s, id)
    requires Exists(g, SpaceOf(s.w), id) && size > Capacity(SpaceOf(s.w), id)
    ensures var (s1, r) := Malloc(o, g, s, size);
            && Ok(g, s1) && Owns(s1, id)
            && (r.Some? ==>
                  && r.value !in s.w.own && Owns(s1, r.value) && Exists(g, SpaceOf(s1.w), r.value)
                  && Capacity(SpaceOf(s1.w), r.value) >= size
                  && CopyReady(g, s1, id, r.value, Capacity(SpaceOf(s.w), id)))
  {
    hide WorldOk, ListsOk, SizesRecorded, Stocked, Malloc;
    MallocOk(o, g, s, size);
    MallocEffect(o, g, s, size);
    MallocKeeps(o, g, s, size, id);
    var (s1, r) := Malloc(o, g, s, size);
    if r.Some? {
      PayloadMapped(g, s1.w, id);
      PayloadMapped(g, s1.w, r.value);
      SuitsIsEnough(g, s1.w, r.value, size);
    }
  }

  lemma SuitsIsEnough(g: Geometry, w: World, id: BlockId, size: nat)
    requires WorldOk(g, w) && id in w.own && Suits(w, id, size)
    ensures Exists(g, SpaceOf(w), id) && Capacity(SpaceOf(w), id) >= size
  {
    OwnedExists(g, w, id);
  }

  // realloc of a block the client owns.
  function Realloc(o: Oracle, g: Geometry, s: State, id: BlockId, size: nat): (State, Option<BlockId>)
    requires g.Sound() && Lawful(o) && Ok(g, s) && Owns(s, id)
  {
    OwnedExists(g, s.w, id);
    var current := Capacity(SpaceOf(s.w), id);
    if size <= current then (s, Some(id))
    else
      MallocThenCopy(o, g, s, id, size);
      var (s1, r) := Malloc(o, g, s, size);
      match r
      case None => (s1, None)
      case Some(target) =>
        CopyOk(g, s1, id, target, current);
        (Free(g, CopyPayload(g, s1, id, target, current), id), Some(target))
  }

  lemma ReallocOk(o: Oracle, g: Geometry, s: State, id: BlockId, size: nat)
    requires g.Sound() && Lawful(o) && Ok(g, s) && Owns(s, id)
    ensures Ok(g, Realloc(o, g, s, id, size).0)
  {
    hide WorldOk, ListsOk, SizesRecorded, Stocked, Free, Malloc;
    OwnedExists(g, s.w, id);
    var current := Capacity(SpaceOf(s.w), id);
    if size > current {
      MallocThenCopy(o, g, s, id, size);
      var (s1, r) := Malloc(o, g, s, size);
      if r.Some? {
        CopyOk(g, s1, id, r.value, current);
        FreeOk(g, CopyPayload(g, s1, id, r.value, current), id);
      }
    }
  }

  // Of a strictly larger class, or another large block.
  predicate Larger(id: BlockId, id': BlockId) {
    match id'
    case InZone(c', _, _) => id.InZone? && id.c == Tiny && c' == Small
    case Big(_) => id != id'
  }

  // The second half of a moving realloc: the target ends up owned and holding the old bytes.
  lemma CopyThenFree(g: Geometry, s: State, id: BlockId, target: BlockId, n: nat)
    requires g.Sound() && Ok(g, s) && Owns(s, id) && Owns(s, target) && CopyReady(g, s, id, target, n)
    ensures Ok(g, CopyPayload(g, s, id, target, n)) && CopyPayload(g, s, id, target, n).w.own == s.w.own
    ensures var s' := Free(g, CopyPayload(g, s, id, target, n), id);
            && s'.w.own == s.w.own - {id}
            && Exists(g, SpaceOf(s'.w), target)
            && Capacity(SpaceOf(s'.w), target) == Capacity(SpaceOf(s.w), target)
            && Mapped(s'.w.mem, Ptr(g, target), n)
            && Bytes(s'.w.mem, Ptr(g, target), n) == Bytes(s.w.mem, Ptr(g, id), n)
  {
    hide WorldOk, SizesRecorded, Stocked;
    CopyOk(g, s, id, target, n);
    assert RegionsApart(g, SpaceOf(s.w)) by { WorldApart(g, s.w); }
    CopyCopies(g, s, id, target, n);
    var s2 := CopyPayload(g, s, id, target, n);
    FreeKeeps(g, s2, id, target);
  }

  lemma WorldApart(g: Geometry, w: World)
    requires WorldOk(g, w)
    ensures RegionsApart(g, SpaceOf(w))
  {}

  // realloc keeps the block when the request fits; otherwise it fails and takes nothing away, or it
  // moves to a block that was nobody's, is of a larger class and is large enough.
  lemma ReallocMoves(o: Oracle, g: Geometry, s: State, id: BlockId, size: nat)
    requires g.Sound() && Lawful(o) && Ok(g, s) && Owns(s, id)
    ensures Exists(g, SpaceOf(s.w), id)
    ensures var (s', r) := Realloc(o, g, s, id, size);
            if size <= Capacity(SpaceOf(s.w), id) then s' == s && r == Some(id)
            else if r.None? then Owns(s', id) && PayloadKept(g, s.w, s'.w, id)
            else
              && r.value !in s.w.own && Owns(s', r.value) && id !in s'.w.own
              && Larger(id, r.value)
              && Exists(g, SpaceOf(s'.w), r.value) && Capacity(SpaceOf(s'.w), r.value) >= size
  {
    hide WorldOk, ListsOk, SizesRecorded, Stocked, Free, Malloc, CopyPayload, PayloadKept;
    OwnedExists(g, s.w, id);
    var current := Capacity(SpaceOf(s.w), id);
    if size > current {
      MallocThenCopy(o, g, s, id, size);
      MallocKeeps(o, g, s, size, id);
      var (s1, r) := Malloc(o, g, s, size);
      if r.Some? {
        CopyThenFree(g, s1, id, r.value, current);
        assert Larger(id, r.value) by { MallocIsLarger(o, g, s, id, size); }
      }
    }
  }

  lemma MallocIsLarger(o: Oracle, g: Geometry, s: State, id: BlockId, size: nat)
    requires g.Sound() && Lawful(o) && Ok(g, s) && Owns(s, id)
    requires Exists(g, SpaceOf(s.w), id) && size > Capacity(SpaceOf(s.w), id)
    requires Malloc(o, g, s, size).1.Some?
    ensures Larger(id, Malloc(o, g, s, size).1.value)
  {
    hide WorldOk, Malloc, SizesRecorded, Stocked, BytesKept, Z.Valid;
    MallocEffect(o, g, s, size);
    OwnedExists(g, s.w, id);
  }

  // The moved block starts with every byte of the old one.
  lemma ReallocCopies(o: Oracle, g: Geometry, s: State, id: BlockId, size: nat)
    requires g.Sound() && Lawful(o) && Ok(g, s) && Owns(s, id)
    requires Realloc(o, g, s, id, size).1.Some?
    ensures Exists(g, SpaceOf(s.w), id)
    ensures var (s', r) := Realloc(o, g, s, id, size);
            var n := Capacity(SpaceOf(s.w), id);
            && Mapped(s.w.mem, Ptr(g, id), n) && Mapped(s'.w.mem, Ptr(g, r.value), n)
            && Bytes(s'.w.mem, Ptr(g, r.value), n) == Bytes(s.w.mem, Ptr(g, id), n)
  {
    hide WorldOk, ListsOk, SizesRecorded, Stocked, Free, Malloc, CopyPayload;
    PayloadMapped(g, s.w, id);
    var n := Capacity(SpaceOf(s.w), id);
    if size > n {
      MallocThenCopy(o, g, s, id, size);
      MallocKeeps(o, g, s, size, id);
      var (s1, r) := Malloc(o, g, s, size);
      CopyThenFree(g, s1, id, r.value, n);
    }
  }

  lemma CopyThenFreeKeeps(g: Geometry, s: State, id: BlockId, target: BlockId, n: nat, other: BlockId)
    requires g.Sound() && Ok(g, s) && Owns(s, id) && CopyReady(g, s, id, target, n)
    requires other in s.w.own && other != id && other != target
    ensures Ok(g, CopyPayload(g, s, id, target, n))
    ensures PayloadKept(g, s.w, Free(g, CopyPayload(g, s, id, target, n), id).w, other)
  {
    hide WorldOk, ListsOk, SizesRecorded, Stocked, Free, PayloadKept;
    CopyOk(g, s, id, target, n);
    CopyKeeps(g, s, id, target, n, other);
    var s2 := CopyPayload(g, s, id, target, n);
    FreeKeeps(g, s2, id, other);
    KeptTwice(g, s.w, s2.w, Free(g, s2, id).w, other);
  }

  // No other owned block is disturbed, whether realloc stays, fails or moves.
  lemma ReallocKeeps(o: Oracle, g: Geometry, s: State, id: BlockId, size: nat, other: BlockId)
    requires g.Sound() && Lawful(o) && Ok(g, s) && Owns(s, id) && other in s.w.own && other != id
    ensures var s' := Realloc(o, g, s, id, size).0;
            other in s'.w.own && s'.w.own[other] == s.w.own[other] && PayloadKept(g, s.w, s'.w, other)
  {
    hide WorldOk, ListsOk, SizesRecorded, Stocked, Free, Malloc, CopyPayload;
    OwnedExists(g, s.w, id);
    PayloadMapped(g, s.w, other);
    var current := Capacity(SpaceOf(s.w), id);
    if size > current {
      MallocThenCopy(o, g, s, id, size);
      MallocKeeps(o, g, s, size, other);
      var (s1, r) := Malloc(o, g, s, size);
      if r.Some? {
        CopyThenFree(g, s1, id, r.value, current);
        CopyThenFreeKeeps(g, s1, id, r.value, current, other);
        KeptTwice(g, s.w, s1.w, Free(g, CopyPayload(g, s1, id, r.value, current), id).w, other);
      }
    }
  }
}
