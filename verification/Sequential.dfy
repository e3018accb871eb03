/** The sequential allocator as functions on states: malloc, free and realloc, the rules a client
    obeys, and what holds after every run of calls, client writes and mmap failures. */
module Sequential {
  import opened Sequences
  import opened Memory
  import opened Layout
  import opened Spaces
  import opened Worlds
  import opened Sections
  import Z = Zones
  import B = Blocks

  // mmap: the answer to the i-th call, given what is mapped and how much is asked for.
  type Oracle = (nat, Mem, nat) -> Option<nat>

  ghost predicate Lawful(o: Oracle) {
    forall i, mem, len :: Answer(mem, o(i, mem, len), len)
  }

  // The last two fields are records for the proofs: how often the mmap that replaces a filled zone
  // has failed, and the size given to malloc for each owned zone block.
  datatype State = State(initialized: bool, w: World, calls: nat, failedRefills: nat, asked: map<BlockId, nat>)

  const INITIAL := State(false, EMPTY_WORLD, 0, 0, map[])

  // ---- the functions of malloc.c ----

  function CreateZone(o: Oracle, g: Geometry, s: State, c: ZoneClass): (State, bool)
    requires g.Sound()
  {
    match o(s.calls, s.w.mem, g.Length(c))
    case None => (s.(calls := s.calls + 1), false)
    case Some(a) => (s.(calls := s.calls + 1, w := JoinZone(g, s.w, c, a)), true)
  }

  function SetupGlobalHeap(o: Oracle, g: Geometry, s: State): (State, bool)
    requires g.Sound()
  {
    var (s1, ok1) := CreateZone(o, g, s, Tiny);
    if !ok1 then (s1, false)
    else
      var (s2, ok2) := CreateZone(o, g, s1, Small);
      if !ok2 then (s2, false) else (s2.(initialized := true), true)
  }

  function FindFreeBlock(o: Oracle, g: Geometry, s: State, c: ZoneClass, size: nat): (State, Option<BlockId>)
    requires g.Sound() && PoolOk(g, s.w, c)
  {
    var asks := Z.FillsHead(PoolOf(s.w, c));
    var r := if asks then o(s.calls, s.w.mem, g.Length(c)) else None;
    var (w, t) := AllocZone(g, s.w, c, size, r, Client);
    var s1 := s.(w := w, calls := if asks then s.calls + 1 else s.calls);
    match t
    case NoBlock => (s1, None)
    case Block(z, k) => (s1.(asked := s.asked[InZone(c, z, k) := size]), Some(InZone(c, z, k)))
    case Leaked(z, k) => (s1.(asked := s.asked[InZone(c, z, k) := size], failedRefills := s.failedRefills + 1), None)
  }

  function FindFreeLargeBlock(o: Oracle, g: Geometry, s: State, size: nat): (State, Option<BlockId>)
    requires B.Valid(s.w.large)
  {
    var asks := B.FirstFit(s.w.large.free, s.w.large.sizes, size).None?;
    var r := if asks then o(s.calls, s.w.mem, BLOCK_HEADER + WORD + size) else None;
    var (w, t) := AllocLarge(g, s.w, size, r, Client);
    var s1 := s.(w := w, calls := if asks then s.calls + 1 else s.calls);
    match t
    case None => (s1, None)
    case Some(b) => (s1, Some(Big(b)))
  }

  function AllocBlock(o: Oracle, g: Geometry, s: State, size: nat): (State, Option<BlockId>)
    requires g.Sound() && ListsOk(g, s.w)
  {
    if size <= TINY_BLOCK_SIZE then FindFreeBlock(o, g, s, Tiny, size)
    else if size <= SMALL_BLOCK_SIZE then FindFreeBlock(o, g, s, Small, size)
    else FindFreeLargeBlock(o, g, s, size)
  }

  function Malloc(o: Oracle, g: Geometry, s: State, size: nat): (State, Option<BlockId>)
    requires g.Sound() && Lawful(o) && Ok(g, s)
  {
    if size == 0 || size > PTRDIFF_MAX then (s, None)
    else if !s.initialized then
      SetupOk(o, g, s);
      var (s1, ok) := SetupGlobalHeap(o, g, s);
      if ok then AllocBlock(o, g, s1, size) else (s1, None)
    else AllocBlock(o, g, s, size)
  }

  function Free(g: Geometry, s: State, id: BlockId): State
    requires Ok(g, s) && id in s.w.own
  {
    OwnedExists(g, s.w, id);
    match id
    case InZone(c, z, k) => s.(w := FreeZone(g, s.w, c, z, k))
    case Big(b) => s.(w := FreeLarge(s.w, b))
  }

  // ---- the invariant ----

  ghost predicate Owns(s: State, id: BlockId) { id in s.w.own && s.w.own[id] == Client }

  ghost function LostBlocks(w: World): set<BlockId> { set id | id in w.own && w.own[id] == Lost }

  ghost predicate SizesRecorded(s: State) {
    forall c: ZoneClass, z: nat, k: nat :: InZone(c, z, k) in s.w.own ==>
      && InZone(c, z, k) in s.asked && s.asked[InZone(c, z, k)] <= BlockSize(c)
      && z in PoolOf(s.w, c).zones && k < |PoolOf(s.w, c).zones[z].requested|
      && Requested(s.w, c, z, k) == s.asked[InZone(c, z, k)]
  }

  // Until a replacement zone is refused, both free lists have a head.
  ghost predicate Stocked(s: State) {
    s.initialized && s.failedRefills == 0 ==> s.w.tiny.free != [] && s.w.small.free != []
  }

  ghost predicate Ok(g: Geometry, s: State) {
    && WorldOk(g, s.w) && ListsOk(g, s.w)
    && (!s.initialized ==> s.w.own == map[])
    && (forall id :: id in s.w.own ==> !s.w.own[id].Held?)
    && |LostBlocks(s.w)| == s.failedRefills
    && SizesRecorded(s)
    && Stocked(s)
  }

  lemma InitialOk(g: Geometry)
    ensures Ok(g, INITIAL)
  {
    EmptyWorldOk(g);
    assert LostBlocks(EMPTY_WORLD) == {};
  }

  lemma NoOwnersNoSizes(s: State)
    requires s.w.own == map[]
    ensures SizesRecorded(s)
  {}

  lemma CreateZoneOk(o: Oracle, g: Geometry, s: State, c: ZoneClass)
    requires g.Sound() && Lawful(o) && Ok(g, s) && !s.initialized
    ensures var (s', ok) := CreateZone(o, g, s, c);
            && Ok(g, s') && s'.w.own == map[]
            && (ok ==> PoolOf(s'.w, c).free != [])
            && (forall c': ZoneClass :: c' != c ==> PoolOf(s'.w, c') == PoolOf(s.w, c'))
            && s'.failedRefills == s.failedRefills && s'.w.large == s.w.large && !s'.initialized && s'.asked == s.asked
            && BytesKept(s.w.mem, s'.w.mem)
  {
    hide Ok, JoinZone;
    var r := o(s.calls, s.w.mem, g.Length(c));
    assert Answer(s.w.mem, r, g.Length(c));
    NothingOwnedYet(g, s);
    UnownedOk(g, s, s.w, s.calls + 1);
    assert s.(w := s.w, calls := s.calls + 1) == s.(calls := s.calls + 1);
    if r.Some? { JoinedOk(g, s, c, r.value); }
  }

  // Before initialisation, any world in order in which nothing is owned will do.
  lemma UnownedOk(g: Geometry, s: State, w: World, calls: nat)
    requires Ok(g, s) && !s.initialized && w.own == map[]
    requires WorldOk(g, s.w) && ListsOk(g, s.w) ==> WorldOk(g, w) && ListsOk(g, w)
    ensures Ok(g, s.(w := w, calls := calls))
  {
    hide WorldOk, ListsOk, SizesRecorded;
    assert LostBlocks(s.w) == {} == LostBlocks(w);
    NoOwnersNoSizes(s.(w := w, calls := calls));
  }

  lemma JoinedOk(g: Geometry, s: State, c: ZoneClass, a: nat)
    requires g.Sound() && Ok(g, s) && !s.initialized && s.w.own == map[] && Fresh(s.w.mem, a, g.Length(c))
    ensures var w' := JoinZone(g, s.w, c, a);
            && Ok(g, s.(w := w', calls := s.calls + 1)) && w'.own == map[] && PoolOf(w', c).free != []
            && (forall c': ZoneClass :: c' != c ==> PoolOf(w', c') == PoolOf(s.w, c')) && w'.large == s.w.large
            && BytesKept(s.w.mem, w'.mem)
  {
    hide WorldOk, Z.Valid, B.Valid, JoinZone, SizesRecorded, Stocked, LostBlocks, ZoneMemory;
    JoinZoneOk(g, s.w, c, a);
    JoinZoneParts(g, s.w, c, a);
    UnownedOk(g, s, JoinZone(g, s.w, c, a), s.calls + 1);
    assert forall x :: x in s.w.mem ==> !(a <= x < a + g.Length(c));
  }

  lemma SetupOk(o: Oracle, g: Geometry, s: State)
    requires g.Sound() && Lawful(o) && Ok(g, s) && !s.initialized
    ensures var (s', ok) := SetupGlobalHeap(o, g, s);
            && Ok(g, s') && s'.w.own == map[] && s'.initialized == ok
            && s'.failedRefills == s.failedRefills && s'.w.large == s.w.large
            && (ok ==> s'.w.tiny.free != [] && s'.w.small.free != [])
            && BytesKept(s.w.mem, s'.w.mem)
  {
    CreateZoneOk(o, g, s, Tiny);
    var (s1, ok1) := CreateZone(o, g, s, Tiny);
    if ok1 { CreateZoneOk(o, g, s1, Small); }
  }

  lemma FindFreeBlockOk(o: Oracle, g: Geometry, s: State, c: ZoneClass, size: nat)
    requires g.Sound() && Lawful(o) && Ok(g, s) && s.initialized && size <= BlockSize(c)
    ensures Ok(g, FindFreeBlock(o, g, s, c, size).0)
  {
    hide WorldOk, AllocZone, Z.Valid, B.Valid, SizesRecorded, LostBlocks;
    var r := if Z.FillsHead(PoolOf(s.w, c)) then o(s.calls, s.w.mem, g.Length(c)) else None;
    assert Answer(s.w.mem, r, g.Length(c));
    AllocZoneLists(g, s.w, c, size, r);
    FindFreeBlockOwners(g, s.w, c, size, r);
    FindFreeBlockSizes(g, s, c, size, r);
    var (w', t) := AllocZone(g, s.w, c, size, r, Client);
    var s' := FindFreeBlock(o, g, s, c, size).0;
    SizesStay(s.(w := w', asked := if t.NoBlock? then s.asked else s.asked[InZone(c, t.zone, t.index) := size]), s');
    if PoolOf(s.w, c).free != [] {
      FindFreeBlockStock(g, s.w, c, size, r);
    }
  }

  lemma AllocZoneLists(g: Geometry, w: World, c: ZoneClass, size: nat, r: Option<nat>)
    requires g.Sound() && WorldOk(g, w) && ListsOk(g, w) && Answer(w.mem, r, g.Length(c))
    ensures var w' := AllocZone(g, w, c, size, r, Client).0; WorldOk(g, w') && ListsOk(g, w')
  {
    AllocZoneOk(g, w, c, size, r, Client);
    AllocZoneOthers(g, w, c, size, r, Client);
  }

  lemma AllocZoneOthers(g: Geometry, w: World, c: ZoneClass, size: nat, r: Option<nat>, o: Owner)
    requires g.Sound() && PoolOk(g, w, c)
    ensures var w' := AllocZone(g, w, c, size, r, o).0;
            w'.large == w.large && (c == Tiny ==> w'.small == w.small) && (c == Small ==> w'.tiny == w.tiny)
  {}

  lemma FindFreeBlockStock(g: Geometry, w: World, c: ZoneClass, size: nat, r: Option<nat>)
    requires g.Sound() && WorldOk(g, w) && PoolOk(g, w, c) && Answer(w.mem, r, g.Length(c))
    requires PoolOf(w, c).free != []
    ensures var (w', t) := AllocZone(g, w, c, size, r, Client);
            (PoolOf(w', c).free != [] || t.Leaked?) && (c == Tiny ==> w'.small == w.small) && (c == Small ==> w'.tiny == w.tiny)
  {
    if r.Some? { FreshIsNew(g, SpaceOf(w), w.mem, r.value, g.Length(c)); }
    AllocZonePool(g, w, c, size, r, Client);
    Z.AllocKeepsHead(PoolOf(w, c), g.Blocks(c), size, r);
    AllocZoneEffect(g, w, c, size, r, Client);
  }

  lemma FindFreeBlockOwners(g: Geometry, w: World, c: ZoneClass, size: nat, r: Option<nat>)
    requires g.Sound() && WorldOk(g, w) && PoolOk(g, w, c) && Answer(w.mem, r, g.Length(c))
    ensures var (w', t) := AllocZone(g, w, c, size, r, Client);
            && |LostBlocks(w')| == |LostBlocks(w)| + (if t.Leaked? then 1 else 0)
            && (forall id :: id in w'.own ==> id in w.own || !w'.own[id].Held?)
            && (forall id :: id in w.own ==> id in w'.own && w'.own[id] == w.own[id])
  {
    hide WorldOk, AllocZone, Z.Valid;
    AllocZoneEffect(g, w, c, size, r, Client);
    var (w', t) := AllocZone(g, w, c, size, r, Client);
    if t.Leaked? {
      assert LostBlocks(w') == LostBlocks(w) + {InZone(c, t.zone, t.index)};
    } else {
      assert LostBlocks(w') == LostBlocks(w);
    }
  }

  lemma FindFreeBlockSizes(g: Geometry, s: State, c: ZoneClass, size: nat, r: Option<nat>)
    requires g.Sound() && WorldOk(g, s.w) && PoolOk(g, s.w, c) && Answer(s.w.mem, r, g.Length(c)) && SizesRecorded(s) && size <= BlockSize(c)
    ensures var (w', t) := AllocZone(g, s.w, c, size, r, Client);
            var asked' := if t.NoBlock? then s.asked else s.asked[InZone(c, t.zone, t.index) := size];
            SizesRecorded(s.(w := w', asked := asked'))
  {
    hide WorldOk, AllocZone, Z.Valid;
    AllocZoneEffect(g, s.w, c, size, r, Client);
    AllocZoneOthers(g, s.w, c, size, r, Client);
    var (w', t) := AllocZone(g, s.w, c, size, r, Client);
    var asked' := if t.NoBlock? then s.asked else s.asked[InZone(c, t.zone, t.index) := size];
    forall c': ZoneClass, z: nat, k: nat | InZone(c', z, k) in w'.own
      ensures z in PoolOf(w', c').zones && k < |PoolOf(w', c').zones[z].requested|
      ensures InZone(c', z, k) in asked' && Requested(w', c', z, k) == asked'[InZone(c', z, k)] <= BlockSize(c')
    {
      if c' == c {
        AllocZoneSizes(g, s.w, c, size, r, Client, z, k);
      } else {
        assert PoolOf(w', c') == PoolOf(s.w, c') && InZone(c', z, k) in s.w.own;
      }
    }
  }

  lemma FindFreeLargeBlockOk(o: Oracle, g: Geometry, s: State, size: nat)
    requires g.Sound() && Lawful(o) && Ok(g, s) && s.initialized && size > SMALL_BLOCK_SIZE
    ensures Ok(g, FindFreeLargeBlock(o, g, s, size).0)
  {
    hide Ok, WorldOk, AllocLarge, Z.Valid, B.Valid;
    OkParts(g, s);
    B.FreeHaveSizes(s.w.large);
    var r := if B.FirstFit(s.w.large.free, s.w.large.sizes, size).None? then o(s.calls, s.w.mem, BLOCK_HEADER + WORD + size) else None;
    assert Answer(s.w.mem, r, BLOCK_HEADER + WORD + size);
    AllocLargeOk(g, s.w, size, r, Client);
    AllocLargeOthers(g, s.w, size, r, Client);
    var (w', t) := AllocLarge(g, s.w, size, r, Client);
    assert FindFreeLargeBlock(o, g, s, size).0 == s.(w := w', calls := FindFreeLargeBlock(o, g, s, size).0.calls);
    LargeHandedOut(g, s, w', t, FindFreeLargeBlock(o, g, s, size).0.calls);
  }

  lemma OkParts(g: Geometry, s: State)
    requires Ok(g, s)
    ensures WorldOk(g, s.w) && ListsOk(g, s.w)
  {}

  // A large block more in client hands changes nothing that is said of zones.
  lemma LargeHandedOut(g: Geometry, s: State, w': World, t: Option<nat>, calls: nat)
    requires Ok(g, s) && s.initialized && WorldOk(g, w') && B.Valid(w'.large) && w'.tiny == s.w.tiny && w'.small == s.w.small
    requires if t.Some? then Big(t.value) !in s.w.own && w'.own == s.w.own[Big(t.value) := Client] else w'.own == s.w.own
    ensures Ok(g, s.(w := w', calls := calls))
  {
    hide WorldOk, SizesRecorded, Z.Valid, B.Valid;
    assert LostBlocks(w') == LostBlocks(s.w);
    assert forall c: ZoneClass, z: nat, k: nat :: InZone(c, z, k) in w'.own <==> InZone(c, z, k) in s.w.own;
    SizesStay(s, s.(w := w', calls := calls));
  }

  lemma AllocLargeOthers(g: Geometry, w: World, size: nat, r: Option<nat>, o: Owner)
    requires B.Valid(w.large)
    ensures var w' := AllocLarge(g, w, size, r, o).0; w'.tiny == w.tiny && w'.small == w.small
  {}

  // The record of sizes depends only on the zones and on who owns their blocks.
  lemma SizesStay(s: State, s': State)
    requires SizesRecorded(s) && s'.asked == s.asked && s'.w.tiny == s.w.tiny && s'.w.small == s.w.small
    requires forall c: ZoneClass, z: nat, k: nat :: InZone(c, z, k) in s'.w.own ==> InZone(c, z, k) in s.w.own
    ensures SizesRecorded(s')
  {
    assert forall c: ZoneClass :: PoolOf(s'.w, c) == PoolOf(s.w, c);
  }

  lemma AllocBlockOk(o: Oracle, g: Geometry, s: State, size: nat)
    requires g.Sound() && Lawful(o) && Ok(g, s) && s.initialized
    ensures Ok(g, AllocBlock(o, g, s, size).0)
  {
    if size <= TINY_BLOCK_SIZE { FindFreeBlockOk(o, g, s, Tiny, size); }
    else if size <= SMALL_BLOCK_SIZE { FindFreeBlockOk(o, g, s, Small, size); }
    else { FindFreeLargeBlockOk(o, g, s, size); }
  }

  lemma MallocOk(o: Oracle, g: Geometry, s: State, size: nat)
    requires g.Sound() && Lawful(o) && Ok(g, s)
    ensures Ok(g, Malloc(o, g, s, size).0)
  {
    if size != 0 && size <= PTRDIFF_MAX {
      if !s.initialized {
        SetupOk(o, g, s);
        var (s1, ok) := SetupGlobalHeap(o, g, s);
        if ok { AllocBlockOk(o, g, s1, size); }
      } else {
        AllocBlockOk(o, g, s, size);
      }
    }
  }

  // What any successful allocation gives, and what a failed one leaves alone.
  ghost predicate Allocates(s: State, size: nat, s': State, r: Option<BlockId>) {
    HandsOut(s.w, size, s'.w, r)
  }

  ghost predicate HandsOut(w: World, size: nat, w': World, r: Option<BlockId>) {
    && BytesKept(w.mem, w'.mem)
    && (forall id :: id in w.own ==> id in w'.own && w'.own[id] == w.own[id])
    && (forall id :: id in w'.own && id !in w.own ==> r == Some(id) || w'.own[id] == Lost)
    && (r.Some? ==> r.value !in w.own && r.value in w'.own && w'.own[r.value] == Client && Suits(w', r.value, size))
    && (forall b :: b in w.large.sizes ==> b in w'.large.sizes && w'.large.sizes[b] == w.large.sizes[b])
  }

  // The block is of the class of the request, and large enough.
  predicate Suits(w: World, id: BlockId, size: nat) {
    match id
    case InZone(c, _, _) => c == ClassOf(size)
    case Big(b) => size > SMALL_BLOCK_SIZE && b in w.large.sizes && w.large.sizes[b] >= size
  }

  lemma AllocZoneHandsOut(g: Geometry, w: World, c: ZoneClass, size: nat, a: Option<nat>)
    requires g.Sound() && WorldOk(g, w) && PoolOk(g, w, c) && Answer(w.mem, a, g.Length(c)) && c == ClassOf(size)
    ensures var (w', t) := AllocZone(g, w, c, size, a, Client);
            HandsOut(w, size, w', if t.Block? then Some(InZone(c, t.zone, t.index)) else None)
  {
    hide WorldOk, AllocZone, Z.Valid;
    AllocZoneOthers(g, w, c, size, a, Client);
    AllocZoneEffect(g, w, c, size, a, Client);
  }

  lemma AllocLargeHandsOut(g: Geometry, w: World, size: nat, a: Option<nat>)
    requires g.Sound() && WorldOk(g, w) && B.Valid(w.large) && size > SMALL_BLOCK_SIZE
    requires Answer(w.mem, a, BLOCK_HEADER + WORD + size)
    ensures var (w', t) := AllocLarge(g, w, size, a, Client);
            HandsOut(w, size, w', if t.Some? then Some(Big(t.value)) else None)
  {
    hide WorldOk, AllocLarge, B.Valid;
    AllocLargeOk(g, w, size, a, Client);
    var (w', t) := AllocLarge(g, w, size, a, Client);
    match t
    case None => assert w' == w;
    case Some(b) => assert w'.own == w.own[Big(b) := Client];
  }

  lemma FindFreeBlockEffect(o: Oracle, g: Geometry, s: State, c: ZoneClass, size: nat)
    requires g.Sound() && Lawful(o) && Ok(g, s) && c == ClassOf(size)
    ensures var (s', r) := FindFreeBlock(o, g, s, c, size); Allocates(s, size, s', r)
  {
    hide WorldOk, AllocZone, SizesRecorded, Stocked, Z.Valid, B.Valid, HandsOut;
    var a := if Z.FillsHead(PoolOf(s.w, c)) then o(s.calls, s.w.mem, g.Length(c)) else None;
    assert Answer(s.w.mem, a, g.Length(c));
    AllocZoneHandsOut(g, s.w, c, size, a);
  }

  lemma FindFreeLargeBlockEffect(o: Oracle, g: Geometry, s: State, size: nat)
    requires g.Sound() && Lawful(o) && Ok(g, s) && size > SMALL_BLOCK_SIZE
    ensures var (s', r) := FindFreeLargeBlock(o, g, s, size); Allocates(s, size, s', r)
  {
    hide WorldOk, AllocLarge, SizesRecorded, Stocked, Z.Valid, B.Valid, HandsOut;
    B.FreeHaveSizes(s.w.large);
    var a := if B.FirstFit(s.w.large.free, s.w.large.sizes, size).None? then o(s.calls, s.w.mem, BLOCK_HEADER + WORD + size) else None;
    assert Answer(s.w.mem, a, BLOCK_HEADER + WORD + size);
    AllocLargeHandsOut(g, s.w, size, a);
    var (w', t) := AllocLarge(g, s.w, size, a, Client);
    assert FindFreeLargeBlock(o, g, s, size).0.w == w';
    assert FindFreeLargeBlock(o, g, s, size).1 == if t.Some? then Some(Big(t.value)) else None;
  }

  lemma AllocBlockEffect(o: Oracle, g: Geometry, s: State, size: nat)
    requires g.Sound() && Lawful(o) && Ok(g, s)
    ensures var (s', r) := AllocBlock(o, g, s, size); Allocates(s, size, s', r)
  {
    if size <= TINY_BLOCK_SIZE { FindFreeBlockEffect(o, g, s, Tiny, size); }
    else if size <= SMALL_BLOCK_SIZE { FindFreeBlockEffect(o, g, s, Small, size); }
    else { FindFreeLargeBlockEffect(o, g, s, size); }
  }

  // malloc hands out a block nobody owned, big enough and of the class of the request, or fails
  // without touching anything a client owns.
  lemma MallocEffect(o: Oracle, g: Geometry, s: State, size: nat)
    requires g.Sound() && Lawful(o) && Ok(g, s)
    ensures var (s', r) := Malloc(o, g, s, size); Allocates(s, size, s', r)
  {
    hide Ok, Lawful, AllocBlock, SetupGlobalHeap, HandsOut;
    NothingHandedOut(s.w, size);
    if size != 0 && size <= PTRDIFF_MAX {
      if s.initialized {
        AllocBlockEffect(o, g, s, size);
      } else {
        SetupOk(o, g, s);
        var (s1, ok) := SetupGlobalHeap(o, g, s);
        NothingOwnedYet(g, s);
        NothingHandedOut(s1.w, size);
        if ok { AllocBlockEffect(o, g, s1, size); }
        var (s', r) := Malloc(o, g, s, size);
        AfterSetup(s.w, s1.w, size, s'.w, r);
      }
    }
  }

  lemma NothingHandedOut(w: World, size: nat)
    ensures HandsOut(w, size, w, None)
  {}

  lemma NothingOwnedYet(g: Geometry, s: State)
    requires Ok(g, s) && !s.initialized
    ensures s.w.own == map[]
  {}

  // Zones mapped by the setup, while nothing is owned, make no difference to what is handed out.
  lemma AfterSetup(w: World, w1: World, size: nat, w': World, r: Option<BlockId>)
    requires w.own == map[] == w1.own && w1.large == w.large && BytesKept(w.mem, w1.mem) && HandsOut(w1, size, w', r)
    ensures HandsOut(w, size, w', r)
  {}
}
