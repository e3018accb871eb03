/** The address space as the allocator sees it: which structure starts at which address, where the
    blocks inside it lie, and what the meta words in memory say. */
module Spaces {
  import opened Memory
  import opened Meta
  import opened Layout

  // The typed header found at a mapped base address.
  datatype Struct = ZoneAt(c: ZoneClass) | BlockAt(size: nat)

  type Space = map<nat, Struct>

  // A block the allocator can hand out.
  datatype BlockId = InZone(c: ZoneClass, zone: nat, index: nat) | Big(base: nat)

  function Base(id: BlockId): nat {
    match id
    case InZone(_, z, _) => z
    case Big(b) => b
  }

  // calculate_zone_block_address, and the payload address of a large block.
  function Ptr(g: Geometry, id: BlockId): (p: nat)
    ensures p >= Base(id) + BLOCK_HEADER + WORD
  {
    match id
    case InZone(c, z, i) => z + g.SlotOffset(c, i) + WORD
    case Big(b) => b + BLOCK_HEADER + WORD
  }

  function Length(g: Geometry, s: Struct): nat {
    match s
    case ZoneAt(c) => g.Length(c)
    case BlockAt(size) => BLOCK_HEADER + WORD + size
  }

  // Bytes of the structure that come before its first slot.
  function Front(g: Geometry, s: Struct): nat {
    match s
    case ZoneAt(c) => g.DataOffset(c)
    case BlockAt(_) => BLOCK_HEADER
  }

  predicate Exists(g: Geometry, sp: Space, id: BlockId) {
    match id
    case InZone(c, z, i) => z in sp && sp[z] == ZoneAt(c) && i < g.Blocks(c)
    case Big(b) => b in sp && sp[b].BlockAt?
  }

  function Capacity(sp: Space, id: BlockId): nat
    requires id.Big? ==> id.base in sp && sp[id.base].BlockAt?
  {
    match id
    case InZone(c, _, _) => BlockSize(c)
    case Big(b) => sp[b].size
  }

  // The word stored just before the payload.
  function MetaOf(id: BlockId): nat {
    match id
    case InZone(_, z, i) => MetaPack(z, i)
    case Big(b) => b
  }

  ghost predicate RegionsApart(g: Geometry, sp: Space) {
    forall a, b :: a in sp && b in sp && a != b ==> a + Length(g, sp[a]) <= b || b + Length(g, sp[b]) <= a
  }

  ghost predicate Placed(g: Geometry, sp: Space) {
    forall a :: a in sp ==> a > 0 && a % 4096 == 0 && a + Length(g, sp[a]) <= ADDRESS_LIMIT
  }

  ghost predicate AllMapped(g: Geometry, sp: Space, mem: Mem) {
    forall a :: a in sp ==> Mapped(mem, a, Length(g, sp[a]))
  }

  ghost predicate MetaStored(g: Geometry, mem: Mem, id: BlockId) {
    Mapped(mem, Ptr(g, id) - WORD, WORD) && LoadWord(mem, Ptr(g, id) - WORD) == MetaOf(id)
  }

  ghost predicate MetasStored(g: Geometry, sp: Space, mem: Mem) {
    forall id :: Exists(g, sp, id) ==> MetaStored(g, mem, id)
  }

  ghost predicate SpaceOk(g: Geometry, sp: Space, mem: Mem) {
    RegionsApart(g, sp) && Placed(g, sp) && AllMapped(g, sp, mem) && MetasStored(g, sp, mem)
  }

  // A legal answer of mmap: page-aligned, inside the address space, not mapped before.
  ghost predicate Fresh(mem: Mem, a: nat, len: nat) {
    && a > 0 && a % 4096 == 0 && a + len <= ADDRESS_LIMIT
    && forall x :: a <= x < a + len ==> x !in mem
  }

  // ---- disjointness ----

  lemma SlotInside(g: Geometry, sp: Space, id: BlockId)
    requires g.Sound() && Exists(g, sp, id)
    ensures Base(id) + Front(g, sp[Base(id)]) <= Ptr(g, id) - WORD
    ensures Ptr(g, id) + Capacity(sp, id) <= Base(id) + Length(g, sp[Base(id)])
  {}

  // The slots, meta word included, of two different blocks never overlap.
  lemma SlotsApart(g: Geometry, sp: Space, x: BlockId, y: BlockId)
    requires g.Sound() && RegionsApart(g, sp) && Exists(g, sp, x) && Exists(g, sp, y) && x != y
    ensures Ptr(g, x) + Capacity(sp, x) <= Ptr(g, y) - WORD || Ptr(g, y) + Capacity(sp, y) <= Ptr(g, x) - WORD
  {
    SlotInside(g, sp, x);
    SlotInside(g, sp, y);
  }

  // Bytes that belong to the allocator: headers, bitmaps, size tables and meta words.
  ghost predicate AllocatorByte(g: Geometry, sp: Space, x: nat) {
    || (exists a :: a in sp && a <= x < a + Front(g, sp[a]))
    || (exists id :: Exists(g, sp, id) && Ptr(g, id) - WORD <= x < Ptr(g, id))
  }

  ghost predicate InPayload(g: Geometry, sp: Space, id: BlockId, x: nat) {
    Exists(g, sp, id) && Ptr(g, id) <= x < Ptr(g, id) + Capacity(sp, id)
  }

  lemma FrontInside(g: Geometry, s: Struct)
    requires g.Sound()
    ensures Front(g, s) <= Length(g, s)
  {}

  lemma PayloadIsNotAllocator(g: Geometry, sp: Space, id: BlockId, x: nat)
    requires g.Sound() && RegionsApart(g, sp) && InPayload(g, sp, id, x)
    ensures !AllocatorByte(g, sp, x)
  {
    hide Geometry.Sound, Front, Length, Ptr, Capacity;
    SlotInside(g, sp, id);
    forall a | a in sp
      ensures !(a <= x < a + Front(g, sp[a]))
    {
      FrontInside(g, sp[a]);
    }
    forall other | Exists(g, sp, other)
      ensures !(Ptr(g, other) - WORD <= x < Ptr(g, other))
    {
      if other != id { SlotsApart(g, sp, id, other); }
    }
  }

  // The four parts of a zone do not overlap and end inside it.
  lemma ZonePartsInOrder(g: Geometry, c: ZoneClass, i: nat, j: nat)
    requires g.Sound() && i < j < g.Blocks(c)
    ensures var n := g.Blocks(c);
            var bitmap := ZONE_HEADER;
            var sizes := bitmap + (n + 7) / 8;
            && 8 * (sizes - bitmap) >= n
            && sizes + WORD * n == g.DataOffset(c) == g.SlotOffset(c, 0)
            && g.SlotOffset(c, i) + WORD + BlockSize(c) <= g.SlotOffset(c, j)
            && g.SlotOffset(c, j) + WORD + BlockSize(c) <= g.Length(c)
  {}

  // ---- decoding ----

  // What free and realloc find from the word before the payload.
  function Decode(sp: Space, meta: nat): (id: BlockId)
    requires MetaIsZone(meta) ==> MetaZone(meta) in sp && sp[MetaZone(meta)].ZoneAt?
  {
    if MetaIsZone(meta) then InZone(sp[MetaZone(meta)].c, MetaZone(meta), MetaBlockNum(meta)) else Big(meta)
  }

  // From the address of any existing block, the word before it is mapped, names a mapped structure
  // and decodes to that very block.
  lemma DecodeFindsBlock(g: Geometry, sp: Space, mem: Mem, id: BlockId)
    requires g.Sound() && SpaceOk(g, sp, mem) && Exists(g, sp, id)
    ensures Mapped(mem, Ptr(g, id) - WORD, WORD)
    ensures var meta := LoadWord(mem, Ptr(g, id) - WORD);
            && (MetaIsZone(meta) <==> id.InZone?)
            && (id.InZone? ==> MetaZone(meta) == id.zone && MetaBlockNum(meta) == id.index && sp[id.zone] == ZoneAt(id.c))
            && (id.Big? ==> meta == id.base && sp[meta].BlockAt?)
            && Decode(sp, meta) == id
  {
    assert MetaStored(g, mem, id);
    match id
    case InZone(c, z, i) => DecodePacked(z, i);
    case Big(b) => PlainWordIsNotZone(b);
  }

  lemma PtrInjective(g: Geometry, sp: Space, x: BlockId, y: BlockId)
    requires g.Sound() && RegionsApart(g, sp) && Exists(g, sp, x) && Exists(g, sp, y)
    ensures Ptr(g, x) == Ptr(g, y) <==> x == y
  {
    if x != y { SlotsApart(g, sp, x, y); }
  }

  // ---- building and changing the space ----

  lemma PackedIsWord(zone: nat, n: nat)
    requires zone % 4096 == 0 && n < 2048 && zone + 4096 <= ADDRESS_LIMIT
    ensures MetaPack(zone, n) < ADDRESS_LIMIT
  {
    PackIsSum(zone, n);
  }

  // The loop of create_zone that writes the meta words of the first i slots.
  function WriteMetas(g: Geometry, mem: Mem, c: ZoneClass, z: nat, i: nat): (mem': Mem)
    requires Mapped(mem, z, g.SlotOffset(c, i))
    ensures mem'.Keys == mem.Keys
    ensures forall x :: x in mem && !(z + g.DataOffset(c) <= x < z + g.SlotOffset(c, i)) ==> mem'[x] == mem[x]
    decreases i
  {
    if i == 0 then mem
    else
      var mem1 := WriteMetas(g, mem, c, z, i - 1);
      StoreWord(mem1, z + g.SlotOffset(c, i - 1), MetaPack(z, i - 1))
  }

  lemma SlotOrder(g: Geometry, c: ZoneClass, i: nat, j: nat)
    requires i < j
    ensures g.DataOffset(c) <= g.SlotOffset(c, i) && g.SlotOffset(c, i) + WORD + BlockSize(c) <= g.SlotOffset(c, j)
  {}

  lemma {:induction false} MetasWritten(g: Geometry, mem: Mem, c: ZoneClass, z: nat, i: nat, k: nat)
    requires Mapped(mem, z, g.SlotOffset(c, i)) && k < i <= 2048
    requires z % 4096 == 0 && z + 4096 <= ADDRESS_LIMIT
    ensures MetaStored(g, WriteMetas(g, mem, c, z, i), InZone(c, z, k))
    decreases i
  {
    hide StoreWord, LoadWord, MetaPack, Geometry.SlotOffset;
    SlotOrder(g, c, k, i);
    SlotOrder(g, c, i - 1, i);
    if k == i - 1 {
      LastMetaWritten(g, mem, c, z, i);
    } else {
      SlotOrder(g, c, k, i - 1);
      MetasWritten(g, mem, c, z, i - 1, k);
      OtherWordStays(WriteMetas(g, mem, c, z, i - 1), z + g.SlotOffset(c, i - 1), MetaPack(z, i - 1), z + g.SlotOffset(c, k));
    }
  }

  lemma OtherWordStays(mem: Mem, at: nat, w: nat, p: nat)
    requires Mapped(mem, at, WORD) && Mapped(mem, p, WORD) && (at + WORD <= p || p + WORD <= at)
    ensures Mapped(StoreWord(mem, at, w), p, WORD) && LoadWord(StoreWord(mem, at, w), p) == LoadWord(mem, p)
  {
    hide StoreWord, LoadWord;
    LoadDependsOn(mem, StoreWord(mem, at, w), p);
  }

  lemma LastMetaWritten(g: Geometry, mem: Mem, c: ZoneClass, z: nat, i: nat)
    requires 0 < i <= 2048 && Mapped(mem, z, g.SlotOffset(c, i))
    requires z % 4096 == 0 && z + 4096 <= ADDRESS_LIMIT
    ensures MetaStored(g, WriteMetas(g, mem, c, z, i), InZone(c, z, i - 1))
  {
    hide StoreWord, LoadWord, MetaPack, Geometry.SlotOffset;
    SlotOrder(g, c, i - 1, i);
    PackedIsWord(z, i - 1);
    StoredWord(WriteMetas(g, mem, c, z, i - 1), z + g.SlotOffset(c, i - 1), MetaPack(z, i - 1));
  }

  lemma StoredWord(mem: Mem, at: nat, w: nat)
    requires Mapped(mem, at, WORD) && w < ADDRESS_LIMIT
    ensures Mapped(StoreWord(mem, at, w), at, WORD) && LoadWord(StoreWord(mem, at, w), at) == w
  {
    hide StoreWord, LoadWord;
    LoadAfterStore(mem, at, w);
  }

  // mmap and initialisation of a zone, and of a large block.
  function ZoneMemory(g: Geometry, mem: Mem, c: ZoneClass, a: nat): (mem': Mem)
    requires g.Sound()
    ensures forall x :: x in mem' <==> x in mem || a <= x < a + g.Length(c)
    ensures forall x :: x in mem && !(a <= x < a + g.Length(c)) ==> mem'[x] == mem[x]
  {
    WriteMetas(g, Map(mem, a, g.Length(c)), c, a, g.Blocks(c))
  }

  function BlockMemory(mem: Mem, a: nat, size: nat): (mem': Mem)
    ensures forall x :: x in mem' <==> x in mem || a <= x < a + BLOCK_HEADER + WORD + size
    ensures forall x :: x in mem && !(a <= x < a + BLOCK_HEADER + WORD + size) ==> mem'[x] == mem[x]
  {
    StoreWord(Map(mem, a, BLOCK_HEADER + WORD + size), a + BLOCK_HEADER, a)
  }

  // Changing bytes outside every meta word, or unmapping bytes outside every structure, is harmless.
  lemma MemoryChangeKeepsSpace(g: Geometry, sp: Space, mem: Mem, mem': Mem)
    requires g.Sound() && SpaceOk(g, sp, mem)
    requires AllMapped(g, sp, mem')
    requires forall id, x :: Exists(g, sp, id) && Ptr(g, id) - WORD <= x < Ptr(g, id) && x in mem && x in mem' ==> mem'[x] == mem[x]
    ensures SpaceOk(g, sp, mem')
  {
    forall id | Exists(g, sp, id)
      ensures MetaStored(g, mem', id)
    {
      SlotInside(g, sp, id);
      assert MetaStored(g, mem, id);
      LoadDependsOn(mem, mem', Ptr(g, id) - WORD);
    }
  }

  // A write into the payload of an existing block keeps everything.
  lemma PayloadWriteKeepsSpace(g: Geometry, sp: Space, mem: Mem, id: BlockId, x: nat, v: byte)
    requires g.Sound() && SpaceOk(g, sp, mem) && InPayload(g, sp, id, x)
    ensures x in mem && SpaceOk(g, sp, mem[x := v])
    ensures forall y :: AllocatorByte(g, sp, y) && y in mem ==> mem[x := v][y] == mem[y]
  {
    SlotInside(g, sp, id);
    assert Mapped(mem, Base(id), Length(g, sp[Base(id)]));
    PayloadIsNotAllocator(g, sp, id, x);
    assert mem[x := v].Keys == mem.Keys;
    forall other, y | Exists(g, sp, other) && Ptr(g, other) - WORD <= y < Ptr(g, other) && y in mem
      ensures mem[x := v][y] == mem[y]
    {
      assert AllocatorByte(g, sp, y);
    }
    MemoryChangeKeepsSpace(g, sp, mem, mem[x := v]);
  }

  lemma FreshIsNew(g: Geometry, sp: Space, mem: Mem, a: nat, len: nat)
    requires g.Sound() && SpaceOk(g, sp, mem) && Fresh(mem, a, len) && len > 0
    ensures a !in sp
    ensures forall b :: b in sp ==> b + Length(g, sp[b]) <= a || a + len <= b
  {
    forall b | b in sp
      ensures b + Length(g, sp[b]) <= a || a + len <= b
    {
      assert Mapped(mem, b, Length(g, sp[b])) && Length(g, sp[b]) > 0;
      assert b in mem && a !in mem;
    }
  }

  lemma OldMetaStays(g: Geometry, sp: Space, mem: Mem, mem': Mem, id: BlockId)
    requires g.Sound() && SpaceOk(g, sp, mem) && Exists(g, sp, id)
    requires forall x :: Base(id) <= x < Base(id) + Length(g, sp[Base(id)]) && x in mem ==> x in mem' && mem'[x] == mem[x]
    ensures MetaStored(g, mem', id)
  {
    hide Geometry.Sound, LoadWord, MetaOf, Front, Length, Ptr, Capacity, RegionsApart, Placed;
    SlotInside(g, sp, id);
    assert MetaStored(g, mem, id);
    assert Mapped(mem, Base(id), Length(g, sp[Base(id)]));
    LoadDependsOn(mem, mem', Ptr(g, id) - WORD);
  }

  // What both kinds of fresh structure have in common: the old ones stay where they are, intact.
  lemma FreshKeepsOld(g: Geometry, sp: Space, mem: Mem, a: nat, s: Struct, mem': Mem)
    requires g.Sound() && SpaceOk(g, sp, mem) && Fresh(mem, a, Length(g, s)) && Length(g, s) > 0
    requires forall x :: x in mem' <==> x in mem || a <= x < a + Length(g, s)
    requires forall x :: x in mem && !(a <= x < a + Length(g, s)) ==> mem'[x] == mem[x]
    ensures a !in sp && RegionsApart(g, sp[a := s]) && Placed(g, sp[a := s])
    ensures AllMapped(g, sp[a := s], mem')
    ensures forall id :: Exists(g, sp, id) ==> MetaStored(g, mem', id)
  {
    FreshIsNew(g, sp, mem, a, Length(g, s));
    forall b | b in sp
      ensures Mapped(mem', b, Length(g, sp[b]))
    {
      assert Mapped(mem, b, Length(g, sp[b]));
    }
    forall id | Exists(g, sp, id)
      ensures MetaStored(g, mem', id)
    {
      OldMetaStays(g, sp, mem, mem', id);
    }
  }

  lemma NewZoneKeepsSpace(g: Geometry, sp: Space, mem: Mem, c: ZoneClass, a: nat)
    requires g.Sound() && SpaceOk(g, sp, mem) && Fresh(mem, a, g.Length(c))
    ensures a !in sp && SpaceOk(g, sp[a := ZoneAt(c)], ZoneMemory(g, mem, c, a))
  {
    var mem' := ZoneMemory(g, mem, c, a);
    FreshKeepsOld(g, sp, mem, a, ZoneAt(c), mem');
    forall id | Exists(g, sp[a := ZoneAt(c)], id) && Base(id) == a
      ensures MetaStored(g, mem', id)
    {
      MetasWritten(g, Map(mem, a, g.Length(c)), c, a, g.Blocks(c), id.index);
    }
  }

  lemma NewBlockKeepsSpace(g: Geometry, sp: Space, mem: Mem, a: nat, size: nat)
    requires g.Sound() && SpaceOk(g, sp, mem) && Fresh(mem, a, BLOCK_HEADER + WORD + size)
    ensures a !in sp && SpaceOk(g, sp[a := BlockAt(size)], BlockMemory(mem, a, size))
  {
    var mem' := BlockMemory(mem, a, size);
    FreshKeepsOld(g, sp, mem, a, BlockAt(size), mem');
    LoadAfterStore(Map(mem, a, BLOCK_HEADER + WORD + size), a + BLOCK_HEADER, a);
    assert MetaStored(g, mem', Big(a));
  }

  // munmap of one structure leaves the others mapped and intact.
  lemma UnmapKeepsSpace(g: Geometry, sp: Space, mem: Mem, a: nat)
    requires g.Sound() && SpaceOk(g, sp, mem) && a in sp
    ensures SpaceOk(g, sp - {a}, Unmap(mem, a, Length(g, sp[a])))
  {
    var mem', sp' := Unmap(mem, a, Length(g, sp[a])), sp - {a};
    forall b | b in sp'
      ensures Mapped(mem', b, Length(g, sp'[b]))
    {
      assert Mapped(mem, b, Length(g, sp[b]));
    }
    forall id | Exists(g, sp', id)
      ensures MetaStored(g, mem', id)
    {
      OldMetaStays(g, sp, mem, mem', id);
    }
  }

  // The payloads of the structures that stay keep their bytes.
  lemma UnmapKeepsPayload(g: Geometry, sp: Space, mem: Mem, a: nat, id: BlockId, x: nat)
    requires g.Sound() && SpaceOk(g, sp, mem) && a in sp
    requires InPayload(g, sp, id, x) && Base(id) != a
    ensures x in mem && x in Unmap(mem, a, Length(g, sp[a])) && Unmap(mem, a, Length(g, sp[a]))[x] == mem[x]
  {
    SlotInside(g, sp, id);
    assert Mapped(mem, Base(id), Length(g, sp[Base(id)]));
  }
}
