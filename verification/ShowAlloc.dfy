/** show_alloc_mem: what it lists and the total it reports.  The text it prints is left out; each line
    is kept as its three numbers. */
module ShowAlloc {
  import opened Sequences
  import opened Memory
  import opened Meta
  import opened Layout
  import opened Spaces
  import opened Worlds
  import opened Sections
  import opened Sequential
  import opened Runs
  import opened Lists
  import opened Bitmaps
  import opened ZonePools
  import opened BlockPools
  import opened Heaps
  import Z = Zones
  import B = Blocks

  datatype Line = Line(start: nat, end: nat, bytes: nat)

  function Total(lines: seq<Line>): nat {
    if lines == [] then 0 else Total(lines[..|lines| - 1]) + lines[|lines| - 1].bytes
  }

  lemma {:induction false} TotalOfAppend(s: seq<Line>, t: seq<Line>)
    ensures Total(s + t) == Total(s) + Total(t)
    decreases |t|
  {
    if t == [] {
      assert s + t == s;
    } else {
      assert (s + t)[..|s + t| - 1] == s + t[..|t| - 1];
      TotalOfAppend(s, t[..|t| - 1]);
    }
  }

  // ---- which blocks are listed, in which order ----

  // The allocated blocks among the first n of a zone.
  function ZoneIds(c: ZoneClass, z: nat, bits: seq<bool>, n: nat): seq<BlockId>
    requires n <= |bits|
  {
    if n == 0 then []
    else ZoneIds(c, z, bits, n - 1) + (if bits[n - 1] then [] else [InZone(c, z, n - 1)])
  }

  // Those of the first n zones of a list.
  function ListIds(c: ZoneClass, list: seq<nat>, zones: map<nat, Z.Zone>, n: nat): seq<BlockId>
    requires n <= |list| && forall i :: 0 <= i < |list| ==> list[i] in zones
  {
    if n == 0 then []
    else
      var bits := zones[list[n - 1]].bits;
      ListIds(c, list, zones, n - 1) + ZoneIds(c, list[n - 1], bits, |bits|)
  }

  function BigIds(full: seq<nat>): (ids: seq<BlockId>)
    ensures |ids| == |full|
    ensures forall i :: 0 <= i < |full| ==> ids[i] == Big(full[i])
  {
    seq(|full|, i requires 0 <= i < |full| => Big(full[i]))
  }

  predicate Listable(p: Z.Pool) {
    && (forall i :: 0 <= i < |p.free| ==> p.free[i] in p.zones)
    && (forall i :: 0 <= i < |p.full| ==> p.full[i] in p.zones)
  }

  function PoolIds(c: ZoneClass, p: Z.Pool): seq<BlockId>
    requires Listable(p)
  {
    ListIds(c, p.free, p.zones, |p.free|) + ListIds(c, p.full, p.zones, |p.full|)
  }

  function Ids(w: World): seq<BlockId>
    requires Listable(w.tiny) && Listable(w.small)
  {
    PoolIds(Tiny, w.tiny) + PoolIds(Small, w.small) + BigIds(w.large.full)
  }

  // ---- every owned block, live or lost, is listed exactly once ----

  lemma {:induction false} ZoneIdsExact(c: ZoneClass, z: nat, bits: seq<bool>, n: nat)
    requires n <= |bits|
    ensures NoDup(ZoneIds(c, z, bits, n))
    ensures forall id :: id in ZoneIds(c, z, bits, n) <==> id.InZone? && id.c == c && id.zone == z && id.index < n && !bits[id.index]
  {
    if n > 0 {
      ZoneIdsExact(c, z, bits, n - 1);
    }
  }

  lemma NoDupAppend<T>(s: seq<T>, t: seq<T>)
    requires NoDup(s) && NoDup(t) && Disjoint(s, t)
    ensures NoDup(s + t)
  {
    forall i, j | 0 <= i < j < |s + t|
      ensures (s + t)[i] != (s + t)[j]
    {
      if i < |s| <= j {
        assert s[i] in s && t[j - |s|] in t;
      }
    }
  }

  lemma {:induction false} ListIdsExact(c: ZoneClass, list: seq<nat>, zones: map<nat, Z.Zone>, n: nat)
    requires n <= |list| && forall i :: 0 <= i < |list| ==> list[i] in zones
    requires NoDup(list)
    ensures NoDup(ListIds(c, list, zones, n))
    ensures forall id :: id in ListIds(c, list, zones, n) <==>
              id.InZone? && id.c == c && id.zone in list[..n] && id.index < |zones[id.zone].bits| && !zones[id.zone].bits[id.index]
  {
    if n > 0 {
      var z, bits := list[n - 1], zones[list[n - 1]].bits;
      ListIdsExact(c, list, zones, n - 1);
      ZoneIdsExact(c, z, bits, |bits|);
      assert list[..n] == list[..n - 1] + [z];
      assert z !in list[..n - 1];
      NoDupAppend(ListIds(c, list, zones, n - 1), ZoneIds(c, z, bits, |bits|));
    }
  }

  lemma PoolIdsExact(c: ZoneClass, p: Z.Pool, n: nat)
    requires Z.Valid(p, n)
    ensures Listable(p) && NoDup(PoolIds(c, p))
    ensures forall id :: id in PoolIds(c, p) <==> id.InZone? && id.c == c && Z.Allocated(p, id.zone, id.index)
  {
    hide ZoneIds, Z.ZoneValid, Z.CountFree;
    assert forall i :: 0 <= i < |p.free| ==> p.free[i] in p.free;
    assert forall i :: 0 <= i < |p.full| ==> p.full[i] in p.full;
    ListIdsExact(c, p.free, p.zones, |p.free|);
    ListIdsExact(c, p.full, p.zones, |p.full|);
    assert p.free[..|p.free|] == p.free && p.full[..|p.full|] == p.full;
    NoDupAppend(ListIds(c, p.free, p.zones, |p.free|), ListIds(c, p.full, p.zones, |p.full|));
  }

  // In every reachable state the listing names each owned block once, and nothing else.
  lemma EachBlockListedOnce(g: Geometry, s: State)
    requires g.Sound() && Ok(g, s)
    ensures Listable(s.w.tiny) && Listable(s.w.small) && NoDup(Ids(s.w))
    ensures forall id :: id in Ids(s.w) <==> id in s.w.own
  {
    hide PoolIds, SpaceOk, KeysApart, Shaped, SizesRecorded, Stocked, LostBlocks;
    PoolIdsExact(Tiny, s.w.tiny, g.tinyBlocks);
    PoolIdsExact(Small, s.w.small, g.smallBlocks);
    NoDupAppend(PoolIds(Tiny, s.w.tiny), PoolIds(Small, s.w.small));
    NoDupAppend(PoolIds(Tiny, s.w.tiny) + PoolIds(Small, s.w.small), BigIds(s.w.large.full));
    forall id
      ensures id in Ids(s.w) <==> id in s.w.own
    {
      match id
      case InZone(c, z, k) => assert id in s.w.own <==> Z.Allocated(PoolOf(s.w, c), z, k);
      case Big(b) =>
        if b in s.w.large.full {
          var i :| 0 <= i < |s.w.large.full| && s.w.large.full[i] == b;
          assert BigIds(s.w.large.full)[i] == id;
        }
    }
  }

  // ---- in which order ----

  // z stands before y in the list.
  ghost predicate Precedes(list: seq<nat>, z: nat, y: nat) {
    exists a, b :: 0 <= a < b < |list| && list[a] == z && list[b] == y
  }

  function ClassRank(id: BlockId): nat { if id.Big? then 2 else if id.c == Small then 1 else 0 }

  // Tiny before small before large; within a zone class the zones of the free list in their order, then
  // those of the full list, and within a zone by index; large blocks in the order of their list.
  ghost predicate ListedBefore(w: World, x: BlockId, y: BlockId) {
    ClassRank(x) < ClassRank(y) ||
    match (x, y)
    case (InZone(c, z, i), InZone(c', z', i')) =>
      c == c' && if z == z' then i < i' else Precedes(PoolOf(w, c).free + PoolOf(w, c).full, z, z')
    case (Big(b), Big(b')) => Precedes(w.large.full, b, b')
    case _ => false
  }

  // The blocks of zones of one list, in order.
  ghost predicate InOrder(list: seq<nat>, ids: seq<BlockId>) {
    && (forall i :: 0 <= i < |ids| ==> ids[i].InZone? && ids[i].zone in list)
    && forall i, j :: 0 <= i < j < |ids| ==>
         if ids[i].zone == ids[j].zone then ids[i].index < ids[j].index else Precedes(list, ids[i].zone, ids[j].zone)
  }

  lemma {:induction false} ZoneIdsInOrder(c: ZoneClass, z: nat, bits: seq<bool>, n: nat)
    requires n <= |bits|
    ensures forall i :: 0 <= i < |ZoneIds(c, z, bits, n)| ==>
              var id := ZoneIds(c, z, bits, n)[i]; id.InZone? && id.c == c && id.zone == z && id.index < n
    ensures forall i, j :: 0 <= i < j < |ZoneIds(c, z, bits, n)| ==> ZoneIds(c, z, bits, n)[i].index < ZoneIds(c, z, bits, n)[j].index
  {
    if n > 0 { ZoneIdsInOrder(c, z, bits, n - 1); }
  }

  // Two stretches of different zones, one after the other.
  lemma InOrderAppend(l: seq<nat>, m: seq<nat>, s: seq<BlockId>, t: seq<BlockId>)
    requires InOrder(l, s) && InOrder(m, t) && Disjoint(l, m)
    ensures InOrder(l + m, s + t)
  {
    assert forall z, y :: Precedes(l, z, y) ==> Precedes(l + m, z, y) by {
      forall z, y | Precedes(l, z, y) ensures Precedes(l + m, z, y) {
        var a, b :| 0 <= a < b < |l| && l[a] == z && l[b] == y;
        assert (l + m)[a] == z && (l + m)[b] == y;
      }
    }
    assert forall z, y :: Precedes(m, z, y) ==> Precedes(l + m, z, y) by {
      forall z, y | Precedes(m, z, y) ensures Precedes(l + m, z, y) {
        var a, b :| 0 <= a < b < |m| && m[a] == z && m[b] == y;
        assert (l + m)[|l| + a] == z && (l + m)[|l| + b] == y;
      }
    }
    forall z, y | z in l && y in m ensures Precedes(l + m, z, y) {
      var a :| 0 <= a < |l| && l[a] == z;
      var b :| 0 <= b < |m| && m[b] == y;
      assert (l + m)[a] == z && (l + m)[|l| + b] == y;
    }
    forall i, j | 0 <= i < j < |s + t|
      ensures var x, y := (s + t)[i], (s + t)[j];
              if x.zone == y.zone then x.index < y.index else Precedes(l + m, x.zone, y.zone)
    {
      if i < |s| <= j { assert s[i].zone in l && t[j - |s|].zone in m; }
    }
  }

  predicate AllOfClass(c: ZoneClass, ids: seq<BlockId>) { forall i :: 0 <= i < |ids| ==> ids[i].InZone? && ids[i].c == c }

  lemma OneZoneInOrder(c: ZoneClass, z: nat, bits: seq<bool>)
    ensures InOrder([z], ZoneIds(c, z, bits, |bits|)) && AllOfClass(c, ZoneIds(c, z, bits, |bits|))
  {
    ZoneIdsInOrder(c, z, bits, |bits|);
  }

  lemma {:induction false} ListIdsInOrder(c: ZoneClass, list: seq<nat>, zones: map<nat, Z.Zone>, n: nat)
    requires n <= |list| && (forall i :: 0 <= i < |list| ==> list[i] in zones) && NoDup(list)
    ensures InOrder(list[..n], ListIds(c, list, zones, n)) && AllOfClass(c, ListIds(c, list, zones, n))
  {
    hide ZoneIds, InOrder;
    if n > 0 {
      var z, bits := list[n - 1], zones[list[n - 1]].bits;
      ListIdsInOrder(c, list, zones, n - 1);
      OneZoneInOrder(c, z, bits);
      assert z !in list[..n - 1];
      InOrderAppend(list[..n - 1], [z], ListIds(c, list, zones, n - 1), ZoneIds(c, z, bits, |bits|));
      assert list[..n] == list[..n - 1] + [z];
    } else {
      NothingInOrder(list[..n]);
    }
  }

  lemma NothingInOrder(list: seq<nat>)
    ensures InOrder(list, [])
  {}

  lemma PoolIdsInOrder(c: ZoneClass, p: Z.Pool, n: nat)
    requires Z.Valid(p, n)
    ensures Listable(p) && InOrder(p.free + p.full, PoolIds(c, p)) && AllOfClass(c, PoolIds(c, p))
  {
    hide InOrder, Z.ZoneValid, ListIds;
    assert forall i :: 0 <= i < |p.free| ==> p.free[i] in p.free;
    assert forall i :: 0 <= i < |p.full| ==> p.full[i] in p.full;
    ListIdsInOrder(c, p.free, p.zones, |p.free|);
    ListIdsInOrder(c, p.full, p.zones, |p.full|);
    assert p.free[..|p.free|] == p.free && p.full[..|p.full|] == p.full;
    InOrderAppend(p.free, p.full, ListIds(c, p.free, p.zones, |p.free|), ListIds(c, p.full, p.zones, |p.full|));
  }

  // The listing is in that order.
  lemma ListingInOrder(g: Geometry, s: State, i: nat, j: nat)
    requires g.Sound() && Ok(g, s)
    ensures Listable(s.w.tiny) && Listable(s.w.small)
    ensures i < j < |Ids(s.w)| ==> ListedBefore(s.w, Ids(s.w)[i], Ids(s.w)[j])
  {
    hide WorldOk, SizesRecorded, Stocked, LostBlocks, PoolIds, Z.Valid, B.Valid, Precedes;
    PoolIdsInOrder(Tiny, s.w.tiny, g.tinyBlocks);
    PoolIdsInOrder(Small, s.w.small, g.smallBlocks);
    var tiny, small, big := PoolIds(Tiny, s.w.tiny), PoolIds(Small, s.w.small), BigIds(s.w.large.full);
    if i < j < |Ids(s.w)| {
      var k := |tiny| + |small|;
      if i >= k { BigInOrder(s.w.large.full, i - k, j - k); }
    }
  }

  lemma BigInOrder(list: seq<nat>, i: nat, j: nat)
    requires i < j < |list|
    ensures Precedes(list, list[i], list[j])
  {}

  // ---- the lines ----

  predicate Described(w: World, id: BlockId) {
    match id
    case InZone(c, z, k) => z in PoolOf(w, c).zones && k < |PoolOf(w, c).zones[z].requested|
    case Big(b) => b in w.large.sizes
  }

  // Requested bytes of a zone block, whole size of a large one.
  function BytesOf(w: World, id: BlockId): nat
    requires Described(w, id)
  {
    match id
    case InZone(c, z, k) => Requested(w, c, z, k)
    case Big(b) => w.large.sizes[b]
  }

  function LineOf(g: Geometry, w: World, id: BlockId): Line
    requires Described(w, id)
  {
    Line(Ptr(g, id), Ptr(g, id) + BytesOf(w, id), BytesOf(w, id))
  }

  function LinesOf(g: Geometry, w: World, ids: seq<BlockId>): (lines: seq<Line>)
    requires forall i :: 0 <= i < |ids| ==> Described(w, ids[i])
    ensures |lines| == |ids|
    ensures forall i :: 0 <= i < |ids| ==> lines[i] == LineOf(g, w, ids[i])
  {
    seq(|ids|, i requires 0 <= i < |ids| => LineOf(g, w, ids[i]))
  }

  // The number reported for a block is what malloc was asked for, or the capacity of a large block.
  lemma ReportedSizes(g: Geometry, s: State, id: BlockId)
    requires g.Sound() && Ok(g, s) && id in s.w.own
    ensures Described(s.w, id) && Exists(g, SpaceOf(s.w), id)
    ensures id.InZone? ==> id in s.asked && BytesOf(s.w, id) == s.asked[id]
    ensures id.Big? ==> BytesOf(s.w, id) == Capacity(SpaceOf(s.w), id)
  {
    OwnedExists(g, s.w, id);
  }

  // The word before the address is mapped and names the block, as free reads it.
  ghost predicate WordNames(mem: Mem, p: nat, id: BlockId) {
    p >= WORD && Mapped(mem, p - WORD, WORD) &&
    var meta := LoadWord(mem, p - WORD);
    if MetaIsZone(meta) then id.InZone? && MetaZone(meta) == id.zone && MetaBlockNum(meta) == id.index else id == Big(meta)
  }

  // A line starts at the address at which free would find the very block of that line.
  lemma LinesStartAtBlocks(g: Geometry, s: State, id: BlockId)
    requires g.Sound() && Ok(g, s) && id in s.w.own
    ensures Described(s.w, id)
    ensures var line := LineOf(g, s.w, id);
            WordNames(s.w.mem, line.start, id) && line.end - line.start == line.bytes
  {
    hide LoadWord, MetaIsZone, MetaZone, MetaBlockNum, SizesRecorded, Stocked, LostBlocks, Z.Valid, B.Valid, SpaceOf;
    ReportedSizes(g, s, id);
    WorldSpace(g, s.w);
    DecodeFindsBlock(g, SpaceOf(s.w), s.w.mem, id);
  }

  // For a live block this address is the pointer that its client was given.
  lemma LinesStartAtPointers(g: Geometry, s: State, id: BlockId)
    requires g.Sound() && Ok(g, s) && Owns(s, id) && Described(s.w, id)
    ensures LivePtr(g, s, LineOf(g, s.w, id).start)
    ensures BlockAtPtr(g, s, LineOf(g, s.w, id).start) == id
  {
    hide Ok, Ptr, BlockAtPtr;
    OnePointer(g, s, BlockAtPtr(g, s, Ptr(g, id)), id);
  }

  // ---- the total fits a size_t ----

  // The addresses of a line, end excluded.
  function Span(a: nat, b: nat): (r: set<nat>)
    ensures forall x :: x in r <==> a <= x < b
    ensures a <= b ==> |r| == b - a
    decreases b
  {
    if a < b then Span(a, b - 1) + {b - 1} else {}
  }

  ghost predicate Placed(line: Line, limit: nat) { 0 < line.start <= line.end <= limit && line.bytes == line.end - line.start }

  ghost predicate Apart(lines: seq<Line>, limit: nat) {
    && (forall i :: 0 <= i < |lines| ==> Placed(lines[i], limit))
    && forall i, j :: 0 <= i < j < |lines| ==> lines[i].end <= lines[j].start || lines[j].end <= lines[i].start
  }

  // Addresses covered by the first n lines.
  lemma {:induction false} Covered(lines: seq<Line>, limit: nat, n: nat) returns (r: set<nat>)
    requires Apart(lines, limit) && n <= |lines|
    ensures |r| == Total(lines[..n]) && forall x :: x in r ==> 1 <= x < limit
    ensures forall x :: x in r ==> exists i :: 0 <= i < n && lines[i].start <= x < lines[i].end
  {
    if n == 0 {
      r := {};
    } else {
      r := Covered(lines, limit, n - 1);
      var line := lines[n - 1];
      assert r !! Span(line.start, line.end);
      assert lines[..n][..n - 1] == lines[..n - 1];
      r := r + Span(line.start, line.end);
    }
  }

  // Ranges that do not overlap have room below the limit, so no sum of their sizes reaches it.
  lemma ApartFits(lines: seq<Line>, limit: nat, n: nat)
    requires Apart(lines, limit) && n <= |lines| && limit > 0
    ensures Total(lines[..n]) < limit
  {
    var r := Covered(lines, limit, n);
    SubsetSize(r, Span(1, limit));
  }

  lemma {:induction false} SubsetSize(s: set<nat>, t: set<nat>)
    requires s <= t
    ensures |s| <= |t|
  {
    assert t == s + (t - s);
  }

  lemma BytesFit(g: Geometry, s: State, id: BlockId)
    requires g.Sound() && Ok(g, s) && id in s.w.own
    ensures Described(s.w, id) && Exists(g, SpaceOf(s.w), id) && BytesOf(s.w, id) <= Capacity(SpaceOf(s.w), id)
    ensures Ptr(g, id) + Capacity(SpaceOf(s.w), id) <= ADDRESS_LIMIT
  {
    ReportedSizes(g, s, id);
    SlotInside(g, SpaceOf(s.w), id);
  }

  // At every point of the walk the sum is below 2^64, so the additions in a size_t are exact.
  lemma TotalFits(g: Geometry, s: State, n: nat)
    requires g.Sound() && Ok(g, s)
    ensures Listable(s.w.tiny) && Listable(s.w.small)
    ensures forall i :: 0 <= i < |Ids(s.w)| ==> Described(s.w, Ids(s.w)[i])
    ensures n <= |Ids(s.w)| ==> Total(LinesOf(g, s.w, Ids(s.w))[..n]) < ADDRESS_LIMIT
  {
    hide Ok, Capacity, Total;
    EachBlockListedOnce(g, s);
    var ids := Ids(s.w);
    forall i | 0 <= i < |ids|
      ensures Described(s.w, ids[i]) && Placed(LineOf(g, s.w, ids[i]), ADDRESS_LIMIT)
    {
      assert ids[i] in ids;
      BytesFit(g, s, ids[i]);
    }
    var lines := LinesOf(g, s.w, ids);
    forall i, j | 0 <= i < j < |lines|
      ensures lines[i].end <= lines[j].start || lines[j].end <= lines[i].start
    {
      assert ids[i] in ids && ids[j] in ids;
      BytesFit(g, s, ids[i]);
      BytesFit(g, s, ids[j]);
      LivePayloads(g, s, ids[i], ids[j]);
    }
    if n <= |ids| { ApartFits(lines, ADDRESS_LIMIT, n); }
  }

  lemma LivePayloads(g: Geometry, s: State, x: BlockId, y: BlockId)
    requires g.Sound() && Ok(g, s) && x in s.w.own && y in s.w.own && x != y
    ensures var sp := SpaceOf(s.w);
            && Exists(g, sp, x) && Exists(g, sp, y)
            && (Ptr(g, x) + Capacity(sp, x) <= Ptr(g, y) || Ptr(g, y) + Capacity(sp, y) <= Ptr(g, x))
  {
    OwnedPayloadsDisjoint(g, s.w, x, y);
  }

  // ---- the walks ----

  // The lines and the sum are those of the given blocks.
  ghost predicate Shows(g: Geometry, w: World, ids: seq<BlockId>, lines: seq<Line>, total: nat) {
    && (forall i :: 0 <= i < |ids| ==> Described(w, ids[i]))
    && lines == LinesOf(g, w, ids) && total == Total(lines)
  }

  lemma ShowsAppend(g: Geometry, w: World, a: seq<BlockId>, s: seq<Line>, m: nat, b: seq<BlockId>, t: seq<Line>, n: nat)
    requires Shows(g, w, a, s, m) && Shows(g, w, b, t, n)
    ensures Shows(g, w, a + b, s + t, m + n)
  {
    TotalOfAppend(s, t);
  }

  lemma ShowsOne(g: Geometry, w: World, id: BlockId)
    requires Described(w, id)
    ensures Shows(g, w, [id], [LineOf(g, w, id)], BytesOf(w, id))
  {
    var line := LineOf(g, w, id);
    assert [line][..0] == [];
  }

  // show_zone
  method ShowZone(g: Geometry, h: ZoneHeader, z: nat, ghost w: World) returns (lines: seq<Line>, total: nat)
    requires h.blocks == g.Blocks(h.kind) && z in PoolOf(w, h.kind).zones && h.Is(PoolOf(w, h.kind).zones[z])
    ensures var bits := PoolOf(w, h.kind).zones[z].bits; Shows(g, w, ZoneIds(h.kind, z, bits, |bits|), lines, total)
  {
    hide Shows, ZoneIds, BitOf, ZoneHeader.Is;
    ghost var c, v := h.kind, PoolOf(w, h.kind).zones[z];
    lines, total := [], 0;
    ShowsNone(g, w);
    h.CellIs(v, 0);
    NextIds(c, z, v.bits, 0);
    var i := 0;
    while i < h.blocks
      invariant 0 <= i <= h.blocks
      invariant Shows(g, w, ZoneIds(c, z, v.bits, i), lines, total)
    {
      h.CellIs(v, i);
      NextIds(c, z, v.bits, i);
      if !BitOf(h.bitmap[i / 8], i % 8) {
        var req := h.requested[i];
        var start := z + g.SlotOffset(h.kind, i) + WORD;
        ShowsOne(g, w, InZone(c, z, i));
        assert LineOf(g, w, InZone(c, z, i)) == Line(start, start + req, req);
        ShowsAppend(g, w, ZoneIds(c, z, v.bits, i), lines, total, [InZone(c, z, i)], [Line(start, start + req, req)], req);
        lines := lines + [Line(start, start + req, req)];
        total := total + req;
      }
      i := i + 1;
    }
  }

  lemma NextIds(c: ZoneClass, z: nat, bits: seq<bool>, n: nat)
    requires n <= |bits|
    ensures n == 0 ==> ZoneIds(c, z, bits, n) == []
    ensures n < |bits| && bits[n] ==> ZoneIds(c, z, bits, n + 1) == ZoneIds(c, z, bits, n)
    ensures n < |bits| && !bits[n] ==> ZoneIds(c, z, bits, n + 1) == ZoneIds(c, z, bits, n) + [InZone(c, z, n)]
  {}

  // One of the four loops of show_alloc_mem over zones.
  method ShowList(g: Geometry, pool: ZonePool, list: List<ZoneHeader>, ghost addresses: seq<nat>, ghost w: World)
    returns (lines: seq<Line>, total: nat)
    requires pool.blocks == g.Blocks(pool.kind) && Listable(PoolOf(w, pool.kind))
    requires pool.Is(PoolOf(w, pool.kind)) && pool.Side(PoolOf(w, pool.kind), list, addresses)
    ensures pool.Is(PoolOf(w, pool.kind))
    ensures Shows(g, w, ListIds(pool.kind, addresses, PoolOf(w, pool.kind).zones, |addresses|), lines, total)
  {
    hide ZonePool.Is, ZonePool.Footprint, Shows, ZoneHeader.Is;
    ghost var p := PoolOf(w, pool.kind);
    ghost var i := 0;
    lines, total := [], 0;
    ShowsNone(g, w);
    pool.CellAt(p, list, addresses, 0);
    var zone := list.head;
    while zone != null
      invariant pool.Is(p) && 0 <= i <= |addresses| == |list.nodes|
      invariant zone == if i < |addresses| then list.nodes[i] else null
      invariant Shows(g, w, ListIds(pool.kind, addresses, p.zones, i), lines, total)
      decreases |addresses| - i
    {
      assert allocated(pool.Footprint());
      pool.CellAt(p, list, addresses, i);
      var l, t := ShowZone(g, zone.item, zone.address, w);
      ghost var bits := p.zones[zone.address].bits;
      ShowsAppend(g, w, ListIds(pool.kind, addresses, p.zones, i), lines, total, ZoneIds(pool.kind, zone.address, bits, |bits|), l, t);
      lines, total := lines + l, total + t;
      pool.CellAt(p, list, addresses, i);
      zone := zone.next;
      i := i + 1;
    }
  }

  // The loop of show_alloc_mem over the large blocks in use.
  method ShowLarge(g: Geometry, pool: BlockPool, ghost w: World) returns (lines: seq<Line>, total: nat)
    requires pool.Is(w.large)
    ensures Shows(g, w, BigIds(w.large.full), lines, total)
  {
    hide BlockPool.Is, BlockPool.Footprint, Shows;
    ghost var i := 0;
    lines, total := [], 0;
    ShowsNone(g, w);
    pool.FullCellAt(w.large, 0);
    assert BigIds(w.large.full)[..0] == [];
    var block := pool.full.head;
    while block != null
      invariant pool.Is(w.large) && 0 <= i <= |w.large.full| == |pool.full.nodes|
      invariant block == if i < |w.large.full| then pool.full.nodes[i] else null
      invariant Shows(g, w, BigIds(w.large.full)[..i], lines, total)
      decreases |w.large.full| - i
    {
      pool.FullCellAt(w.large, i);
      var start := block.address + BLOCK_HEADER + WORD;
      ShowsOne(g, w, Big(block.address));
      ShowsAppend(g, w, BigIds(w.large.full)[..i], lines, total,
                  [Big(block.address)], [Line(start, start + block.item, block.item)], block.item);
      assert BigIds(w.large.full)[..i + 1] == BigIds(w.large.full)[..i] + [Big(block.address)];
      lines, total := lines + [Line(start, start + block.item, block.item)], total + block.item;
      block := block.next;
      i := i + 1;
    }
    assert BigIds(w.large.full)[..i] == BigIds(w.large.full);
  }

  method ShowAllocMem(h: Heap, ghost s: State) returns (lines: seq<Line>, total: nat)
    requires h.Is(s) && h.g.Sound() && Ok(h.g, s)
    ensures Listable(s.w.tiny) && Listable(s.w.small)
    ensures Shows(h.g, s.w, Ids(s.w), lines, total) && total < ADDRESS_LIMIT
  {
    hide ZonePool.Is, ZonePool.Footprint, BlockPool.Is, BlockPool.Footprint, Shows, Ok;
    EachBlockListedOnce(h.g, s);
    assert allocated(h.Footprint());
    var t1, n1 := ShowList(h.g, h.tiny, h.tiny.free, s.w.tiny.free, s.w);
    assert allocated(h.Footprint());
    var t2, n2 := ShowList(h.g, h.tiny, h.tiny.full, s.w.tiny.full, s.w);
    assert allocated(h.Footprint());
    var s1, m1 := ShowList(h.g, h.small, h.small.free, s.w.small.free, s.w);
    assert allocated(h.Footprint());
    var s2, m2 := ShowList(h.g, h.small, h.small.full, s.w.small.full, s.w);
    assert allocated(h.Footprint());
    var b, k := ShowLarge(h.g, h.large, s.w);
    ghost var w := s.w;
    ghost var freeTiny := ListIds(Tiny, w.tiny.free, w.tiny.zones, |w.tiny.free|);
    ghost var fullTiny := ListIds(Tiny, w.tiny.full, w.tiny.zones, |w.tiny.full|);
    ShowsAppend(h.g, w, freeTiny, t1, n1, fullTiny, t2, n2);
    ghost var freeSmall := ListIds(Small, w.small.free, w.small.zones, |w.small.free|);
    ghost var fullSmall := ListIds(Small, w.small.full, w.small.zones, |w.small.full|);
    ShowsAppend(h.g, w, freeSmall, s1, m1, fullSmall, s2, m2);
    ShowsAppend(h.g, w, PoolIds(Tiny, w.tiny), t1 + t2, n1 + n2, PoolIds(Small, w.small), s1 + s2, m1 + m2);
    ShowsAppend(h.g, w, PoolIds(Tiny, w.tiny) + PoolIds(Small, w.small), (t1 + t2) + (s1 + s2), (n1 + n2) + (m1 + m2),
                BigIds(w.large.full), b, k);
    lines := ((t1 + t2) + (s1 + s2)) + b;
    total := ((n1 + n2) + (m1 + m2)) + k;
    TotalOfAll(h.g, s, lines, total);
  }

  lemma TotalOfAll(g: Geometry, s: State, lines: seq<Line>, total: nat)
    requires g.Sound() && Ok(g, s) && Listable(s.w.tiny) && Listable(s.w.small) && Shows(g, s.w, Ids(s.w), lines, total)
    ensures total < ADDRESS_LIMIT
  {
    hide Ok, Total, Ids;
    TotalFits(g, s, |lines|);
    assert lines[..|lines|] == lines;
  }

  lemma ShowsNone(g: Geometry, w: World)
    ensures Shows(g, w, [], [], 0)
  {}
}
