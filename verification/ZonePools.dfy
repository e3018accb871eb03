/** One zone size class as linked lists of headers: the objects behind a pool value. */
module ZonePools {
  import opened Sequences
  import opened Layout
  import opened Lists
  import opened Bitmaps
  import Z = Zones

  type ZoneNode = Node<ZoneHeader>

  // Cells know their address, headers their class, and no two zones share an array.
  ghost predicate Apart(at: map<nat, ZoneNode>, kind: ZoneClass, blocks: nat) {
    && (forall a :: a in at ==> at[a].address == a && at[a].item.kind == kind && at[a].item.blocks == blocks)
    && (forall a, b :: a in at && b in at ==> at[a].item.bitmap as object != at[b].item.requested)
    && (forall a, b :: a in at && b in at && a != b ==>
          at[a].item.bitmap != at[b].item.bitmap && at[a].item.requested != at[b].item.requested)
  }

  lemma AddApart(at: map<nat, ZoneNode>, kind: ZoneClass, blocks: nat, n: ZoneNode)
    requires Apart(at, kind, blocks)
    requires n.item.kind == kind && n.item.blocks == blocks && n.item.bitmap as object != n.item.requested
    requires forall a :: a in at ==>
               && at[a].item.bitmap as object !in {n.item.bitmap as object, n.item.requested}
               && at[a].item.requested as object !in {n.item.bitmap as object, n.item.requested}
    ensures Apart(at[n.address := n], kind, blocks)
  {}

  ghost function Nodes(at: map<nat, ZoneNode>): set<object> { set a | a in at :: at[a] }
  ghost function Headers(at: map<nat, ZoneNode>): set<object> { set a | a in at :: at[a].item }
  ghost function BitmapArrays(at: map<nat, ZoneNode>): set<object> { set a | a in at :: at[a].item.bitmap }
  ghost function SizeTables(at: map<nat, ZoneNode>): set<object> { set a | a in at :: at[a].item.requested }

  // The headers, bitmaps and size tables in place spell out the given zones.
  ghost predicate HeadersSay(at: map<nat, ZoneNode>, zones: map<nat, Z.Zone>)
    reads Headers(at), BitmapArrays(at), SizeTables(at)
  {
    && zones.Keys == at.Keys
    && forall a :: a in at ==> at[a].item.Is(zones[a])
  }

  lemma AddSay(at: map<nat, ZoneNode>, zones: map<nat, Z.Zone>, a: nat, n: ZoneNode, v: Z.Zone)
    requires HeadersSay(at, zones) && n.item.Is(v)
    ensures HeadersSay(at[a := n], zones[a := v])
  {}

  lemma AddCells(at: map<nat, ZoneNode>, a: nat, n: ZoneNode)
    ensures Nodes(at[a := n]) <= Nodes(at) + {n}
    ensures Headers(at[a := n]) <= Headers(at) + {n.item}
    ensures BitmapArrays(at[a := n]) <= BitmapArrays(at) + {n.item.bitmap}
    ensures SizeTables(at[a := n]) <= SizeTables(at) + {n.item.requested}
  {}

  lemma DropCells(at: map<nat, ZoneNode>, a: nat)
    ensures Nodes(at - {a}) <= Nodes(at) && Headers(at - {a}) <= Headers(at)
    ensures BitmapArrays(at - {a}) <= BitmapArrays(at) && SizeTables(at - {a}) <= SizeTables(at)
  {}

  lemma DropSay(at: map<nat, ZoneNode>, zones: map<nat, Z.Zone>, a: nat)
    requires HeadersSay(at, zones)
    ensures HeadersSay(at - {a}, zones - {a})
  {}

  // A new header in its place in memory.
  method NewZoneNode(a: nat, kind: ZoneClass, blocks: nat) returns (n: ZoneNode)
    requires blocks > 0
    ensures n.address == a && n.item.kind == kind && n.item.blocks == blocks && n.item.Is(Z.FreshZone(blocks))
    ensures fresh(n) && fresh(n.item) && fresh(n.item.bitmap) && fresh(n.item.requested)
    ensures n.item.bitmap as object != n.item.requested
  {
    hide ZoneHeader.Is;
    var header := new ZoneHeader(kind, blocks);
    n := new Node(a, header);
  }

  class ZonePool {
    const kind: ZoneClass
    const blocks: nat
    const free: List<ZoneHeader>
    const full: List<ZoneHeader>
    // The header that lies at each mapped base address.
    var at: map<nat, ZoneNode>

    ghost function Footprint(): (r: set<object>)
      reads this`at
      ensures this in r
    {
      {this, free, full} + Nodes(at) + Headers(at) + BitmapArrays(at) + SizeTables(at)
    }

    // These objects are the pool p.
    ghost predicate Is(p: Z.Pool)
      reads this, Footprint()
    {
      && Apart(at, kind, blocks) && HeadersSay(at, p.zones)
      && ListsFit(at, p.free, p.full, free.nodes, full.nodes)
      && free != full && free.Valid() && full.Valid()
    }

    constructor (kind: ZoneClass, blocks: nat)
      ensures Is(Z.EMPTY_POOL) && fresh(Footprint()) && this.kind == kind && this.blocks == blocks
    {
      this.kind, this.blocks := kind, blocks;
      free := new List();
      full := new List();
      at := map[];
    }

    // What the methods below need to know about their objects.
    lemma CellsInside(p: Z.Pool)
      requires Is(p)
      ensures free.Cells() <= Nodes(at) && full.Cells() <= Nodes(at) && free.Cells() !! full.Cells()
      ensures Headers(at) + BitmapArrays(at) + SizeTables(at) !! Nodes(at) + {this, free, full}
      ensures this !in Nodes(at)
    {
      hide NoDup, Linked, HeadersSay, Apart;
      forall n: ZoneNode | n in free.nodes || n in full.nodes
        ensures n in Nodes(at)
      {
        assert at[n.address] == n;
      }
    }

    lemma HeaderApart(p: Z.Pool, z: nat)
      requires Is(p) && z in at
      ensures at[z].item.blocks == blocks && at[z].item.Is(p.zones[z])
      ensures z in p.zones && |p.zones[z].bits| == |p.zones[z].requested| == blocks && p.zones.Keys + {z} == p.zones.Keys
      ensures at[z].item in Headers(at) && at[z].item.bitmap in BitmapArrays(at) && at[z].item.requested in SizeTables(at)
      ensures forall a :: a in at && a != z ==>
                && at[a].item != at[z].item && at[a].item.bitmap != at[z].item.bitmap
                && at[a].item.requested != at[z].item.requested
                && at[a].item.bitmap as object != at[z].item.requested && at[z].item.bitmap as object != at[a].item.requested
    {}

    // find_free_block when the last bit was taken.
    method MoveToFull(n: ZoneNode, ghost p: Z.Pool)
      requires Is(p) && n in free.nodes
      modifies free, full, Nodes(at)
      ensures Is(Z.AppendFull(Z.DetachFree(p, n.address), n.address))
    {
      hide Remove, NoDup, Linked, ListsFit, Apart, HeadersSay, Nodes;
      CellsInside(p);
      MoveFits(at, p.free, p.full, free.nodes, full.nodes, n);
      free.Detach(n);
      assert HeadersSay(at, p.zones);
      assert free.Cells() !! full.Cells() + {n};
      full.AddBack(n);
      assert HeadersSay(at, p.zones) && free.Valid();
    }

    // free when the first bit of a full zone was given back.
    method MoveToFree(n: ZoneNode, ghost p: Z.Pool)
      requires Is(p) && n in full.nodes
      modifies free, full, Nodes(at)
      ensures Is(Z.AppendFree(Z.DetachFull(p, n.address), n.address))
    {
      hide Remove, NoDup, Linked, ListsFit, Apart, HeadersSay, Nodes;
      CellsInside(p);
      SwapFits(at, p.free, p.full, free.nodes, full.nodes);
      MoveFits(at, p.full, p.free, full.nodes, free.nodes, n);
      full.Detach(n);
      assert HeadersSay(at, p.zones);
      assert full.Cells() !! free.Cells() + {n};
      free.AddBack(n);
      assert HeadersSay(at, p.zones) && full.Valid();
      SwapFits(at, Remove(p.full, n.address), p.free + [n.address], full.nodes, free.nodes);
    }

    // The three updates of find_free_block on the header at z.
    method TakeBit(z: nat, k: nat, size: nat, ghost p: Z.Pool)
      requires Is(p) && z in at && k < blocks
      modifies at[z].item`freeCount, at[z].item.bitmap, at[z].item.requested
      ensures z in p.zones && k < |p.zones[z].bits| && k < |p.zones[z].requested|
      ensures Is(Z.TakeBit(p, z, k, size))
    {
      hide NoDup, Linked, ListsFit, Apart, Headers, BitmapArrays, SizeTables, Nodes, TailClear, Bits;
      CellsInside(p);
      HeaderApart(p, z);
      at[z].item.TakeBit(k, size);
      forall a | a in at && a != z
        ensures at[a].item.Is(p.zones[a])
      {
        assert old(at[a].item.Is(p.zones[a]));
      }
      assert HeadersSay(at, Z.TakeBit(p, z, k, size).zones);
      assert free.Valid() && full.Valid();
    }

    // The two updates of free on the header at z.
    method GiveBit(z: nat, k: nat, ghost p: Z.Pool)
      requires Is(p) && z in at && k < blocks
      modifies at[z].item`freeCount, at[z].item.bitmap
      ensures z in p.zones && k < |p.zones[z].bits|
      ensures Is(Z.GiveBit(p, z, k))
    {
      hide NoDup, Linked, ListsFit, Apart, Headers, BitmapArrays, SizeTables, Nodes, TailClear, Bits;
      CellsInside(p);
      HeaderApart(p, z);
      at[z].item.GiveBit(k);
      forall a | a in at && a != z
        ensures at[a].item.Is(p.zones[a])
      {
        assert old(at[a].item.Is(p.zones[a]));
      }
      assert HeadersSay(at, Z.GiveBit(p, z, k).zones);
      assert free.Valid() && full.Valid();
    }

    // lst_add_back at the end of create_zone: a filled-in header joins the free list.
    method AddNode(n: ZoneNode, ghost v: Z.Zone, ghost p: Z.Pool)
      requires Is(p) && n.address !in at && n.item.Is(v) && Apart(at[n.address := n], kind, blocks)
      requires {n, n.item, n.item.bitmap, n.item.requested} !! Footprint()
      modifies this`at, free, Nodes(at), n
      ensures Is(Z.AppendFree(p.(zones := p.zones[n.address := v]), n.address))
      ensures at == old(at)[n.address := n]
    {
      hide NoDup, Linked, ListsFit, Apart, HeadersSay, ZoneHeader.Is;
      CellsInside(p);
      AddFits(at, p.free, p.full, free.nodes, full.nodes, n);
      free.AddBack(n);
      assert free.Valid() && full.Valid();
      assert HeadersSay(at, p.zones);
      at := at[n.address := n];
      AddSay(old(at), p.zones, n.address, n, v);
    }

    // The part of create_zone after mmap: header, bitmap and size table, then the free list.
    method AddZone(a: nat, ghost p: Z.Pool)
      requires Is(p) && a !in at && blocks > 0
      modifies Footprint()
      ensures Is(Z.AppendFree(Z.MapZone(p, a, blocks), a))
      ensures at.Keys == old(at).Keys + {a} && fresh(Footprint() - old(Footprint()))
    {
      hide Is, Apart, ZoneHeader.Is, Nodes, Headers, BitmapArrays, SizeTables;
      AllApart(p);
      assert allocated(Footprint());
      var n := NewZoneNode(a, kind, blocks);
      AddApart(at, kind, blocks, n);
      AddNode(n, Z.FreshZone(blocks), p);
      AddCells(old(at), a, n);
    }

    lemma AllApart(p: Z.Pool)
      requires Is(p)
      ensures Apart(at, kind, blocks) && free.Cells() <= Nodes(at)
      ensures forall a :: a in at ==> at[a].item.bitmap in BitmapArrays(at) && at[a].item.requested in SizeTables(at)
    {
      CellsInside(p);
    }

    // free of an emptied zone that is not alone on its list: detached, then unmapped.
    method Drop(n: ZoneNode, ghost p: Z.Pool)
      requires Is(p) && n in free.nodes
      modifies this`at, free, Nodes(at)
      ensures Is(Z.UnmapZone(Z.DetachFree(p, n.address), n.address))
      ensures at == old(at) - {n.address} && Footprint() <= old(Footprint())
    {
      hide NoDup, Linked, ListsFit, HeadersSay, Remove;
      CellsInside(p);
      DropFits(at, p.free, p.full, free.nodes, full.nodes, n);
      free.Detach(n);
      assert full.Valid() && HeadersSay(at, p.zones);
      at := at - {n.address};
      DropSay(old(at), p.zones, n.address);
      DropCells(old(at), n.address);
    }

    lemma HeadIs(p: Z.Pool)
      requires Is(p)
      ensures free.head == null <==> p.free == []
      ensures p.free != [] ==>
                var z := p.free[0];
                z in at && at[z] == free.head && free.head.address == z && at[z] in free.nodes
    {}

    lemma CellOf(p: Z.Pool, z: nat)
      requires Is(p) && z in at
      ensures at[z].address == z && (at[z] in free.nodes <==> z in p.free) && (at[z] in full.nodes <==> z in p.full)
    {}

    // find_free_block up to the point where a filled zone may call for a new one: k is -1 when the
    // free list is empty, else the block taken from the zone at its head.
    method TakeFirst(size: nat, ghost p: Z.Pool) returns (z: nat, k: int, filled: bool)
      requires Is(p) && Z.Valid(p, blocks) && blocks > 1
      modifies Footprint()
      ensures at == old(at)
      ensures if p.free == [] then k == -1 && Is(p)
              else
                && z == p.free[0] && z in p.zones && Z.FirstFree(p.zones[z].bits) == Some(k) && k < |p.zones[z].requested|
                && (filled <==> p.zones[z].freeCount == 1)
                && (!filled ==> Is(Z.TakeBit(p, z, k, size)))
                && (filled ==> Is(Z.AppendFull(Z.DetachFree(Z.TakeBit(p, z, k, size), z), z)))
    {
      hide Is, Z.Valid, Nodes, Headers, BitmapArrays, SizeTables;
      CellsInside(p);
      HeadIs(p);
      filled := false;
      if free.head == null {
        return 0, -1, false;
      }
      var n: ZoneNode := free.head;
      z := n.address;
      HeaderApart(p, z);
      Z.FreeZoneHasBit(p, blocks, z);
      assert allocated(Footprint());
      k := n.item.FindSetBit();
      if k == -1 {
        assert false;
        return;
      }
      TakeBit(z, k, size, p);
      ghost var p1 := Z.TakeBit(p, z, k, size);
      HeaderApart(p1, z);
      if n.item.freeCount == 0 {
        CellOf(p1, z);
        MoveToFull(n, p1);
        filled := true;
      }
    }

    // The zone part of free; the flag says that the caller is to unmap the zone.
    method Release(z: nat, k: nat, ghost p: Z.Pool) returns (dropped: bool)
      requires Is(p) && Z.Valid(p, blocks) && blocks > 1 && Z.Allocated(p, z, k)
      modifies Footprint()
      ensures Footprint() <= old(Footprint())
      ensures (dropped <==> Z.Free(p, blocks, z, k).1) && Is(Z.Free(p, blocks, z, k).0)
      ensures at == if dropped then old(at) - {z} else old(at)
    {
      hide Is, Z.Valid, Remove, Nodes, Headers, BitmapArrays, SizeTables;
      CellsInside(p);
      InAt(p, z);
      HeaderApart(p, z);
      CellOf(p, z);
      Z.FreeKeepsValid(p, blocks, z, k);
      Z.FreeFindsLists(p, blocks, z, k);
      var n := at[z];
      GiveBit(z, k, p);
      ghost var p1 := Z.GiveBit(p, z, k);
      HeaderApart(p1, z);
      CellOf(p1, z);
      dropped := false;
      if n.item.freeCount == blocks {
        LinksOf(p1, n);
        if n.prev != null || n.next != null {
          Drop(n, p1);
          dropped := true;
        }
      } else if n.item.freeCount == 1 {
        MoveToFree(n, p1);
      }
    }

    lemma InAt(p: Z.Pool, z: nat)
      requires Is(p)
      ensures z in at <==> z in p.zones
    {}

    lemma LinksOf(p: Z.Pool, n: ZoneNode)
      requires Is(p) && n in free.nodes
      ensures n.prev != null || n.next != null <==> |p.free| > 1
    {
      free.LinkedIffNotAlone(n);
    }

    ghost predicate Side(p: Z.Pool, list: List<ZoneHeader>, addresses: seq<nat>) {
      (list == free && addresses == p.free) || (list == full && addresses == p.full)
    }

    // What a walk along either list finds at its i-th cell.
    lemma CellAt(p: Z.Pool, list: List<ZoneHeader>, addresses: seq<nat>, i: nat)
      requires Is(p) && Side(p, list, addresses)
      ensures |addresses| == |list.nodes|
      ensures i == 0 ==> list.head == if addresses == [] then null else list.nodes[0]
      ensures i < |addresses| ==>
                var n := list.nodes[i];
                && n.address == addresses[i] && addresses[i] in p.zones
                && n.item.kind == kind && n.item.blocks == blocks && n.item.Is(p.zones[addresses[i]])
                && n.next == if i + 1 < |addresses| then list.nodes[i + 1] else null
    {
      if i < |addresses| {
        assert at[list.nodes[i].address] == list.nodes[i];
      }
    }
  }
}
