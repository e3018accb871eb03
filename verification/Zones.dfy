/** One zone size class (tiny or small): the zones it has mapped, its free list and its full list.

    The list operations, the bitmap updates and the two paths that map or unmap a zone are separate
    functions, because under threads each of them is a step of its own. */
module Zones {
  import opened Sequences

  // bits[k] is true when block k is free, as in the C bitmap.
  datatype Zone = Zone(bits: seq<bool>, requested: seq<nat>, freeCount: int)

  datatype Pool = Pool(free: seq<nat>, full: seq<nat>, zones: map<nat, Zone>)

  datatype Taken = NoBlock | Block(zone: nat, index: nat) | Leaked(zone: nat, index: nat)

  const EMPTY_POOL := Pool([], [], map[])

  function FreshZone(n: nat): Zone {
    Zone(seq(n, _ => true), seq(n, _ => 0), n)
  }

  function CountFree(bits: seq<bool>): (n: nat)
    ensures n <= |bits|
  {
    if bits == [] then 0 else (if bits[0] then 1 else 0) + CountFree(bits[1..])
  }

  // Index of the lowest free block.
  function FirstFree(bits: seq<bool>): (r: Option<nat>)
    ensures r.None? <==> forall k :: 0 <= k < |bits| ==> !bits[k]
    ensures r.Some? ==> r.value < |bits| && bits[r.value] && forall k :: 0 <= k < r.value ==> !bits[k]
  {
    if bits == [] then None
    else if bits[0] then Some(0)
    else
      match FirstFree(bits[1..])
      case None => None
      case Some(k) => Some(k + 1)
  }

  lemma {:induction false} CountUpdate(bits: seq<bool>, k: nat, b: bool)
    requires k < |bits|
    ensures CountFree(bits[k := b]) == CountFree(bits) - (if bits[k] then 1 else 0) + (if b then 1 else 0)
  {
    if k > 0 {
      CountUpdate(bits[1..], k - 1, b);
      assert bits[k := b][1..] == bits[1..][k - 1 := b];
    } else {
      assert bits[k := b][1..] == bits[1..];
    }
  }

  lemma {:induction false} CountExtremes(bits: seq<bool>)
    ensures CountFree(bits) == 0 <==> forall k :: 0 <= k < |bits| ==> !bits[k]
    ensures CountFree(bits) == |bits| <==> forall k :: 0 <= k < |bits| ==> bits[k]
  {
    if bits != [] {
      CountExtremes(bits[1..]);
      assert forall k :: 1 <= k < |bits| ==> bits[k] == bits[1..][k - 1];
    }
  }

  ghost predicate ZoneValid(z: Zone, n: nat) {
    |z.bits| == |z.requested| == n && z.freeCount == CountFree(z.bits)
  }

  // Every mapped zone is on exactly one list: the free list when it has a free block, else the full
  // list; and its counter is the number of set bits.
  ghost predicate Valid(p: Pool, n: nat) {
    && NoDup(p.free) && NoDup(p.full) && Disjoint(p.free, p.full)
    && (forall z :: z in p.zones <==> z in p.free || z in p.full)
    && (forall z :: z in p.zones ==> ZoneValid(p.zones[z], n))
    && (forall z :: z in p.zones ==> (z in p.free <==> p.zones[z].freeCount >= 1))
  }

  // A zone on the free list has a free block, so the scan of its bitmap never comes back with -1.
  lemma FreeZoneHasBit(p: Pool, n: nat, z: nat)
    requires Valid(p, n) && z in p.free
    ensures z in p.zones && FirstFree(p.zones[z].bits).Some? && FirstFree(p.zones[z].bits).value < n
  {
    CountExtremes(p.zones[z].bits);
  }

  ghost predicate Allocated(p: Pool, z: nat, k: nat) {
    z in p.zones && k < |p.zones[z].bits| && !p.zones[z].bits[k]
  }

  // ---- the single steps ----

  function TakeBit(p: Pool, z: nat, k: nat, size: nat): Pool
    requires z in p.zones && k < |p.zones[z].bits| && k < |p.zones[z].requested|
  {
    var o := p.zones[z];
    p.(zones := p.zones[z := Zone(o.bits[k := false], o.requested[k := size], o.freeCount - 1)])
  }

  function GiveBit(p: Pool, z: nat, k: nat): Pool
    requires z in p.zones && k < |p.zones[z].bits|
  {
    var o := p.zones[z];
    p.(zones := p.zones[z := o.(bits := o.bits[k := true], freeCount := o.freeCount + 1)])
  }

  function DetachFree(p: Pool, z: nat): Pool { p.(free := Remove(p.free, z)) }
  function DetachFull(p: Pool, z: nat): Pool { p.(full := Remove(p.full, z)) }
  function AppendFree(p: Pool, z: nat): Pool { p.(free := p.free + [z]) }
  function AppendFull(p: Pool, z: nat): Pool { p.(full := p.full + [z]) }
  function MapZone(p: Pool, z: nat, n: nat): Pool { p.(zones := p.zones[z := FreshZone(n)]) }
  function UnmapZone(p: Pool, z: nat): Pool { p.(zones := p.zones - {z}) }

  // The list links of a zone are not both null.
  predicate Linked(p: Pool, z: nat) {
    (z in p.free && |p.free| > 1) || (z in p.full && |p.full| > 1)
  }

  // ---- the whole operations ----

  // Taking the last free block of the head zone is what makes find_free_block map a new zone.
  predicate FillsHead(p: Pool) {
    p.free != [] && p.free[0] in p.zones && p.zones[p.free[0]].freeCount == 1
  }

  // find_free_block on the head of the free list; r is what mmap answers if it is asked.
  function Alloc(p: Pool, n: nat, size: nat, r: Option<nat>): (Pool, Taken)
    requires Valid(p, n)
  {
    if p.free == [] then (p, NoBlock)
    else
      var z := p.free[0];
      match FirstFree(p.zones[z].bits)
      case None => (p, NoBlock)
      case Some(k) =>
        var p1 := TakeBit(p, z, k, size);
        if p1.zones[z].freeCount != 0 then (p1, Block(z, k))
        else
          var p2 := AppendFull(DetachFree(p1, z), z);
          match r
          case None => (p2, Leaked(z, k))
          case Some(a) => (AppendFree(MapZone(p2, a, n), a), Block(z, k))
  }

  // The zone part of free; the flag tells whether the zone was unmapped.
  function Free(p: Pool, n: nat, z: nat, k: nat): (Pool, bool)
    requires z in p.zones && k < |p.zones[z].bits|
  {
    var p1 := GiveBit(p, z, k);
    if p1.zones[z].freeCount == n then
      if Linked(p1, z) then (UnmapZone(DetachFree(p1, z), z), true) else (p1, false)
    else if p1.zones[z].freeCount == 1 then (AppendFree(DetachFull(p1, z), z), false)
    else (p1, false)
  }

  // ---- what they keep ----

  lemma FreshZoneValid(n: nat)
    ensures ZoneValid(FreshZone(n), n)
  {
    CountExtremes(FreshZone(n).bits);
  }

  // create_zone at setup or refill: the new zone joins the back of the free list.
  lemma NewZoneKeepsValid(p: Pool, n: nat, a: nat)
    requires Valid(p, n) && n > 0 && a !in p.zones
    ensures Valid(AppendFree(MapZone(p, a, n), a), n)
  {
    FreshZoneValid(n);
    AppendKeeps(p.free, a);
  }

  lemma TakeKeepsZones(p: Pool, n: nat, z: nat, k: nat, size: nat)
    requires Valid(p, n) && z in p.zones && k < n && p.zones[z].bits[k]
    ensures var p1 := TakeBit(p, z, k, size);
            && p1.zones.Keys == p.zones.Keys
            && (forall y :: y in p1.zones ==> ZoneValid(p1.zones[y], n))
            && (forall y, i :: Allocated(p1, y, i) <==> Allocated(p, y, i) || (y == z && i == k))
  {
    CountUpdate(p.zones[z].bits, k, false);
  }

  lemma TakeKeepsValid(p: Pool, n: nat, z: nat, k: nat, size: nat)
    requires Valid(p, n) && z in p.free && k < n && p.zones[z].bits[k] && p.zones[z].freeCount > 1
    ensures Valid(TakeBit(p, z, k, size), n)
  {
    TakeKeepsZones(p, n, z, k, size);
  }

  lemma GiveKeepsZones(p: Pool, n: nat, z: nat, k: nat)
    requires Valid(p, n) && Allocated(p, z, k)
    ensures var p1 := GiveBit(p, z, k);
            && p1.zones.Keys == p.zones.Keys
            && (forall y :: y in p1.zones ==> ZoneValid(p1.zones[y], n))
            && (forall y, i :: Allocated(p1, y, i) <==> Allocated(p, y, i) && !(y == z && i == k))
  {
    CountUpdate(p.zones[z].bits, k, true);
  }

  lemma MoveToFullKeepsValid(p: Pool, n: nat, z: nat, k: nat, size: nat)
    requires Valid(p, n) && z in p.free && k < n && p.zones[z].bits[k] && p.zones[z].freeCount == 1
    ensures Valid(AppendFull(DetachFree(TakeBit(p, z, k, size), z), z), n)
  {
    TakeKeepsZones(p, n, z, k, size);
    RemoveKeeps(p.free, z);
    AppendKeeps(p.full, z);
  }

  lemma AllocKeepsValid(p: Pool, n: nat, size: nat, r: Option<nat>)
    requires Valid(p, n) && n > 1
    requires r.Some? ==> r.value !in p.zones
    ensures Valid(Alloc(p, n, size, r).0, n)
  {
    if p.free != [] {
      var z := p.free[0];
      CountExtremes(p.zones[z].bits);
      var k := FirstFree(p.zones[z].bits).value;
      TakeKeepsZones(p, n, z, k, size);
      if p.zones[z].freeCount == 1 {
        MoveToFullKeepsValid(p, n, z, k, size);
        if r.Some? {
          NewZoneKeepsValid(AppendFull(DetachFree(TakeBit(p, z, k, size), z), z), n, r.value);
        }
      }
    }
  }

  // One block leaves the free ones, whether it is handed out or leaked by a failed mmap; a block
  // is found exactly when the free list has a head, and lost exactly when the refill fails.
  lemma AllocTakesOne(p: Pool, n: nat, size: nat, r: Option<nat>)
    requires Valid(p, n) && n > 1
    requires r.Some? ==> r.value !in p.zones
    ensures var (p', t) := Alloc(p, n, size, r);
            && (t.NoBlock? <==> p.free == [])
            && (t.NoBlock? ==> p' == p)
            && (t.Leaked? <==> FillsHead(p) && r.None?)
            && (!t.NoBlock? ==>
                  && t.zone in p.zones && t.index < n && !Allocated(p, t.zone, t.index)
                  && p'.zones[t.zone].requested[t.index] == size
                  && forall y, i :: Allocated(p', y, i) <==> Allocated(p, y, i) || (y == t.zone && i == t.index))
  {
    if p.free != [] {
      var z := p.free[0];
      CountExtremes(p.zones[z].bits);
      var k := FirstFree(p.zones[z].bits).value;
      TakeKeepsZones(p, n, z, k, size);
    }
  }

  // Which block is taken and what becomes of the lists: the lowest free block of the first zone; when it
  // was the last one there, the zone goes to the back of the full list and a zone that mmap granted to
  // the back of the free list.
  lemma AllocMoves(p: Pool, n: nat, size: nat, r: Option<nat>)
    requires Valid(p, n) && n > 1 && p.free != [] && (r.Some? ==> r.value !in p.zones)
    ensures p.free[0] in p.zones
    ensures var (p', t) := Alloc(p, n, size, r); var z := p.free[0];
            && !t.NoBlock? && t.zone == z && t.index < n && (forall i :: 0 <= i < t.index ==> Allocated(p, z, i))
            && if p.zones[z].freeCount > 1 then p'.free == p.free && p'.full == p.full && p'.zones.Keys == p.zones.Keys
               else
                 && p'.full == p.full + [z]
                 && p'.free == p.free[1..] + (if r.Some? then [r.value] else [])
                 && p'.zones.Keys == p.zones.Keys + (if r.Some? then {r.value} else {})
  {
    CountExtremes(p.zones[p.free[0]].bits);
    assert Remove(p.free, p.free[0]) == p.free[1..];
  }

  // The request is recorded for the block handed out and for no other.
  lemma AllocRecordsSize(p: Pool, n: nat, size: nat, r: Option<nat>, z: nat, k: nat)
    requires Valid(p, n) && n > 1
    requires r.Some? ==> r.value !in p.zones
    requires Allocated(Alloc(p, n, size, r).0, z, k)
    ensures var p' := Alloc(p, n, size, r).0;
            && k < |p'.zones[z].requested|
            && (if Allocated(p, z, k) then k < |p.zones[z].requested| && p'.zones[z].requested[k] == p.zones[z].requested[k]
                else p'.zones[z].requested[k] == size)
  {
    if p.free != [] { CountExtremes(p.zones[p.free[0]].bits); }
  }

  // While mmap answers, the free list never becomes empty.
  lemma AllocKeepsHead(p: Pool, n: nat, size: nat, r: Option<nat>)
    requires Valid(p, n) && n > 1 && p.free != []
    requires r.Some? ==> r.value !in p.zones
    ensures Alloc(p, n, size, r).0.free != [] || (FillsHead(p) && r.None?)
  {
    CountExtremes(p.zones[p.free[0]].bits);
  }

  lemma FreeKeepsValid(p: Pool, n: nat, z: nat, k: nat)
    requires Valid(p, n) && n > 1 && Allocated(p, z, k)
    ensures Valid(Free(p, n, z, k).0, n)
    ensures p.zones[z].freeCount == n - 1 ==> z in p.free
  {
    GiveKeepsZones(p, n, z, k);
    CountUpdate(p.zones[z].bits, k, true);
    var p1 := GiveBit(p, z, k);
    CountExtremes(p1.zones[z].bits);
    if p1.zones[z].freeCount == n {
      if Linked(p1, z) { RemoveKeeps(p.free, z); }
    } else if p1.zones[z].freeCount == 1 {
      RemoveKeeps(p.full, z);
      AppendKeeps(p.free, z);
    }
  }

  // An emptied zone has at least two blocks, so it is on the free list; a zone that gets its first
  // free block is on the full one.
  lemma FreeFindsLists(p: Pool, n: nat, z: nat, k: nat)
    requires Valid(p, n) && n > 1 && Allocated(p, z, k)
    ensures var p1 := GiveBit(p, z, k);
            && (p1.zones[z].freeCount == n ==> z in p1.free && z !in p1.full)
            && (p1.zones[z].freeCount == 1 ==> z in p1.full)
  {
    CountUpdate(p.zones[z].bits, k, true);
  }

  // Exactly the named block is given back, even when its zone is unmapped; an unmapped zone held no
  // other block; and a non-empty free list stays non-empty.
  lemma FreeGivesOne(p: Pool, n: nat, z: nat, k: nat)
    requires Valid(p, n) && n > 1 && Allocated(p, z, k)
    ensures var (p', dropped) := Free(p, n, z, k);
            && p'.zones.Keys == p.zones.Keys - (if dropped then {z} else {})
            && (forall y, i :: Allocated(p', y, i) <==> Allocated(p, y, i) && !(y == z && i == k))
            && p'.free != []
            && (dropped <==> p.zones[z].freeCount == n - 1 && |p.free| > 1)
  {
    GiveKeepsZones(p, n, z, k);
    CountUpdate(p.zones[z].bits, k, true);
    var p1 := GiveBit(p, z, k);
    CountExtremes(p1.zones[z].bits);
    if p1.zones[z].freeCount == n && Linked(p1, z) { RemoveKeeps(p.free, z); }
  }

  // What becomes of the lists when a block is freed: a zone that has become empty leaves the free list
  // unless it is alone there, a full one goes to the back of the free list, any other stays in its place.
  lemma FreeMoves(p: Pool, n: nat, z: nat, k: nat)
    requires Valid(p, n) && n > 1 && Allocated(p, z, k)
    ensures var p', count := Free(p, n, z, k).0, p.zones[z].freeCount;
            if count == 0 then p'.free == p.free + [z] && p'.full == Remove(p.full, z)
            else if count == n - 1 && |p.free| > 1 then p'.free == Remove(p.free, z) && p'.full == p.full
            else p'.free == p.free && p'.full == p.full
  {
    GiveKeepsZones(p, n, z, k);
    CountUpdate(p.zones[z].bits, k, true);
  }
}
