/** The unlocked reads of free and realloc, the private copy of realloc, client writes, and the steps
    of the free section. */
module ThreadFree {
  import opened Sequences
  import opened Memory
  import opened Meta
  import opened Layout
  import opened Spaces
  import opened Worlds
  import opened Sections
  import opened Threads
  import opened ThreadInvariant
  import opened ThreadSteps
  import Z = Zones
  import B = Blocks

  // ---- writes into one payload ----

  lemma WriteKeepsOther(g: Geometry, w: World, id: BlockId, x: nat, v: byte, other: BlockId)
    requires g.Sound() && WorldOk(g, w) && id in w.own && InPayload(g, SpaceOf(w), id, x)
    requires other in w.own && other != id
    ensures PayloadKept(g, w, w.(mem := w.mem[x := v]), other)
  {
    hide WorldOk, SpaceOf, PayloadKept, InPayload;
    OwnedPayloadsDisjoint(g, w, other, id);
    OtherPayload(g, w, id, x, v, other);
  }

  lemma OtherPayload(g: Geometry, w: World, id: BlockId, x: nat, v: byte, other: BlockId)
    requires Exists(g, SpaceOf(w), other) && InPayload(g, SpaceOf(w), id, x)
    requires forall a :: InPayload(g, SpaceOf(w), other, a) ==> a in w.mem
    requires Ptr(g, id) + Capacity(SpaceOf(w), id) <= Ptr(g, other) || Ptr(g, other) + Capacity(SpaceOf(w), other) <= Ptr(g, id)
    ensures PayloadKept(g, w, w.(mem := w.mem[x := v]), other)
  {
    hide SpaceOf, Capacity;
    SameStructures(w, x, v);
    forall a | Ptr(g, other) <= a < Ptr(g, other) + Capacity(SpaceOf(w), other)
      ensures a in w.mem && w.mem[x := v][a] == w.mem[a]
    {
      assert InPayload(g, SpaceOf(w), other, a);
    }
  }

  lemma SameStructures(w: World, x: nat, v: byte)
    ensures SpaceOf(w.(mem := w.mem[x := v])) == SpaceOf(w)
  {}

  lemma WriteKeepsFor(g: Geometry, w: World, id: BlockId, x: nat, v: byte, u: nat)
    requires g.Sound() && WorldOk(g, w) && id in w.own && InPayload(g, SpaceOf(w), id, x) && !HeldBy(w, id, u)
    ensures KeptFor(g, w, w.(mem := w.mem[x := v]), u)
  {
    hide WorldOk;
    var w' := w.(mem := w.mem[x := v]);
    forall other | HeldBy(w, other, u)
      ensures HeldBy(w', other, u) && PayloadKept(g, w, w', other)
    {
      WriteKeepsOther(g, w, id, x, v, other);
    }
  }

  lemma WriteKeepsOthers(g: Geometry, w: World, id: BlockId, x: nat, v: byte, t: nat)
    requires g.Sound() && WorldOk(g, w) && HeldBy(w, id, t) && InPayload(g, SpaceOf(w), id, x)
    ensures OthersKept(g, w, w.(mem := w.mem[x := v]), t)
  {
    hide WorldOk, KeptFor, InPayload;
    var w' := w.(mem := w.mem[x := v]);
    forall u | u != t ensures KeptFor(g, w, w', u) { WriteKeepsFor(g, w, id, x, v, u); }
  }

  // A client write inside a block in client hands disturbs no thread.
  lemma WriteFine(g: Geometry, s: State, t: nat, id: BlockId, x: nat, v: byte)
    requires g.Sound() && Inv(g, s)
    ensures Fine(g, s, t, WriteStep(g, s, id, x, v))
  {
    hide WorldOk, KeptFor;
    if id in s.w.own && s.w.own[id] == Client && InPayload(g, SpaceOf(s.w), id, x) {
      WriteKeepsWorld(g, s.w, id, x, v);
      var s' := s.(w := s.w.(mem := s.w.mem[x := v]));
      forall u ensures KeptFor(g, s.w, s'.w, u) { WriteKeepsFor(g, s.w, id, x, v, u); }
      forall u | u in s'.threads
        ensures ThreadOk(g, s', u, s'.threads[u])
      {
        RelyOnOthers(g, s, s', u + 1, u);
      }
      assert forall m :: LockOf(s', m) == LockOf(s, m);
      assert LocksOk(s') && QuietStart(s') && UnlockedClassesOk(g, s');
    }
  }

  // ---- the copy ----

  lemma CopyFine(g: Geometry, s: State, t: nat, i: nat)
    requires g.Sound() && Inv(g, s) && t in s.threads && s.threads[t].pc == Copying(i)
    ensures Fine(g, s, t, CopyStep(g, s, t, i))
  {
    hide Inv, WorldOk, KeptFor, OthersKept;
    var th := s.threads[t];
    InvThread(g, s, t);
    if i >= th.oldSize {
      SameWorldKept(g, s.w, t);
      JumpFine(g, s, t, s.w, th.(pc := LockFree(th.oldClass)));
      assert s.(w := s.w) == s;
    } else {
      CopyByteFine(g, s, t, i);
    }
  }

  // One byte more of the copy is in place.
  lemma CopiedByte(g: Geometry, w: World, id: BlockId, bytes: seq<byte>, i: nat)
    requires PayloadIs(g, w, id, bytes, i) && i < |bytes|
    ensures PayloadIs(g, w.(mem := w.mem[Ptr(g, id) + i := bytes[i]]), id, bytes, i + 1)
  {
    hide SpaceOf, Capacity;
    SameStructures(w, Ptr(g, id) + i, bytes[i]);
  }

  // The thread after one more byte: what it holds is as before, and the copy one byte longer.
  lemma CopyByteOk(g: Geometry, s: State, t: nat, i: nat, w': World)
    requires g.Sound() && WorldOk(g, s.w) && t in s.threads && s.threads[t].pc == Copying(i)
    requires ThreadOk(g, s, t, s.threads[t]) && i < s.threads[t].oldSize
    requires w' == s.w.(mem := s.w.mem[Ptr(g, s.threads[t].target.value) + i := s.threads[t].job.before[i]])
    ensures ThreadOk(g, s.(w := w', threads := s.threads[t := s.threads[t].(pc := Copying(i + 1))]), t, s.threads[t].(pc := Copying(i + 1)))
  {
    hide WorldOk, Capacity, SpaceOf;
    var th := s.threads[t];
    var source, target := th.job.id, th.target.value;
    var dst := Ptr(g, target) + i;
    assert InPayload(g, SpaceOf(s.w), target, dst);
    SameStructures(s.w, dst, th.job.before[i]);
    WriteKeepsOther(g, s.w, target, dst, th.job.before[i], source);
    PayloadIsStays(g, s.w, w', source, th.job.before, |th.job.before|);
    CopiedByte(g, s.w, target, th.job.before, i);
  }

  lemma CopyByteFine(g: Geometry, s: State, t: nat, i: nat)
    requires g.Sound() && Inv(g, s) && t in s.threads && s.threads[t].pc == Copying(i)
    requires ThreadOk(g, s, t, s.threads[t]) && i < s.threads[t].oldSize
    ensures Fine(g, s, t, CopyStep(g, s, t, i))
  {
    hide Inv, WorldOk, OthersKept, Capacity, SpaceOf, Fine;
    InvThread(g, s, t);
    var th := s.threads[t];
    var src, dst := Ptr(g, th.job.id) + i, Ptr(g, th.target.value) + i;
    assert s.w.mem[src] == th.job.before[i];
    var v := s.w.mem[src];
    assert InPayload(g, SpaceOf(s.w), th.target.value, dst);
    WriteKeepsWorld(g, s.w, th.target.value, dst, v);
    var w' := s.w.(mem := s.w.mem[dst := v]);
    WriteKeepsOthers(g, s.w, th.target.value, dst, v, t);
    CopyByteOk(g, s, t, i, w');
    var th' := th.(pc := Copying(i + 1));
    JumpFine(g, s, t, w', th');
    assert CopyStep(g, s, t, i) == Next(s.(w := w', threads := s.threads[t := th']));
  }

  // ---- reads with no lock held ----

  // The word before a held block is mapped and is its meta word, whatever the other threads do.
  lemma MetaReadable(g: Geometry, s: State, id: BlockId)
    requires g.Sound() && WorldOk(g, s.w) && id in s.w.own
    ensures Mapped(s.w.mem, Ptr(g, id) - WORD, WORD) && LoadWord(s.w.mem, Ptr(g, id) - WORD) == MetaOf(id)
    ensures MetaUnderLock(g, s, id) == Some(MetaOf(id))
    ensures HeaderAt(s, MetaOf(id)) == Some(SpaceOf(s.w)[Base(id)])
    ensures Exists(g, SpaceOf(s.w), id)
    ensures StructClass(SpaceOf(s.w)[Base(id)]) == IdClass(id) && StructSize(SpaceOf(s.w)[Base(id)]) == Capacity(SpaceOf(s.w), id)
    ensures id.InZone? ==> MetaIsZone(MetaOf(id)) && MetaZone(MetaOf(id)) == id.zone && MetaBlockNum(MetaOf(id)) == id.index
    ensures id.Big? ==> !MetaIsZone(MetaOf(id)) && MetaOf(id) == id.base
  {
    hide WorldOk, SpaceOf, LoadWord;
    WorldSpace(g, s.w);
    OwnedExists(g, s.w, id);
    MetaInSpace(g, SpaceOf(s.w), s.w.mem, id);
  }

  lemma MetaInSpace(g: Geometry, sp: Space, mem: Mem, id: BlockId)
    requires g.Sound() && SpaceOk(g, sp, mem) && Exists(g, sp, id)
    ensures Mapped(mem, Ptr(g, id) - WORD, WORD) && LoadWord(mem, Ptr(g, id) - WORD) == MetaOf(id)
    ensures id.InZone? ==> MetaIsZone(MetaOf(id)) && MetaZone(MetaOf(id)) == id.zone && MetaBlockNum(MetaOf(id)) == id.index
    ensures id.Big? ==> !MetaIsZone(MetaOf(id)) && MetaOf(id) == id.base
  {
    hide LoadWord;
    DecodeFindsBlock(g, sp, mem, id);
    assert MetaStored(g, mem, id);
  }

  lemma ReadMetaFine(g: Geometry, s: State, t: nat)
    requires g.Sound() && Inv(g, s) && t in s.threads && s.threads[t].pc.ReadMeta?
    ensures Fine(g, s, t, ReadMetaStep(g, s, t))
  {
    hide Inv, WorldOk, OthersKept, PayloadIs;
    var th := s.threads[t];
    InvThread(g, s, t);
    MetaReadable(g, s, th.job.id);
    SameWorldKept(g, s.w, t);
    JumpFine(g, s, t, s.w, th.(pc := ReadHeader(MetaOf(th.job.id))));
    assert s.(w := s.w) == s;
  }

  lemma ReadHeaderFine(g: Geometry, s: State, t: nat, meta: nat)
    requires g.Sound() && Inv(g, s) && t in s.threads && s.threads[t].pc == ReadHeader(meta)
    ensures Fine(g, s, t, ReadHeaderStep(s, t, meta))
  {
    hide Inv, WorldOk, OthersKept, PayloadIs;
    var th := s.threads[t];
    InvThread(g, s, t);
    MetaReadable(g, s, th.job.id);
    SameWorldKept(g, s.w, t);
    assert s.(w := s.w) == s;
    var cap := Capacity(SpaceOf(s.w), th.job.id);
    match th.job
    case Free(_) => JumpFine(g, s, t, s.w, th.(pc := LockFree(IdClass(th.job.id))));
    case Realloc(id, size, _) =>
      if size <= cap {
        OwnerStepKept(g, s.w, id, t, Client);
        JumpFine(g, s, t, s.w.(own := s.w.own[id := Client]), IDLE);
      } else {
        JumpFine(g, s, t, s.w, th.(pc := LockAlloc, oldClass := IdClass(id), oldSize := cap));
      }
    case Malloc(_) =>
  }

  // ---- the free section ----

  lemma ResultReadyKept(g: Geometry, s: State, s': State, t: nat, th: Thread, th': Thread)
    requires ResultReady(g, s, t, th) && th'.job == th.job && th'.target == th.target
    requires th.target.Some? ==> HeldBy(s'.w, th.target.value, t) && PayloadKept(g, s.w, s'.w, th.target.value)
    ensures ResultReady(g, s', t, th')
  {
    if th.job.Realloc? { PayloadIsStays(g, s.w, s'.w, th.target.value, th.job.before, |th.job.before|); }
  }

  lemma ResultReadyHere(g: Geometry, s: State, s': State, t: nat, th: Thread, th': Thread)
    requires ResultReady(g, s, t, th) && s'.w == s.w && th'.job == th.job && th'.target == th.target
    ensures ResultReady(g, s', t, th') && !th.job.Malloc?
  {}

  lemma EnterFreeFine(g: Geometry, s: State, t: nat, c: SizeClass)
    requires g.Sound() && Inv(g, s) && t in s.threads && s.threads[t].pc == LockFree(c)
    ensures Fine(g, s, t, EnterFreeSection(s, t, c))
  {
    match c
    case Tiny => EnterZoneFreeFine(g, s, t, Tiny);
    case Small => EnterZoneFreeFine(g, s, t, Small);
    case Large => EnterLargeFreeFine(g, s, t);
  }

  lemma EnterZoneFreeFine(g: Geometry, s: State, t: nat, c: ZoneClass)
    requires g.Sound() && Inv(g, s) && t in s.threads && s.threads[t].pc == LockFree(c)
    ensures Fine(g, s, t, Acquire(s, t, ClassMutex(c), ZoneFree(c, PoolOf(s.w, c), SetBit)))
  {
    hide Inv, WorldOk, ResultReady, Z.Valid, Fine, SpaceOf;
    var th := s.threads[t];
    var pc := ZoneFree(c, PoolOf(s.w, c), SetBit);
    InvThread(g, s, t);
    InvClasses(g, s);
    ResultReadyHere(g, s, SetLock(s, ClassMutex(c), Some(t)), t, th, th.(pc := pc));
    HeldIsAllocated(g, s.w, th.job.id);
    AcquireFine(g, s, t, ClassMutex(c), pc);
  }

  lemma EnterLargeFreeFine(g: Geometry, s: State, t: nat)
    requires g.Sound() && Inv(g, s) && t in s.threads && s.threads[t].pc == LockFree(Large)
    ensures Fine(g, s, t, Acquire(s, t, ClassMutex(Large), LargeFree(s.w.large, Unlink)))
  {
    hide Inv, WorldOk, ResultReady, B.Valid, Fine, SpaceOf;
    var th := s.threads[t];
    var pc := LargeFree(s.w.large, Unlink);
    InvThread(g, s, t);
    InvClasses(g, s);
    ResultReadyHere(g, s, SetLock(s, ClassMutex(Large), Some(t)), t, th, th.(pc := pc));
    HeldIsAllocated(g, s.w, th.job.id);
    AcquireFine(g, s, t, ClassMutex(Large), pc);
  }

  lemma HeldIsAllocated(g: Geometry, w: World, id: BlockId)
    requires WorldOk(g, w) && id in w.own
    ensures id.InZone? ==> Z.Allocated(PoolOf(w, id.c), id.zone, id.index)
    ensures id.Big? ==> id.base in w.large.sizes && (B.Valid(w.large) ==> id.base in w.large.full)
  {
    OwnedExists(g, w, id);
  }

  // A step inside a free section: what is left in the hands of t, its realloc target, is kept.
  lemma FreeJumpFine(g: Geometry, s: State, t: nat, w': World, pc: Pc)
    requires g.Sound() && Inv(g, s) && t in s.threads && s.initialized
    requires Holds(pc) == Holds(s.threads[t].pc) && WorldOk(g, w') && OthersKept(g, s.w, w', t)
    requires ResultReady(g, s, t, s.threads[t]) && (pc.ZoneFree? || pc.LargeFree?)
    requires s.threads[t].target.Some? ==>
               HeldBy(w', s.threads[t].target.value, t) && PayloadKept(g, s.w, w', s.threads[t].target.value)
    requires pc.ZoneFree? ==> ZoneFreeOk(g, s.(w := w'), t, s.threads[t], pc.c, pc.pool, pc.zf)
    requires pc.LargeFree? ==> LargeFreeOk(g, s.(w := w'), t, s.threads[t], pc.store, pc.lf)
    requires Holds(s.threads[t].pc) != Some(ClassMutex(Tiny)) ==> w'.tiny == s.w.tiny
    requires Holds(s.threads[t].pc) != Some(ClassMutex(Small)) ==> w'.small == s.w.small
    requires Holds(s.threads[t].pc) != Some(ClassMutex(Large)) ==> w'.large == s.w.large
    ensures Fine(g, s, t, Jump(s.(w := w'), t, pc))
  {
    hide WorldOk, OthersKept, PayloadKept, ZoneFreeMid, LargeFreeMid, PayloadIs;
    var th := s.threads[t];
    var th' := th.(pc := pc);
    var s' := s.(w := w', threads := s.threads[t := th']);
    assert ResultReady(g, s', t, th') by { ResultReadyKept(g, s, s', t, th, th'); }
    JumpFine(g, s, t, w', th');
    assert s.(w := w').(threads := s.threads[t := th']) == s';
  }

  // The target of a realloc in its free section, kept by any calm step.
  lemma TargetCalm(g: Geometry, s: State, t: nat, w': World)
    requires g.Sound() && WorldOk(g, s.w) && WorldOk(g, w') && BytesKept(s.w.mem, w'.mem) && t in s.threads
    requires ResultReady(g, s, t, s.threads[t])
    requires s.threads[t].target.Some? ==> HeldBy(w', s.threads[t].target.value, t)
    requires forall b :: b in s.w.large.sizes && b in w'.large.sizes ==> w'.large.sizes[b] == s.w.large.sizes[b]
    ensures s.threads[t].target.Some? ==> HeldBy(s.w, s.threads[t].target.value, t) && PayloadKept(g, s.w, w', s.threads[t].target.value)
  {
    hide WorldOk;
    if s.threads[t].target.Some? { BytesKeptIsKept(g, s.w, w', s.threads[t].target.value); }
  }

  // ---- zones ----

  lemma SetBitFine(g: Geometry, s: State, t: nat, c: ZoneClass, snap: Z.Pool)
    requires g.Sound() && Inv(g, s) && t in s.threads && s.threads[t].pc == ZoneFree(c, snap, SetBit) && !s.threads[t].job.Malloc?
    ensures Fine(g, s, t, ZoneFreeStep(g, s, t, c, snap, SetBit))
  {
    hide Inv, WorldOk, OthersKept, PayloadKept, PayloadIs, SpaceOf, Capacity;
    var th := s.threads[t];
    InvThread(g, s, t);
    var id := th.job.id;
    var z, k, n := id.zone, id.index, g.Blocks(c);
    MetaReadable(g, s, id);
    GiveKeepsWorld(g, s.w, c, z, k);
    var w1 := Give(s.w, c, z, k);
    var p1 := PoolOf(w1, c);
    assert p1 == Z.GiveBit(snap, z, k) && |p1.zones[z].bits| == n;
    CalmIsKept(g, s.w, w1, t);
    TargetCalm(g, s, t, w1);
    var at1 :=
      if p1.zones[z].freeCount == |p1.zones[z].bits| then (if Z.Linked(p1, z) then LeaveEmpty(z) else FreeDone)
      else if p1.zones[z].freeCount == 1 then LeaveFull(z)
      else FreeDone;
    FreeJumpFine(g, s, t, w1, ZoneFree(c, snap, at1));
  }

  lemma ZoneFreeListFine(g: Geometry, s: State, t: nat, c: ZoneClass, snap: Z.Pool, at: ZoneFreeAt, p': Z.Pool, at': ZoneFreeAt)
    requires g.Sound() && Inv(g, s) && t in s.threads && s.threads[t].pc == ZoneFree(c, snap, at) && !s.threads[t].job.Malloc?
    requires p'.zones == PoolOf(s.w, c).zones && !at.SetBit? && !at'.SetBit?
    requires s.threads[t].job.id.InZone? ==> ZoneFreeMid(p', g.Blocks(c), snap, at', s.threads[t].job.id.zone, s.threads[t].job.id.index)
    ensures Fine(g, s, t, Jump(s.(w := SetPool(s.w, c, p')), t, ZoneFree(c, snap, at')))
  {
    hide Inv, WorldOk, OthersKept, PayloadKept, PayloadIs, ZoneFreeMid;
    var w' := SetPool(s.w, c, p');
    InvThread(g, s, t);
    ZoneListsKeepWorld(g, s.w, c, p');
    CalmIsKept(g, s.w, w', t);
    TargetCalm(g, s, t, w');
    FreeJumpFine(g, s, t, w', ZoneFree(c, snap, at'));
  }

  // A zone whose last block was just given back holds nobody's block.
  lemma EmptiedZoneIsNobodys(g: Geometry, w: World, c: ZoneClass, snap: Z.Pool, z: nat, k: nat)
    requires g.Sound() && WorldOk(g, w) && Z.Valid(snap, g.Blocks(c)) && Z.Allocated(snap, z, k)
    requires PoolOf(w, c).zones == Z.GiveBit(snap, z, k).zones && PoolOf(w, c).zones[z].freeCount == g.Blocks(c)
    ensures forall i :: InZone(c, z, i) !in w.own
  {
    Z.GiveKeepsZones(snap, g.Blocks(c), z, k);
    Z.CountExtremes(PoolOf(w, c).zones[z].bits);
    forall i ensures InZone(c, z, i) !in w.own { assert !Z.Allocated(PoolOf(w, c), z, i); }
  }

  // Unmapping one structure leaves the payloads in all others alone.
  lemma UnmapKept(g: Geometry, w: World, w': World, a: nat, id: BlockId)
    requires g.Sound() && SpaceOk(g, SpaceOf(w), w.mem) && a in SpaceOf(w) && SpaceOf(w') == SpaceOf(w) - {a}
    requires w'.mem == Unmap(w.mem, a, Length(g, SpaceOf(w)[a])) && Exists(g, SpaceOf(w), id) && Base(id) != a
    ensures PayloadKept(g, w, w', id)
  {
    hide SpaceOf, SpaceOk, Unmap;
    forall x | Ptr(g, id) <= x < Ptr(g, id) + Capacity(SpaceOf(w), id)
      ensures x in w.mem && x in w'.mem && w'.mem[x] == w.mem[x]
    {
      assert InPayload(g, SpaceOf(w), id, x);
      UnmapKeepsPayload(g, SpaceOf(w), w.mem, a, id, x);
    }
  }

  lemma ZoneInSpace(g: Geometry, w: World, c: ZoneClass, z: nat)
    requires WorldOk(g, w) && z in PoolOf(w, c).zones
    ensures z in SpaceOf(w) && SpaceOf(w)[z] == ZoneAt(c)
  {
    hide SpaceOf, SpaceOk;
    SpaceAt(w, z);
  }

  lemma DropZoneKeepsBlock(g: Geometry, w: World, c: ZoneClass, z: nat, id: BlockId)
    requires g.Sound() && WorldOk(g, w) && z in PoolOf(w, c).zones && id in w.own
    requires forall k :: InZone(c, z, k) !in w.own
    ensures PayloadKept(g, w, DropZone(g, w, c, z), id)
  {
    hide WorldOk, SpaceOf, PayloadKept, Unmap;
    OwnedExists(g, w, id);
    ZoneInSpace(g, w, c, z);
    WorldSpace(g, w);
    DropZoneKeepsWorld(g, w, c, z);
    assert Base(id) != z;
    UnmapKept(g, w, DropZone(g, w, c, z), z, id);
  }

  // A step that gives up at most one block of t and keeps every other payload disturbs no one.
  lemma StillOwnedKept(g: Geometry, w: World, w': World, t: nat, given: Option<BlockId>)
    requires w'.own == if given.Some? then w.own - {given.value} else w.own
    requires given.Some? ==> HeldBy(w, given.value, t)
    requires forall id :: id in w.own && Some(id) != given ==> PayloadKept(g, w, w', id)
    ensures OthersKept(g, w, w', t)
  {
    hide PayloadKept;
  }

  lemma UnmapEmptyFine(g: Geometry, s: State, t: nat, c: ZoneClass, snap: Z.Pool, z: nat)
    requires g.Sound() && Inv(g, s) && t in s.threads && s.threads[t].pc == ZoneFree(c, snap, UnmapEmpty(z)) && !s.threads[t].job.Malloc?
    ensures Fine(g, s, t, Jump(s.(w := DropZone(g, s.w, c, z)), t, ZoneFree(c, snap, FreeDone)))
  {
    hide Inv, WorldOk, PayloadKept, PayloadIs, Z.Valid, OthersKept, Unmap;
    var th := s.threads[t];
    InvThread(g, s, t);
    EmptiedZoneIsNobodys(g, s.w, c, snap, z, th.job.id.index);
    DropZoneKeepsWorld(g, s.w, c, z);
    var w' := DropZone(g, s.w, c, z);
    forall id | id in s.w.own ensures PayloadKept(g, s.w, w', id) { DropZoneKeepsBlock(g, s.w, c, z, id); }
    StillOwnedKept(g, s.w, w', t, None);
    FreeJumpFine(g, s, t, w', ZoneFree(c, snap, FreeDone));
  }

  // The unlock at the end of a free section; realloc hands its new block to the client.
  lemma LeaveFreeFine(g: Geometry, s: State, t: nat, m: Mutex)
    requires g.Sound() && Inv(g, s) && t in s.threads && Holds(s.threads[t].pc) == Some(m) && m.ClassMutex?
    requires s.initialized && ResultReady(g, s, t, s.threads[t])
    requires match m.c case Tiny => PoolOk(g, s.w, Tiny) case Small => PoolOk(g, s.w, Small) case Large => B.Valid(s.w.large)
    ensures Fine(g, s, t, LeaveFreeSection(s, t, m))
  {
    hide WorldOk, OthersKept, Z.Valid, B.Valid, PayloadIs;
    var th := s.threads[t];
    if th.target.Some? {
      var id := th.target.value;
      OwnerStepKept(g, s.w, id, t, Client);
      ReleaseFine(g, s, t, m, s.w.(own := s.w.own[id := Client]), IDLE);
    } else {
      SameWorldKept(g, s.w, t);
      ReleaseFine(g, s, t, m, s.w, IDLE);
      assert s.(w := s.w) == s;
    }
  }

  lemma ZoneFreeFine(g: Geometry, s: State, t: nat, c: ZoneClass, snap: Z.Pool, at: ZoneFreeAt)
    requires g.Sound() && Inv(g, s) && t in s.threads && s.threads[t].pc == ZoneFree(c, snap, at)
    ensures !s.threads[t].job.Malloc?
    ensures Fine(g, s, t, ZoneFreeStep(g, s, t, c, snap, at))
  {
    hide Inv, WorldOk, Z.Valid, PayloadIs;
    var th := s.threads[t];
    InvThread(g, s, t);
    var p := PoolOf(s.w, c);
    match at
    case SetBit => SetBitFine(g, s, t, c, snap);
    case LeaveEmpty(z) => ZoneFreeListFine(g, s, t, c, snap, at, Z.DetachFree(p, z), UnmapEmpty(z));
    case UnmapEmpty(z) => UnmapEmptyFine(g, s, t, c, snap, z);
    case LeaveFull(z) => ZoneFreeListFine(g, s, t, c, snap, at, Z.DetachFull(p, z), Return(z));
    case Return(z) => ZoneFreeListFine(g, s, t, c, snap, at, Z.AppendFree(p, z), FreeDone);
    case FreeDone =>
      Z.FreeKeepsValid(snap, g.Blocks(c), th.job.id.zone, th.job.id.index);
      LeaveFreeFine(g, s, t, ClassMutex(c));
  }

  // ---- large blocks ----

  lemma UnlinkFine(g: Geometry, s: State, t: nat, snap: B.Store)
    requires g.Sound() && Inv(g, s) && t in s.threads && s.threads[t].pc == LargeFree(snap, Unlink) && !s.threads[t].job.Malloc?
    ensures Fine(g, s, t, LargeFreeStep(g, s, t, snap, Unlink))
  {
    hide Inv, WorldOk, OthersKept, PayloadKept, PayloadIs, B.Valid;
    var th := s.threads[t];
    InvThread(g, s, t);
    var b := th.job.id.base;
    MetaReadable(g, s, th.job.id);
    var w' := s.w.(large := B.DetachFull(s.w.large, b));
    BlockListsKeepWorld(g, s.w, w'.large);
    CalmIsKept(g, s.w, w', t);
    TargetCalm(g, s, t, w');
    var at1 := if s.w.large.sizes[b] > CACHE_LIMIT then UnmapLarge(b) else Keep(b);
    FreeJumpFine(g, s, t, w', LargeFree(snap, at1));
  }

  lemma DropBlockKeepsOther(g: Geometry, w: World, b: nat, id: BlockId)
    requires g.Sound() && WorldOk(g, w) && Big(b) in w.own && b in w.large.sizes && id in w.own && id != Big(b)
    ensures PayloadKept(g, w, DropBlock(w, b), id)
  {
    hide WorldOk, SpaceOf, PayloadKept, Unmap;
    OwnedExists(g, w, id);
    OwnedExists(g, w, Big(b));
    WorldSpace(g, w);
    DropBlockKeepsWorld(g, w, b);
    assert Base(id) != b;
    UnmapKept(g, w, DropBlock(w, b), b, id);
  }

  lemma UnmapLargeFine(g: Geometry, s: State, t: nat, snap: B.Store, b: nat)
    requires g.Sound() && Inv(g, s) && t in s.threads && s.threads[t].pc == LargeFree(snap, UnmapLarge(b)) && !s.threads[t].job.Malloc?
    ensures Fine(g, s, t, LargeFreeStep(g, s, t, snap, UnmapLarge(b)))
  {
    hide Inv, WorldOk, PayloadKept, PayloadIs, B.Valid, OthersKept, Unmap;
    var th := s.threads[t];
    InvThread(g, s, t);
    DropBlockKeepsWorld(g, s.w, b);
    var w' := DropBlock(s.w, b);
    forall id | id in s.w.own && id != Big(b) ensures PayloadKept(g, s.w, w', id) { DropBlockKeepsOther(g, s.w, b, id); }
    StillOwnedKept(g, s.w, w', t, Some(Big(b)));
    FreeJumpFine(g, s, t, w', LargeFree(snap, LargeFreeDone));
  }

  lemma KeepFine(g: Geometry, s: State, t: nat, snap: B.Store, b: nat)
    requires g.Sound() && Inv(g, s) && t in s.threads && s.threads[t].pc == LargeFree(snap, Keep(b)) && !s.threads[t].job.Malloc?
    ensures Fine(g, s, t, LargeFreeStep(g, s, t, snap, Keep(b)))
  {
    hide Inv, WorldOk, OthersKept, PayloadKept, PayloadIs, B.Valid;
    var th := s.threads[t];
    InvThread(g, s, t);
    CacheKeepsWorld(g, s.w, b);
    var w' := Cache(s.w, b);
    CalmIsKept(g, s.w, w', t);
    TargetCalm(g, s, t, w');
    FreeJumpFine(g, s, t, w', LargeFree(snap, LargeFreeDone));
  }

  lemma LargeFreeFine(g: Geometry, s: State, t: nat, snap: B.Store, at: LargeFreeAt)
    requires g.Sound() && Inv(g, s) && t in s.threads && s.threads[t].pc == LargeFree(snap, at)
    ensures !s.threads[t].job.Malloc?
    ensures Fine(g, s, t, LargeFreeStep(g, s, t, snap, at))
  {
    hide Inv, WorldOk, PayloadIs, B.Valid;
    var th := s.threads[t];
    InvThread(g, s, t);
    match at
    case Unlink => UnlinkFine(g, s, t, snap);
    case UnmapLarge(b) => UnmapLargeFine(g, s, t, snap, b);
    case Keep(b) => KeepFine(g, s, t, snap, b);
    case LargeFreeDone =>
      B.FreeKeepsValid(snap, th.job.id.base);
      LeaveFreeFine(g, s, t, ClassMutex(Large));
  }
}
