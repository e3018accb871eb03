/** The steps of the allocation section, for zone blocks and for large blocks. */
module ThreadAlloc {
  import opened Sequences
  import opened Memory
  import opened Layout
  import opened Spaces
  import opened Worlds
  import opened Sections
  import opened Threads
  import opened ThreadInvariant
  import opened ThreadSteps
  import Z = Zones
  import B = Blocks

  lemma AllocReadyStays(g: Geometry, s: State, s': State, u: nat, th: Thread, th': Thread)
    requires AllocReady(g, s, u, th) && s'.initialized == s.initialized
    requires th'.job == th.job && th'.oldClass == th.oldClass && th'.oldSize == th.oldSize
    requires th.job.Realloc? ==> HeldBy(s'.w, th.job.id, u) && PayloadKept(g, s.w, s'.w, th.job.id)
    ensures AllocReady(g, s', u, th')
  {
    if th.job.Realloc? { PayloadIsStays(g, s.w, s'.w, th.job.id, th.job.before, |th.job.before|); }
  }

  lemma EnterAllocFine(g: Geometry, s: State, t: nat)
    requires g.Sound() && Inv(g, s) && t in s.threads && s.threads[t].pc.LockAlloc?
    ensures Fine(g, s, t, EnterAlloc(s, t))
  {
    hide Inv, WorldOk, PayloadIs;
    InvThread(g, s, t);
    InvClasses(g, s);
    match ClassOf(s.threads[t].job.size)
    case Tiny => AcquireFine(g, s, t, ClassMutex(Tiny), ZoneAlloc(Tiny, s.w.tiny, PickBit));
    case Small => AcquireFine(g, s, t, ClassMutex(Small), ZoneAlloc(Small, s.w.small, PickBit));
    case Large => AcquireFine(g, s, t, ClassMutex(Large), LargeAlloc(s.w.large, FindFit));
  }

  // A step inside the section that keeps whatever t holds and changes only the class of the section.
  lemma AllocJumpFine(g: Geometry, s: State, t: nat, w': World, th': Thread)
    requires g.Sound() && Inv(g, s) && t in s.threads && Holds(th'.pc) == Holds(s.threads[t].pc)
    requires WorldOk(g, w') && BytesKept(s.w.mem, w'.mem)
    requires forall id, u :: HeldBy(s.w, id, u) ==> HeldBy(w', id, u)
    requires forall b :: b in s.w.large.sizes && b in w'.large.sizes ==> w'.large.sizes[b] == s.w.large.sizes[b]
    requires Holds(s.threads[t].pc) != Some(ClassMutex(Tiny)) ==> w'.tiny == s.w.tiny
    requires Holds(s.threads[t].pc) != Some(ClassMutex(Small)) ==> w'.small == s.w.small
    requires Holds(s.threads[t].pc) != Some(ClassMutex(Large)) ==> w'.large == s.w.large
    requires s.initialized
    requires KeptFor(g, s.w, w', t) ==> ThreadOk(g, s.(w := w', threads := s.threads[t := th']), t, th')
    ensures Fine(g, s, t, Next(s.(w := w', threads := s.threads[t := th'])))
  {
    hide WorldOk, ThreadOk, OthersKept, KeptFor;
    CalmKeepsFor(g, s.w, w', t);
    CalmIsKept(g, s.w, w', t);
    JumpFine(g, s, t, w', th');
  }

  // ---- zone blocks ----

  // What the thread needs after a step of its own section that keeps what it holds.
  lemma ZoneAllocCarries(g: Geometry, s: State, t: nat, w': World, c: ZoneClass, snap: Z.Pool, at: ZoneAllocAt, at': ZoneAllocAt)
    requires t in s.threads && s.threads[t].pc == ZoneAlloc(c, snap, at) && ThreadOk(g, s, t, s.threads[t])
    requires KeptFor(g, s.w, w', t)
    requires ZoneAllocMid(PoolOf(w', c), g.Blocks(c), c, snap, at', s.threads[t].job.size)
    requires PickedZone(c, at').Some? && PickedZone(c, at') != PickedZone(c, at) ==>
               var s' := s.(w := w'); NewHeld(g, s', t, s.threads[t].job, PickedZone(c, at').value)
    ensures var th' := s.threads[t].(pc := ZoneAlloc(c, snap, at'));
            ThreadOk(g, s.(w := w', threads := s.threads[t := th']), t, th')
  {
    hide PayloadKept, ZoneAllocMid, OldHeld, NewHeld;
    var th := s.threads[t];
    var th' := th.(pc := ZoneAlloc(c, snap, at'));
    var s' := s.(w := w', threads := s.threads[t := th']);
    OldHeldStays(g, s, s', t, th.job);
    if PickedZone(c, at').Some? {
      if PickedZone(c, at') == PickedZone(c, at) {
        NewHeldStays(g, s, s', t, th.job, PickedZone(c, at).value);
      } else {
        NewHeldHere(g, s.(w := w'), s', t, th.job, PickedZone(c, at').value);
      }
    }
  }

  lemma NewHeldHere(g: Geometry, s: State, s': State, t: nat, job: Job, id: BlockId)
    requires !job.Free? && NewHeld(g, s, t, job, id) && s'.w == s.w
    ensures NewHeld(g, s', t, job, id)
  {}

  lemma AllocDoneWitness(snap: Z.Pool, n: nat, size: nat, c: ZoneClass, a: Option<nat>)
    requires Z.Valid(snap, n) && FreshFor(snap, a)
    ensures var (p, taken) := Z.Alloc(snap, n, size, a); ZoneAllocMid(p, n, c, snap, AllocDone(ResultOf(c, taken)), size)
  {}

  // The allocation of the snapshot, case by case.
  lemma AllocCases(p: Z.Pool, n: nat, size: nat, a: Option<nat>)
    requires Z.Valid(p, n)
    ensures p.free == [] ==> Z.Alloc(p, n, size, a) == (p, Z.NoBlock)
    ensures p.free != [] ==>
              && p.free[0] in p.zones && Z.FirstFree(p.zones[p.free[0]].bits) == Some(HeadIndex(p, n))
              && HeadIndex(p, n) < |p.zones[p.free[0]].requested|
              && p.zones[p.free[0]].freeCount >= 1
              && var z, k := p.free[0], HeadIndex(p, n);
                 var p1 := Z.TakeBit(p, z, k, size);
                 Z.Alloc(p, n, size, a) ==
                   if p.zones[z].freeCount != 1 then (p1, Z.Block(z, k))
                   else if a.None? then (Z.AppendFull(Z.DetachFree(p1, z), z), Z.Leaked(z, k))
                   else (Z.AppendFree(Z.MapZone(Z.AppendFull(Z.DetachFree(p1, z), z), a.value, n), a.value), Z.Block(z, k))
  {
    if p.free != [] { Z.CountExtremes(p.zones[p.free[0]].bits); }
  }

  lemma PickBitFine(g: Geometry, s: State, t: nat, c: ZoneClass, snap: Z.Pool, ch: Choice)
    requires g.Sound() && Inv(g, s) && t in s.threads && s.threads[t].pc == ZoneAlloc(c, snap, PickBit)
    requires !s.threads[t].job.Free?
    ensures Fine(g, s, t, ZoneAllocStep(g, s, t, c, snap, PickBit, ch))
  {
    hide Inv, WorldOk, Z.Valid, KeptFor, NewHeld, Z.Alloc, OldHeld;
    InvThread(g, s, t);
    var p, n, size := PoolOf(s.w, c), g.Blocks(c), s.threads[t].job.size;
    AllocCases(p, n, size, None);
    AllocDoneWitness(snap, n, size, c, None);
    if p.free == [] {
      if KeptFor(g, s.w, s.w, t) { ZoneAllocCarries(g, s, t, s.w, c, snap, PickBit, AllocDone(None)); }
      AllocJumpFine(g, s, t, s.w, s.threads[t].(pc := ZoneAlloc(c, snap, AllocDone(None))));
    } else {
      PickBitTakes(g, s, t, c, snap);
    }
  }

  lemma PickBitTakes(g: Geometry, s: State, t: nat, c: ZoneClass, snap: Z.Pool)
    requires g.Sound() && Inv(g, s) && t in s.threads && s.threads[t].pc == ZoneAlloc(c, snap, PickBit)
    requires !s.threads[t].job.Free? && PoolOk(g, s.w, c) && PoolOf(s.w, c) == snap && snap.free != []
    ensures snap.free[0] in snap.zones && HeadIndex(snap, g.Blocks(c)) < |snap.zones[snap.free[0]].requested|
    ensures var z, k := snap.free[0], HeadIndex(snap, g.Blocks(c));
            var w1 := Take(s.w, c, z, k, s.threads[t].job.size, Held(t));
            var at1 := if PoolOf(w1, c).zones[z].freeCount == 0 then LeaveFree(z, k) else AllocDone(Some(InZone(c, z, k)));
            Fine(g, s, t, Jump(s.(w := w1), t, ZoneAlloc(c, snap, at1)))
  {
    hide Inv, WorldOk, Z.Valid, KeptFor, NewHeld, Z.Alloc, OldHeld, Fine, SpaceOf, Capacity, Exists;
    InvThread(g, s, t);
    var n, size := g.Blocks(c), s.threads[t].job.size;
    AllocCases(snap, n, size, None);
    AllocDoneWitness(snap, n, size, c, None);
    var z, k := snap.free[0], HeadIndex(snap, n);
    TakeOk(g, s.w, c, size, Held(t));
    var w1 := Take(s.w, c, z, k, size, Held(t));
    var at1 := if PoolOf(w1, c).zones[z].freeCount == 0 then LeaveFree(z, k) else AllocDone(Some(InZone(c, z, k)));
    var th' := s.threads[t].(pc := ZoneAlloc(c, snap, at1));
    NewZoneBlockHeld(g, s.(w := w1), t, s.threads[t].job, c, z, k);
    OldIsHeld(g, s, t, s.threads[t].job);
    if KeptFor(g, s.w, w1, t) { ZoneAllocCarries(g, s, t, w1, c, snap, PickBit, at1); }
    AllocJumpFine(g, s, t, w1, th');
    assert s.(w := w1).(threads := s.threads[t := th']) == s.(w := w1, threads := s.threads[t := th']);
  }

  lemma OldIsHeld(g: Geometry, s: State, t: nat, job: Job)
    requires OldHeld(g, s, t, job)
    ensures !job.Malloc? ==> HeldBy(s.w, job.id, t)
  {}

  lemma NewZoneBlockHeld(g: Geometry, s: State, t: nat, job: Job, c: ZoneClass, z: nat, k: nat)
    requires WorldOk(g, s.w) && HeldBy(s.w, InZone(c, z, k), t) && !job.Free? && c == ClassOf(job.size)
    ensures (job.Realloc? ==> job.id != InZone(c, z, k)) ==> NewHeld(g, s, t, job, InZone(c, z, k))
  {
    OwnedExists(g, s.w, InZone(c, z, k));
  }

  // The two list moves of a filled zone, and the joining of its replacement.
  lemma ZoneListStepFine(g: Geometry, s: State, t: nat, c: ZoneClass, snap: Z.Pool, at: ZoneAllocAt, p': Z.Pool, at': ZoneAllocAt)
    requires g.Sound() && Inv(g, s) && t in s.threads && s.threads[t].pc == ZoneAlloc(c, snap, at) && !s.threads[t].job.Free?
    requires p'.zones == PoolOf(s.w, c).zones && PickedZone(c, at') == PickedZone(c, at)
    requires ZoneAllocMid(p', g.Blocks(c), c, snap, at', s.threads[t].job.size)
    ensures Fine(g, s, t, Jump(s.(w := SetPool(s.w, c, p')), t, ZoneAlloc(c, snap, at')))
  {
    hide Inv, WorldOk, KeptFor, NewHeld, OldHeld, ZoneAllocMid;
    InvThread(g, s, t);
    var w' := SetPool(s.w, c, p');
    var th' := s.threads[t].(pc := ZoneAlloc(c, snap, at'));
    ZoneListsKeepWorld(g, s.w, c, p');
    if KeptFor(g, s.w, w', t) { ZoneAllocCarries(g, s, t, w', c, snap, at, at'); }
    AllocJumpFine(g, s, t, w', th');
    assert s.(w := w').(threads := s.threads[t := th']) == s.(w := w', threads := s.threads[t := th']);
  }

  lemma RefillFine(g: Geometry, s: State, t: nat, c: ZoneClass, snap: Z.Pool, z: nat, k: nat, ch: Choice)
    requires g.Sound() && Inv(g, s) && t in s.threads && s.threads[t].pc == ZoneAlloc(c, snap, Refill(z, k)) && !s.threads[t].job.Free?
    ensures Fine(g, s, t, ZoneAllocStep(g, s, t, c, snap, Refill(z, k), ch))
  {
    hide Inv, Fine, AddZone, Take, Z.FirstFree, Answer;
    BlockedIsFine(g, s, t);
    if ch.Mmap? && Answer(s.w.mem, ch.r, g.Length(c)) {
      if ch.r.None? {
        RefillRefusedFine(g, s, t, c, snap, z, k);
      } else {
        AnswerIsFresh(s.w.mem, ch.r, g.Length(c));
        RefillGrantedFine(g, s, t, c, snap, z, k, ch.r.value);
      }
    }
  }

  lemma AnswerIsFresh(mem: Mem, r: Option<nat>, len: nat)
    requires Answer(mem, r, len) && r.Some?
    ensures Fresh(mem, r.value, len)
  {}

  // The refusal loses the block that was picked; the caller gets NULL.
  lemma RefillRefusedFine(g: Geometry, s: State, t: nat, c: ZoneClass, snap: Z.Pool, z: nat, k: nat)
    requires g.Sound() && Inv(g, s) && t in s.threads && s.threads[t].pc == ZoneAlloc(c, snap, Refill(z, k)) && !s.threads[t].job.Free?
    ensures Fine(g, s, t, Jump(SetOwner(s, InZone(c, z, k), Lost), t, ZoneAlloc(c, snap, AllocDone(None))))
  {
    hide Inv, WorldOk, OthersKept, Z.Alloc, Fine, PayloadIs, PayloadKept, SpaceOf, Capacity;
    var th := s.threads[t];
    InvThread(g, s, t);
    var id := InZone(c, z, k);
    var w' := s.w.(own := s.w.own[id := Lost]);
    var th' := th.(pc := ZoneAlloc(c, snap, AllocDone(None)));
    var s' := s.(w := w', threads := s.threads[t := th']);
    OwnerStepKept(g, s.w, id, t, Lost);
    AllocCases(snap, g.Blocks(c), th.job.size, None);
    AllocDoneWitness(snap, g.Blocks(c), th.job.size, c, None);
    if th.job.Realloc? {
      assert BytesKept(s.w.mem, w'.mem);
      BytesKeptIsKept(g, s.w, w', th.job.id);
    }
    AllocReadyStays(g, s, s', t, th, th');
    JumpFine(g, s, t, w', th');
    assert Jump(SetOwner(s, id, Lost), t, ZoneAlloc(c, snap, AllocDone(None))) == Next(s');
  }

  // The place in the section after a granted refill.
  lemma RefillMid(g: Geometry, s: State, t: nat, c: ZoneClass, snap: Z.Pool, z: nat, k: nat, a: nat)
    requires g.Sound() && Inv(g, s) && t in s.threads && s.threads[t].pc == ZoneAlloc(c, snap, Refill(z, k)) && !s.threads[t].job.Free?
    requires Fresh(s.w.mem, a, g.Length(c))
    ensures ZoneAllocMid(PoolOf(AddZone(g, s.w, c, a), c), g.Blocks(c), c, snap, EnterFree(z, k, a), s.threads[t].job.size)
  {
    hide Inv, WorldOk, ZoneMemory, OldHeld, NewHeld, Z.Valid, SpaceOf;
    InvThread(g, s, t);
    AddZoneKeepsWorld(g, s.w, c, a);
    SpaceAt(s.w, a);
    assert PoolOf(s.w, c).zones.Keys == snap.zones.Keys;
  }

  lemma RefillGrantedFine(g: Geometry, s: State, t: nat, c: ZoneClass, snap: Z.Pool, z: nat, k: nat, a: nat)
    requires g.Sound() && Inv(g, s) && t in s.threads && s.threads[t].pc == ZoneAlloc(c, snap, Refill(z, k)) && !s.threads[t].job.Free?
    requires Fresh(s.w.mem, a, g.Length(c))
    ensures Fine(g, s, t, Jump(s.(w := AddZone(g, s.w, c, a)), t, ZoneAlloc(c, snap, EnterFree(z, k, a))))
  {
    hide Inv, WorldOk, KeptFor, NewHeld, OldHeld, Z.Valid, PayloadIs, ZoneMemory, Capacity, SpaceOf, Fine, ZoneAllocMid;
    RefillMid(g, s, t, c, snap, z, k, a);
    var th := s.threads[t];
    InvThread(g, s, t);
    AddZoneKeepsWorld(g, s.w, c, a);
    var w' := AddZone(g, s.w, c, a);
    var th' := th.(pc := ZoneAlloc(c, snap, EnterFree(z, k, a)));
    assert forall x :: x in s.w.mem ==> !(a <= x < a + g.Length(c));
    if KeptFor(g, s.w, w', t) { ZoneAllocCarries(g, s, t, w', c, snap, Refill(z, k), EnterFree(z, k, a)); }
    AllocJumpFine(g, s, t, w', th');
    assert s.(w := w').(threads := s.threads[t := th']) == s.(w := w', threads := s.threads[t := th']);
  }

  // The unlock at the end of an allocation section.
  lemma LeaveAllocFine(g: Geometry, s: State, t: nat, m: Mutex, r: Option<BlockId>)
    requires g.Sound() && Inv(g, s) && t in s.threads && Holds(s.threads[t].pc) == Some(m) && m.ClassMutex?
    requires AllocReady(g, s, t, s.threads[t])
    requires r.Some? ==> NewHeld(g, s, t, s.threads[t].job, r.value)
    requires match m.c case Tiny => PoolOk(g, s.w, Tiny) case Small => PoolOk(g, s.w, Small) case Large => B.Valid(s.w.large)
    ensures Fine(g, s, t, LeaveAlloc(s, t, m, r))
  {
    hide Inv, WorldOk, OthersKept, Z.Valid, B.Valid, SpaceOf, Capacity, Exists;
    InvThread(g, s, t);
    var th := s.threads[t];
    SameWorldKept(g, s.w, t);
    match th.job
    case Malloc(_) =>
      if r.Some? {
        OwnerStepKept(g, s.w, r.value, t, Client);
        ReleaseFine(g, s, t, m, s.w.(own := s.w.own[r.value := Client]), IDLE);
      } else {
        ReleaseFine(g, s, t, m, s.w, IDLE);
        assert s.(w := s.w) == s;
      }
    case Realloc(id, _, _) =>
      if r.Some? {
        ReleaseFine(g, s, t, m, s.w, th.(pc := Copying(0), target := r));
        assert s.(w := s.w) == s;
      } else {
        OwnerStepKept(g, s.w, id, t, Client);
        ReleaseFine(g, s, t, m, s.w.(own := s.w.own[id := Client]), IDLE);
      }
  }

  lemma AllocDoneFine(g: Geometry, s: State, t: nat, c: ZoneClass, snap: Z.Pool, r: Option<BlockId>)
    requires g.Sound() && Inv(g, s) && t in s.threads && s.threads[t].pc == ZoneAlloc(c, snap, AllocDone(r)) && !s.threads[t].job.Free?
    ensures Fine(g, s, t, LeaveAlloc(s, t, ClassMutex(c), r))
  {
    hide Inv, WorldOk, NewHeld, AllocReady, Z.Valid, Z.Alloc;
    var n, size := g.Blocks(c), s.threads[t].job.size;
    InvThread(g, s, t);
    var a: Option<nat> :|
      && FreshFor(snap, a) && Z.Alloc(snap, n, size, a).0 == PoolOf(s.w, c)
      && ResultOf(c, Z.Alloc(snap, n, size, a).1) == r;
    Z.AllocKeepsValid(snap, n, size, a);
    LeaveAllocFine(g, s, t, ClassMutex(c), r);
  }

  lemma ZoneAllocFine(g: Geometry, s: State, t: nat, c: ZoneClass, snap: Z.Pool, at: ZoneAllocAt, ch: Choice)
    requires g.Sound() && Inv(g, s) && t in s.threads && s.threads[t].pc == ZoneAlloc(c, snap, at)
    ensures !s.threads[t].job.Free?
    ensures Fine(g, s, t, ZoneAllocStep(g, s, t, c, snap, at, ch))
  {
    hide Inv, WorldOk, NewHeld, OldHeld, Z.Valid, Z.Alloc;
    InvThread(g, s, t);
    var p, n, size := PoolOf(s.w, c), g.Blocks(c), s.threads[t].job.size;
    match at
    case PickBit => PickBitFine(g, s, t, c, snap, ch);
    case LeaveFree(z, k) => ZoneListStepFine(g, s, t, c, snap, at, Z.DetachFree(p, z), EnterFull(z, k));
    case EnterFull(z, k) => ZoneListStepFine(g, s, t, c, snap, at, Z.AppendFull(p, z), Refill(z, k));
    case Refill(z, k) => RefillFine(g, s, t, c, snap, z, k, ch);
    case EnterFree(z, k, a) =>
      AllocCases(snap, n, size, Some(a));
      AllocDoneWitness(snap, n, size, c, Some(a));
      ZoneListStepFine(g, s, t, c, snap, at, Z.AppendFree(p, a), AllocDone(Some(InZone(c, z, k))));
    case AllocDone(r) => AllocDoneFine(g, s, t, c, snap, r);
  }

  // ---- large blocks ----

  lemma LargeAllocCarries(g: Geometry, s: State, t: nat, w': World, snap: B.Store, at: LargeAllocAt, at': LargeAllocAt)
    requires t in s.threads && s.threads[t].pc == LargeAlloc(snap, at) && ThreadOk(g, s, t, s.threads[t])
    requires KeptFor(g, s.w, w', t)
    requires LargeAllocMid(w'.large, snap, at', s.threads[t].job.size)
    requires PickedLarge(at').Some? && PickedLarge(at') != PickedLarge(at) ==>
               NewHeld(g, s.(w := w'), t, s.threads[t].job, PickedLarge(at').value)
    ensures var th' := s.threads[t].(pc := LargeAlloc(snap, at'));
            ThreadOk(g, s.(w := w', threads := s.threads[t := th']), t, th')
  {
    hide PayloadKept, LargeAllocMid, OldHeld, NewHeld;
    var th := s.threads[t];
    var th' := th.(pc := LargeAlloc(snap, at'));
    var s' := s.(w := w', threads := s.threads[t := th']);
    OldHeldStays(g, s, s', t, th.job);
    if PickedLarge(at').Some? {
      if PickedLarge(at') == PickedLarge(at) {
        NewHeldStays(g, s, s', t, th.job, PickedLarge(at).value);
      } else {
        NewHeldHere(g, s.(w := w'), s', t, th.job, PickedLarge(at').value);
      }
    }
  }

  lemma LargeWitness(snap: B.Store, size: nat, st: B.Store, r: Option<nat>, a: Option<nat>)
    requires B.Valid(snap) && FreshBlockFor(snap, a) && B.Alloc(snap, size, a) == (st, r)
    ensures LargeAllocatedFrom(snap, size, st, r)
  {}

  lemma NewLargeBlockHeld(g: Geometry, s: State, t: nat, job: Job, b: nat)
    requires WorldOk(g, s.w) && HeldBy(s.w, Big(b), t) && !job.Free? && b in s.w.large.sizes && s.w.large.sizes[b] >= job.size
    ensures (job.Realloc? ==> job.id != Big(b)) ==> NewHeld(g, s, t, job, Big(b))
  {
    OwnedExists(g, s.w, Big(b));
  }

  // The search has ended with block b in the hands of t.
  lemma FoundFine(g: Geometry, s: State, t: nat, snap: B.Store, w': World, b: nat)
    requires g.Sound() && Inv(g, s) && t in s.threads && s.threads[t].pc == LargeAlloc(snap, FindFit) && !s.threads[t].job.Free?
    requires WorldOk(g, w') && BytesKept(s.w.mem, w'.mem) && w'.tiny == s.w.tiny && w'.small == s.w.small
    requires Big(b) !in s.w.own && w'.own == s.w.own[Big(b) := Held(t)]
    requires forall y :: y in s.w.large.sizes && y in w'.large.sizes ==> w'.large.sizes[y] == s.w.large.sizes[y]
    requires LargeAllocMid(w'.large, snap, EnterUsed(b), s.threads[t].job.size)
    requires b in w'.large.sizes && w'.large.sizes[b] >= s.threads[t].job.size
    ensures Fine(g, s, t, Jump(s.(w := w'), t, LargeAlloc(snap, EnterUsed(b))))
  {
    hide Inv, WorldOk, KeptFor, NewHeld, LargeAllocMid, PayloadIs, Capacity;
    var th := s.threads[t];
    var th' := th.(pc := LargeAlloc(snap, EnterUsed(b)));
    InvThread(g, s, t);
    NewLargeBlockHeld(g, s.(w := w'), t, th.job, b);
    OldIsHeld(g, s, t, th.job);
    if KeptFor(g, s.w, w', t) { LargeAllocCarries(g, s, t, w', snap, FindFit, EnterUsed(b)); }
    AllocJumpFine(g, s, t, w', th');
    assert s.(w := w').(threads := s.threads[t := th']) == s.(w := w', threads := s.threads[t := th']);
  }

  lemma ReuseFine(g: Geometry, s: State, t: nat, snap: B.Store, b: nat)
    requires g.Sound() && Inv(g, s) && t in s.threads && s.threads[t].pc == LargeAlloc(snap, FindFit) && !s.threads[t].job.Free?
    requires B.Valid(snap) && s.w.large == snap && B.FirstFit(snap.free, snap.sizes, s.threads[t].job.size) == Some(b)
    ensures Fine(g, s, t, Jump(s.(w := Reuse(s.w, b, Held(t))), t, LargeAlloc(snap, EnterUsed(b))))
  {
    hide Inv, WorldOk, Fine, SpaceOf;
    var size := s.threads[t].job.size;
    InvThread(g, s, t);
    assert b in snap.free;
    CachedIsNobodys(g, s.w, b);
    ReuseKeepsWorld(g, s.w, b, Held(t));
    var w' := Reuse(s.w, b, Held(t));
    LargeWitness(snap, size, B.AppendFull(w'.large, b), Some(b), None);
    FoundFine(g, s, t, snap, w', b);
  }

  lemma CachedIsNobodys(g: Geometry, w: World, b: nat)
    requires WorldOk(g, w) && b in w.large.free
    ensures Big(b) !in w.own
  {
    hide SpaceOk, KeysApart, Shaped;
  }

  lemma MapLargeFine(g: Geometry, s: State, t: nat, snap: B.Store, a: nat)
    requires g.Sound() && Inv(g, s) && t in s.threads && s.threads[t].pc == LargeAlloc(snap, FindFit) && !s.threads[t].job.Free?
    requires B.Valid(snap) && s.w.large == snap && B.FirstFit(snap.free, snap.sizes, s.threads[t].job.size) == None
    requires Fresh(s.w.mem, a, BLOCK_HEADER + WORD + s.threads[t].job.size)
    ensures Fine(g, s, t, Jump(s.(w := AddBlock(s.w, a, s.threads[t].job.size, Held(t))), t, LargeAlloc(snap, EnterUsed(a))))
  {
    hide Inv, WorldOk, Fine, BlockMemory, SpaceOf;
    var size := s.threads[t].job.size;
    InvThread(g, s, t);
    WorldSpace(g, s.w);
    FreshIsNew(g, SpaceOf(s.w), s.w.mem, a, BLOCK_HEADER + WORD + size);
    SpaceAt(s.w, a);
    AddBlockKeepsWorld(g, s.w, a, size, Held(t));
    var w' := AddBlock(s.w, a, size, Held(t));
    LargeWitness(snap, size, B.AppendFull(w'.large, a), Some(a), Some(a));
    assert forall x :: x in s.w.mem ==> !(a <= x < a + BLOCK_HEADER + WORD + size);
    FoundFine(g, s, t, snap, w', a);
  }

  // alloc_block asked for any size there is: mmap maps a whole block of that capacity exactly when the
  // size and its two headers do not wrap around.
  lemma BlockIsMappedExactly(g: Geometry, s: State, t: nat, snap: B.Store, a: nat)
    requires g.Sound() && t in s.threads && s.threads[t].pc == LargeAlloc(snap, FindFit) && !s.threads[t].job.Free?
    requires s.threads[t].job.size < ADDRESS_LIMIT && Answer(s.w.mem, Some(a), MapLength(s.threads[t].job.size))
    requires B.Valid(s.w.large) && B.FirstFit(s.w.large.free, s.w.large.sizes, s.threads[t].job.size).None?
    ensures var o, size := LargeAllocStep(g, s, t, snap, FindFit, Mmap(Some(a))), s.threads[t].job.size;
            && (o.Fault? || o.Next?)
            && (BLOCK_HEADER + WORD + size < ADDRESS_LIMIT <==>
                o.Next? && a in o.s.w.large.sizes && o.s.w.large.sizes[a] >= size
                && Mapped(o.s.w.mem, a, BLOCK_HEADER + WORD + size))
  {
    hide BlockMemory;
    MappedBlock(s.w.mem, a, s.threads[t].job.size);
  }

  lemma MappedBlock(mem: Mem, a: nat, size: nat)
    ensures Mapped(BlockMemory(mem, a, size), a, BLOCK_HEADER + WORD + size)
  {}

  // The requests a section can see do not wrap around.
  lemma MapLengthIs(g: Geometry, s: State, t: nat, th: Thread)
    requires AllocReady(g, s, t, th)
    ensures MapLength(th.job.size) == BLOCK_HEADER + WORD + th.job.size
  {}

  lemma FindFitFine(g: Geometry, s: State, t: nat, snap: B.Store, ch: Choice)
    requires g.Sound() && Inv(g, s) && t in s.threads && s.threads[t].pc == LargeAlloc(snap, FindFit) && !s.threads[t].job.Free?
    ensures Fine(g, s, t, LargeAllocStep(g, s, t, snap, FindFit, ch))
  {
    hide Inv, WorldOk, KeptFor, NewHeld, OldHeld, MapLength;
    var th := s.threads[t];
    InvThread(g, s, t);
    MapLengthIs(g, s, t, th);
    match B.FirstFit(snap.free, snap.sizes, th.job.size)
    case Some(b) => ReuseFine(g, s, t, snap, b);
    case None =>
      if ch.Mmap? && Answer(s.w.mem, ch.r, BLOCK_HEADER + WORD + th.job.size) {
        if ch.r.Some? {
          MapLargeFine(g, s, t, snap, ch.r.value);
        } else {
          LargeWitness(snap, th.job.size, snap, None, None);
          if KeptFor(g, s.w, s.w, t) { LargeAllocCarries(g, s, t, s.w, snap, FindFit, LargeAllocDone(None)); }
          AllocJumpFine(g, s, t, s.w, th.(pc := LargeAlloc(snap, LargeAllocDone(None))));
        }
      }
  }

  lemma EnterUsedFine(g: Geometry, s: State, t: nat, snap: B.Store, b: nat)
    requires g.Sound() && Inv(g, s) && t in s.threads && s.threads[t].pc == LargeAlloc(snap, EnterUsed(b)) && !s.threads[t].job.Free?
    ensures Fine(g, s, t, Jump(s.(w := s.w.(large := B.AppendFull(s.w.large, b))), t, LargeAlloc(snap, LargeAllocDone(Some(Big(b))))))
  {
    hide Inv, WorldOk, KeptFor, NewHeld, OldHeld, B.Valid, B.Alloc;
    var th := s.threads[t];
    InvThread(g, s, t);
    var w' := s.w.(large := B.AppendFull(s.w.large, b));
    var th' := th.(pc := LargeAlloc(snap, LargeAllocDone(Some(Big(b)))));
    BlockListsKeepWorld(g, s.w, w'.large);
    if KeptFor(g, s.w, w', t) { LargeAllocCarries(g, s, t, w', snap, EnterUsed(b), LargeAllocDone(Some(Big(b)))); }
    AllocJumpFine(g, s, t, w', th');
    assert s.(w := w').(threads := s.threads[t := th']) == s.(w := w', threads := s.threads[t := th']);
  }

  lemma LargeAllocDoneFine(g: Geometry, s: State, t: nat, snap: B.Store, r: Option<BlockId>)
    requires g.Sound() && Inv(g, s) && t in s.threads && s.threads[t].pc == LargeAlloc(snap, LargeAllocDone(r)) && !s.threads[t].job.Free?
    ensures Fine(g, s, t, LeaveAlloc(s, t, ClassMutex(Large), r))
  {
    hide Inv, WorldOk, NewHeld, AllocReady, B.Valid, B.Alloc;
    var size := s.threads[t].job.size;
    InvThread(g, s, t);
    var b := if r.Some? then Some(r.value.base) else None;
    var a: Option<nat> :| FreshBlockFor(snap, a) && B.Alloc(snap, size, a) == (s.w.large, b);
    B.AllocKeepsValid(snap, size, a);
    LeaveAllocFine(g, s, t, ClassMutex(Large), r);
  }

  lemma LargeAllocFine(g: Geometry, s: State, t: nat, snap: B.Store, at: LargeAllocAt, ch: Choice)
    requires g.Sound() && Inv(g, s) && t in s.threads && s.threads[t].pc == LargeAlloc(snap, at)
    ensures !s.threads[t].job.Free?
    ensures Fine(g, s, t, LargeAllocStep(g, s, t, snap, at, ch))
  {
    hide Inv, WorldOk, NewHeld, OldHeld, B.Valid, B.Alloc;
    InvThread(g, s, t);
    match at
    case FindFit => FindFitFine(g, s, t, snap, ch);
    case EnterUsed(b) => EnterUsedFine(g, s, t, snap, b);
    case LargeAllocDone(r) => LargeAllocDoneFine(g, s, t, snap, r);
  }
}
