/** What the threaded allocator guarantees over every interleaving of any number of threads. */
module ThreadTheorems {
  import opened Sequences
  import opened Memory
  import opened Layout
  import opened Spaces
  import opened Worlds
  import opened Sections
  import opened Threads
  import opened ThreadInvariant
  import opened ThreadSteps
  import opened ThreadSetup
  import opened ThreadAlloc
  import opened ThreadFree
  import Z = Zones
  import B = Blocks

  // One step of one thread, from a state that satisfies the invariant: no fault, the invariant again,
  // and every other thread left alone.
  lemma StepFine(g: Geometry, s: State, t: nat, ch: Choice)
    requires g.Sound() && Inv(g, s)
    ensures Fine(g, s, t, Step(g, s, t, ch))
  {
    hide Fine, Inv, BeginStep, SetupStep, EnterAlloc, ZoneAllocStep, LargeAllocStep, CopyStep, ReadMetaStep,
      ReadHeaderStep, EnterFreeSection, ZoneFreeStep, LargeFreeStep, WriteStep;
    BlockedIsFine(g, s, t);
    if t in s.threads {
      if ch.Write? {
        WriteFine(g, s, t, ch.id, ch.x, ch.v);
      } else {
        match s.threads[t].pc
        case Idle => if ch.Begin? { BeginFine(g, s, t, ch.job); }
        case LockAlloc => EnterAllocFine(g, s, t);
        case ZoneAlloc(c, snap, at) => ZoneAllocFine(g, s, t, c, snap, at, ch);
        case LargeAlloc(snap, at) => LargeAllocFine(g, s, t, snap, at, ch);
        case Copying(i) => CopyFine(g, s, t, i);
        case ReadMeta => ReadMetaFine(g, s, t);
        case ReadHeader(meta) => ReadHeaderFine(g, s, t, meta);
        case LockFree(c) => EnterFreeFine(g, s, t, c);
        case ZoneFree(c, snap, at) => ZoneFreeFine(g, s, t, c, snap, at);
        case LargeFree(snap, at) => LargeFreeFine(g, s, t, snap, at);
        case _ => SetupFine(g, s, t, ch);
      }
    }
  }

  // ---- runs ----

  // Which thread moves, and what the environment decides, at each step.
  datatype Move = Move(t: nat, ch: Choice)

  // An execution from the initial state: every move succeeds.
  ghost predicate Execution(g: Geometry, ids: set<nat>, moves: seq<Move>, states: seq<State>)
    requires g.Sound()
  {
    && |states| == |moves| + 1 && states[0] == Initial(ids)
    && forall i :: 0 <= i < |moves| ==> Step(g, states[i], moves[i].t, moves[i].ch) == Next(states[i + 1])
  }

  // The invariant holds in every state of every execution, for any set of threads.
  lemma {:induction false} ExecutionsKeepInvariant(g: Geometry, ids: set<nat>, moves: seq<Move>, states: seq<State>, i: nat)
    requires g.Sound() && Execution(g, ids, moves, states) && i <= |moves|
    ensures Inv(g, states[i])
  {
    hide Inv, Step;
    if i == 0 {
      InitialInv(g, ids);
    } else {
      ExecutionsKeepInvariant(g, ids, moves, states, i - 1);
      StepFine(g, states[i - 1], moves[i - 1].t, moves[i - 1].ch);
      assert Step(g, states[i - 1], moves[i - 1].t, moves[i - 1].ch) == Next(states[i]);
    }
  }

  // In no reachable state can any thread, whatever the environment decides, touch memory that is not
  // mapped, follow a meta word to a structure that is not there, or unlock a mutex it does not hold.
  lemma NoStepFaults(g: Geometry, ids: set<nat>, moves: seq<Move>, states: seq<State>, i: nat, t: nat, ch: Choice)
    requires g.Sound() && Execution(g, ids, moves, states) && i <= |moves|
    ensures !Step(g, states[i], t, ch).Fault?
  {
    hide Inv, Step;
    ExecutionsKeepInvariant(g, ids, moves, states, i);
    StepFine(g, states[i], t, ch);
  }

  // ---- mutual exclusion ----

  // A class changes only in a step of the thread that holds its lock, or of the initialiser before
  // the flag is set.
  lemma ClassTouchedOnlyByHolder(g: Geometry, s: State, t: nat, ch: Choice)
    requires g.Sound() && Inv(g, s) && Step(g, s, t, ch).Next?
    ensures var s' := Step(g, s, t, ch).s;
            var initialising := !s.initialized && s.heapLock == Some(t);
            && (s'.w.tiny != s.w.tiny ==> s.tinyLock == Some(t) || initialising)
            && (s'.w.small != s.w.small ==> s.smallLock == Some(t) || initialising)
            && (s'.w.large != s.w.large ==> s.largeLock == Some(t))
  {
    hide WorldOk, UnlockedClassesOk, QuietStart, BeginStep, SetupStep, EnterAlloc, ZoneAllocStep, LargeAllocStep, CopyStep,
      ReadMetaStep, ReadHeaderStep, EnterFreeSection, ZoneFreeStep, LargeFreeStep, WriteStep, OldHeld, ZoneAllocOk, LargeAllocOk,
      ZoneFreeOk, LargeFreeOk, ResultReady, TargetHeld;
    if t in s.threads {
      var th := s.threads[t];
      assert ThreadOk(g, s, t, th);
      assert Holds(th.pc).Some? ==> LockOf(s, Holds(th.pc).value) == Some(t);
      if ch.Write? {
        WriteTouches(g, s, ch.id, ch.x, ch.v);
      } else {
        match th.pc
        case Idle => BeginTouches(g, s, t, ch.job);
        case ZoneAlloc(c, snap, at) => ZoneAllocTouches(g, s, t, c, snap, at, ch);
        case LargeAlloc(snap, at) => LargeAllocTouches(g, s, t, snap, at, ch);
        case ZoneFree(c, snap, at) => ZoneFreeTouches(g, s, t, c, snap, at);
        case LargeFree(snap, at) => LargeFreeTouches(g, s, t, snap, at);
        case Copying(i) => UnlockedTouches(g, s, t);
        case ReadMeta => UnlockedTouches(g, s, t);
        case ReadHeader(_) => UnlockedTouches(g, s, t);
        case LockAlloc => UnlockedTouches(g, s, t);
        case LockFree(_) => UnlockedTouches(g, s, t);
        case _ => SetupTouches(g, s, t, ch);
      }
    }
  }

  ghost predicate OnlyClass(w: World, w': World, c: Option<SizeClass>) {
    && (c != Some(Tiny) ==> w'.tiny == w.tiny) && (c != Some(Small) ==> w'.small == w.small) && (c != Some(Large) ==> w'.large == w.large)
  }

  lemma WriteTouches(g: Geometry, s: State, id: BlockId, x: nat, v: byte)
    ensures var o := WriteStep(g, s, id, x, v); o.Next? ==> OnlyClass(s.w, o.s.w, None)
  {}

  lemma BeginTouches(g: Geometry, s: State, t: nat, job: Job)
    requires t in s.threads
    ensures var o := BeginStep(g, s, t, job); o.Next? ==> OnlyClass(s.w, o.s.w, None)
  {}

  lemma SetupTouches(g: Geometry, s: State, t: nat, ch: Choice)
    requires g.Sound() && t in s.threads
    ensures var o := SetupStep(g, s, t, ch);
            o.Next? ==> o.s.w.large == s.w.large && (s.threads[t].pc.MakeTiny? || s.threads[t].pc.MakeSmall? || OnlyClass(s.w, o.s.w, None))
  {}

  lemma UnlockedTouches(g: Geometry, s: State, t: nat)
    requires t in s.threads
    ensures var o := EnterAlloc(s, t); o.Next? ==> OnlyClass(s.w, o.s.w, None)
    ensures var o := ReadMetaStep(g, s, t); o.Next? ==> OnlyClass(s.w, o.s.w, None)
    ensures forall i :: var o := CopyStep(g, s, t, i); o.Next? ==> OnlyClass(s.w, o.s.w, None)
    ensures forall meta :: var o := ReadHeaderStep(s, t, meta); o.Next? ==> OnlyClass(s.w, o.s.w, None)
    ensures forall c :: var o := EnterFreeSection(s, t, c); o.Next? ==> OnlyClass(s.w, o.s.w, None)
  {}

  lemma ZoneAllocTouches(g: Geometry, s: State, t: nat, c: ZoneClass, snap: Z.Pool, at: ZoneAllocAt, ch: Choice)
    requires g.Sound() && t in s.threads && !s.threads[t].job.Free?
    ensures var o := ZoneAllocStep(g, s, t, c, snap, at, ch); o.Next? ==> OnlyClass(s.w, o.s.w, Some(c))
  {}

  lemma LargeAllocTouches(g: Geometry, s: State, t: nat, snap: B.Store, at: LargeAllocAt, ch: Choice)
    requires g.Sound() && t in s.threads && !s.threads[t].job.Free?
    ensures var o := LargeAllocStep(g, s, t, snap, at, ch); o.Next? ==> OnlyClass(s.w, o.s.w, Some(Large))
  {}

  lemma ZoneFreeTouches(g: Geometry, s: State, t: nat, c: ZoneClass, snap: Z.Pool, at: ZoneFreeAt)
    requires t in s.threads && !s.threads[t].job.Malloc?
    ensures var o := ZoneFreeStep(g, s, t, c, snap, at); o.Next? ==> OnlyClass(s.w, o.s.w, Some(c))
  {}

  lemma LargeFreeTouches(g: Geometry, s: State, t: nat, snap: B.Store, at: LargeFreeAt)
    requires t in s.threads && !s.threads[t].job.Malloc?
    ensures var o := LargeFreeStep(g, s, t, snap, at); o.Next? ==> OnlyClass(s.w, o.s.w, Some(Large))
  {}

  // A thread never holds two mutexes, and holds none between calls.
  lemma AtMostOneMutex(g: Geometry, s: State, t: nat, m: Mutex, m': Mutex)
    requires Inv(g, s) && t in s.threads
    ensures LockOf(s, m) == Some(t) && LockOf(s, m') == Some(t) ==> m == m'
    ensures s.threads[t].pc.Idle? ==> LockOf(s, m) != Some(t)
  {
    hide WorldOk, UnlockedClassesOk, QuietStart, ThreadOk;
    assert LockOf(s, m) == Some(t) <==> Holds(s.threads[t].pc) == Some(m);
    assert LockOf(s, m') == Some(t) <==> Holds(s.threads[t].pc) == Some(m');
  }

  // ---- what holds in every reachable state ----

  // Whoever holds them, clients or threads in the middle of a call, the payloads of owned blocks are
  // mapped and disjoint from one another and from every byte of the allocator; and each class whose
  // mutex is free has its lists, bitmaps and counters in order.
  lemma PayloadsDisjointClassesInOrder(g: Geometry, s: State, x: BlockId, y: BlockId)
    requires g.Sound() && Inv(g, s) && x in s.w.own && y in s.w.own
    ensures var sp := SpaceOf(s.w);
            && Exists(g, sp, x) && Exists(g, sp, y)
            && (x != y ==> Ptr(g, x) + Capacity(sp, x) <= Ptr(g, y) || Ptr(g, y) + Capacity(sp, y) <= Ptr(g, x))
            && (forall a :: InPayload(g, sp, x, a) ==> a in s.w.mem && !AllocatorByte(g, sp, a))
    ensures s.tinyLock.None? ==> Z.Valid(s.w.tiny, g.tinyBlocks)
    ensures s.smallLock.None? ==> Z.Valid(s.w.small, g.smallBlocks)
    ensures s.largeLock.None? ==> B.Valid(s.w.large)
  {
    hide WorldOk, LocksOk, QuietStart, ThreadOk, Z.Valid, B.Valid;
    OwnedPayloadsDisjoint(g, s.w, x, y);
  }

  // ---- sections refine the sequential operations ----

  // Taking the mutex of a class enters a section with the class as its snapshot and changes nothing.
  ghost predicate Enters(s: State, t: nat, s': State) {
    && t in s.threads && t in s'.threads && s'.w == s.w && s'.threads[t] == s.threads[t].(pc := s'.threads[t].pc)
    && match s'.threads[t].pc
       case ZoneAlloc(c, snap, at) => snap == PoolOf(s.w, c) && at.PickBit?
       case ZoneFree(c, snap, at) => snap == PoolOf(s.w, c) && at.SetBit?
       case LargeAlloc(snap, at) => snap == s.w.large && at.FindFit?
       case LargeFree(snap, at) => snap == s.w.large && at.Unlink?
       case _ => false
  }

  // The section a program counter is in.
  predicate InSection(pc: Pc) { pc.ZoneAlloc? || pc.ZoneFree? || pc.LargeAlloc? || pc.LargeFree? }

  ghost predicate EntersWell(s: State, t: nat, o: Outcome) {
    o.Next? ==> t in o.s.threads && (InSection(o.s.threads[t].pc) ==> Enters(s, t, o.s))
  }

  lemma LocksEnter(s: State, t: nat)
    requires t in s.threads
    ensures EntersWell(s, t, EnterAlloc(s, t))
    ensures forall c :: EntersWell(s, t, EnterFreeSection(s, t, c))
  {}

  lemma OthersDoNotEnter(g: Geometry, s: State, t: nat, ch: Choice)
    requires g.Sound() && t in s.threads && !InSection(s.threads[t].pc)
    ensures EntersWell(s, t, SetupStep(g, s, t, ch))
    ensures ch.Begin? ==> EntersWell(s, t, BeginStep(g, s, t, ch.job))
    ensures EntersWell(s, t, ReadMetaStep(g, s, t))
    ensures forall i :: EntersWell(s, t, CopyStep(g, s, t, i))
    ensures forall meta :: EntersWell(s, t, ReadHeaderStep(s, t, meta))
    ensures ch.Write? ==> EntersWell(s, t, WriteStep(g, s, ch.id, ch.x, ch.v))
  {
    hide Enters, HeaderAt, JoinZone, Answer, Exists, Capacity, Mapped, InPayload;
  }

  // The snapshot in a section is the class as it was when the lock was taken.
  lemma SnapshotIsTheClass(g: Geometry, s: State, t: nat, ch: Choice, s': State)
    requires g.Sound() && t in s.threads && !InSection(s.threads[t].pc) && Step(g, s, t, ch) == Next(s')
    ensures t in s'.threads && (InSection(s'.threads[t].pc) ==> Enters(s, t, s'))
  {
    hide Enters, BeginStep, SetupStep, EnterAlloc, ZoneAllocStep, LargeAllocStep, CopyStep, ReadMetaStep, ReadHeaderStep,
      EnterFreeSection, ZoneFreeStep, LargeFreeStep, WriteStep;
    LocksEnter(s, t);
    OthersDoNotEnter(g, s, t, ch);
  }

  // At its unlock, a section has done to its class exactly what the sequential malloc or free does to
  // the snapshot, and returns the same block.
  lemma SectionsRefineSequential(g: Geometry, s: State, t: nat)
    requires g.Sound() && Inv(g, s) && t in s.threads
    ensures var th := s.threads[t];
            match th.pc
            case ZoneAlloc(c, snap, AllocDone(r)) =>
              && !th.job.Free? && Z.Valid(snap, g.Blocks(c))
              && exists a: Option<nat> ::
                   && (a.Some? ==> a.value !in snap.zones)
                   && Z.Alloc(snap, g.Blocks(c), th.job.size, a).0 == PoolOf(s.w, c)
                   && ResultOf(c, Z.Alloc(snap, g.Blocks(c), th.job.size, a).1) == r
            case ZoneFree(c, snap, FreeDone) =>
              && !th.job.Malloc? && th.job.id.InZone? && Z.Valid(snap, g.Blocks(c))
              && Z.Allocated(snap, th.job.id.zone, th.job.id.index)
              && PoolOf(s.w, c) == Z.Free(snap, g.Blocks(c), th.job.id.zone, th.job.id.index).0
            case LargeAlloc(snap, LargeAllocDone(r)) =>
              && !th.job.Free? && B.Valid(snap)
              && exists a: Option<nat> ::
                   && (a.Some? ==> a.value !in snap.sizes)
                   && B.Alloc(snap, th.job.size, a) == (s.w.large, if r.Some? then Some(Base(r.value)) else None)
            case LargeFree(snap, LargeFreeDone) =>
              && !th.job.Malloc? && th.job.id.Big? && B.Valid(snap) && th.job.id.base in snap.full && th.job.id.base in snap.sizes
              && s.w.large == B.Free(snap, th.job.id.base).0
            case _ => true
  {
    hide Inv, WorldOk, Z.Valid, B.Valid, Z.Alloc, B.Alloc, OldHeld, TargetHeld;
    InvThread(g, s, t);
  }

  // ---- blocks ----

  // Seen through the blocks alone, a step does nothing, or one of five things to one block: t obtains
  // a block nobody owned, loses it because mmap refused, passes it on to its client, claims it from
  // its client, or gives it back.
  ghost predicate OneTransfer(own: map<BlockId, Owner>, own': map<BlockId, Owner>, t: nat, ch: Choice) {
    || own' == own
    || (exists id :: id !in own && own' == own[id := Held(t)])
    || (exists id :: id in own && own[id] == Held(t) && own' == own[id := Lost] && ch == Mmap(None))
    || (exists id :: id in own && own[id] == Held(t) && own' == own[id := Client])
    || (exists id :: id in own && own[id] == Client && own' == own[id := Held(t)])
    || (exists id :: id in own && own[id] == Held(t) && own' == own - {id})
  }

  lemma StepTransfersOneBlock(g: Geometry, s: State, t: nat, ch: Choice)
    requires g.Sound() && Inv(g, s) && Step(g, s, t, ch).Next?
    ensures OneTransfer(s.w.own, Step(g, s, t, ch).s.w.own, t, ch)
  {
    hide Inv, OneTransfer, ZoneAllocStep, LargeAllocStep, ZoneFreeStep, LargeFreeStep, BeginStep, SetupStep, EnterAlloc, CopyStep,
      ReadMetaStep, ReadHeaderStep, EnterFreeSection, WriteStep;
    NoTransfer(s.w.own, t, ch);
    if t in s.threads {
      if ch.Write? {
        assert WriteStep(g, s, ch.id, ch.x, ch.v).s.w.own == s.w.own by { WriteTransfers(g, s, ch.id, ch.x, ch.v); }
      } else {
        match s.threads[t].pc
        case Idle => BeginTransfers(g, s, t, ch.job, ch);
        case LockAlloc => UnlockedTransfers(g, s, t, ch);
        case ReadMeta => UnlockedTransfers(g, s, t, ch);
        case ReadHeader(_) => UnlockedTransfers(g, s, t, ch);
        case LockFree(_) => UnlockedTransfers(g, s, t, ch);
        case Copying(i) => UnlockedTransfers(g, s, t, ch);
        case ZoneAlloc(c, snap, at) => ZoneAllocTransfers(g, s, t, c, snap, at, ch);
        case LargeAlloc(snap, at) => LargeAllocTransfers(g, s, t, snap, at, ch);
        case ZoneFree(c, snap, at) => ZoneFreeTransfers(g, s, t, c, snap, at, ch);
        case LargeFree(snap, at) => LargeFreeTransfers(g, s, t, snap, at, ch);
        case _ => SetupTransfers(g, s, t, ch);
      }
    }
  }

  lemma NoTransfer(own: map<BlockId, Owner>, t: nat, ch: Choice)
    ensures OneTransfer(own, own, t, ch)
  {}

  lemma WriteTransfers(g: Geometry, s: State, id: BlockId, x: nat, v: byte)
    ensures var o := WriteStep(g, s, id, x, v); o.Next? ==> o.s.w.own == s.w.own
  {}

  lemma BeginTransfers(g: Geometry, s: State, t: nat, job: Job, ch: Choice)
    requires t in s.threads
    ensures var o := BeginStep(g, s, t, job); o.Next? ==> OneTransfer(s.w.own, o.s.w.own, t, ch)
  {}

  lemma SetupTransfers(g: Geometry, s: State, t: nat, ch: Choice)
    requires g.Sound() && t in s.threads
    ensures var o := SetupStep(g, s, t, ch); o.Next? ==> OneTransfer(s.w.own, o.s.w.own, t, ch)
  {}

  lemma UnlockedTransfers(g: Geometry, s: State, t: nat, ch: Choice)
    requires g.Sound() && Inv(g, s) && t in s.threads
    ensures var o := EnterAlloc(s, t); o.Next? ==> o.s.w.own == s.w.own
    ensures var o := ReadMetaStep(g, s, t); o.Next? ==> o.s.w.own == s.w.own
    ensures forall i :: var o := CopyStep(g, s, t, i); o.Next? ==> o.s.w.own == s.w.own
    ensures forall c :: var o := EnterFreeSection(s, t, c); o.Next? ==> o.s.w.own == s.w.own
    ensures forall meta :: s.threads[t].pc == ReadHeader(meta) ==>
              var o := ReadHeaderStep(s, t, meta); o.Next? ==> OneTransfer(s.w.own, o.s.w.own, t, ch)
    ensures OneTransfer(s.w.own, s.w.own, t, ch)
  {
    hide Inv, WorldOk, PayloadIs, ZoneAllocOk, ZoneFreeOk, LargeAllocOk, LargeFreeOk, TargetHeld;
    InvThread(g, s, t);
  }

  lemma FreeBitIsNobodys(g: Geometry, w: World, c: ZoneClass, z: nat, k: nat)
    requires WorldOk(g, w) && z in PoolOf(w, c).zones && k < |PoolOf(w, c).zones[z].bits| && PoolOf(w, c).zones[z].bits[k]
    ensures InZone(c, z, k) !in w.own
  {
    hide SpaceOk, KeysApart, Shaped;
    assert InZone(c, z, k) in w.own <==> Z.Allocated(PoolOf(w, c), z, k);
  }

  lemma PickBitTransfers(g: Geometry, s: State, t: nat, c: ZoneClass, snap: Z.Pool, ch: Choice)
    requires g.Sound() && WorldOk(g, s.w) && t in s.threads && !s.threads[t].job.Free?
    ensures var o := ZoneAllocStep(g, s, t, c, snap, PickBit, ch); o.Next? ==> OneTransfer(s.w.own, o.s.w.own, t, ch)
  {
    hide WorldOk, LeaveAlloc, AddZone;
    var p := PoolOf(s.w, c);
    if p.free != [] && p.free[0] in p.zones && Z.FirstFree(p.zones[p.free[0]].bits).Some? {
      FreeBitIsNobodys(g, s.w, c, p.free[0], Z.FirstFree(p.zones[p.free[0]].bits).value);
    }
  }

  lemma LeaveAllocTransfers(s: State, t: nat, m: Mutex, r: Option<BlockId>, ch: Choice)
    requires t in s.threads && (r.Some? ==> HeldBy(s.w, r.value, t))
    requires s.threads[t].job.Realloc? ==> HeldBy(s.w, s.threads[t].job.id, t)
    ensures var o := LeaveAlloc(s, t, m, r); o.Next? ==> OneTransfer(s.w.own, o.s.w.own, t, ch)
  {}

  lemma ZoneAllocTransfers(g: Geometry, s: State, t: nat, c: ZoneClass, snap: Z.Pool, at: ZoneAllocAt, ch: Choice)
    requires g.Sound() && Inv(g, s) && t in s.threads && s.threads[t].pc == ZoneAlloc(c, snap, at)
    ensures !s.threads[t].job.Free?
    ensures var o := ZoneAllocStep(g, s, t, c, snap, at, ch); o.Next? ==> OneTransfer(s.w.own, o.s.w.own, t, ch)
  {
    hide Inv, WorldOk, PayloadIs, ZoneAllocMid, Capacity, SpaceOf, ZoneMemory, Exists, LeaveAlloc;
    InvThread(g, s, t);
    match at
    case PickBit => PickBitTransfers(g, s, t, c, snap, ch);
    case AllocDone(r) => LeaveAllocTransfers(s, t, ClassMutex(c), r, ch);
    case _ =>
  }

  lemma LargeAllocTransfers(g: Geometry, s: State, t: nat, snap: B.Store, at: LargeAllocAt, ch: Choice)
    requires g.Sound() && Inv(g, s) && t in s.threads && s.threads[t].pc == LargeAlloc(snap, at)
    ensures !s.threads[t].job.Free?
    ensures var o := LargeAllocStep(g, s, t, snap, at, ch); o.Next? ==> OneTransfer(s.w.own, o.s.w.own, t, ch)
  {
    hide Inv, PayloadIs, KeysApart, Shaped, SpaceOk, B.Valid, LargeAllocatedFrom;
    var th := s.threads[t];
    InvThread(g, s, t);
    MapLengthIs(g, s, t, th);
    if at.FindFit? && ch.Mmap? && Answer(s.w.mem, ch.r, BLOCK_HEADER + WORD + th.job.size) && ch.r.Some? {
      FreshIsNew(g, SpaceOf(s.w), s.w.mem, ch.r.value, BLOCK_HEADER + WORD + th.job.size);
    }
  }

  lemma ZoneFreeTransfers(g: Geometry, s: State, t: nat, c: ZoneClass, snap: Z.Pool, at: ZoneFreeAt, ch: Choice)
    requires g.Sound() && Inv(g, s) && t in s.threads && s.threads[t].pc == ZoneFree(c, snap, at)
    ensures !s.threads[t].job.Malloc?
    ensures var o := ZoneFreeStep(g, s, t, c, snap, at); o.Next? ==> OneTransfer(s.w.own, o.s.w.own, t, ch)
  {
    hide Inv, WorldOk, PayloadIs, ZoneFreeMid;
    InvThread(g, s, t);
    if at.SetBit? { MetaReadable(g, s, s.threads[t].job.id); }
  }

  lemma LargeFreeTransfers(g: Geometry, s: State, t: nat, snap: B.Store, at: LargeFreeAt, ch: Choice)
    requires g.Sound() && Inv(g, s) && t in s.threads && s.threads[t].pc == LargeFree(snap, at)
    ensures !s.threads[t].job.Malloc?
    ensures var o := LargeFreeStep(g, s, t, snap, at); o.Next? ==> OneTransfer(s.w.own, o.s.w.own, t, ch)
  {
    hide Inv, WorldOk, PayloadIs, B.Valid;
    InvThread(g, s, t);
  }

  // Blocks in the hands of a thread keep their place, capacity, bytes and meta word through anything
  // other threads and clients do, so what free and realloc read with no lock held stays true.
  lemma {:induction false} OthersNeverDisturb(g: Geometry, moves: seq<Move>, states: seq<State>, t: nat, id: BlockId)
    requires g.Sound() && |states| == |moves| + 1 && Inv(g, states[0])
    requires forall i :: 0 <= i < |moves| ==> moves[i].t != t && Step(g, states[i], moves[i].t, moves[i].ch) == Next(states[i + 1])
    requires HeldBy(states[0].w, id, t)
    ensures var last := states[|moves|];
            && Inv(g, last) && HeldBy(last.w, id, t)
            && PayloadKept(g, states[0].w, last.w, id)
  {
    hide Inv, Step, PayloadKept;
    if |moves| == 0 {
      KeptAlready(g, states[0], id);
    } else {
      var n := |moves| - 1;
      OthersNeverDisturb(g, moves[..n], states[..n + 1], t, id);
      assert Step(g, states[n], moves[n].t, moves[n].ch) == Next(states[n + 1]);
      StepFine(g, states[n], moves[n].t, moves[n].ch);
      assert KeptFor(g, states[n].w, states[n + 1].w, t);
      KeptTwice(g, states[0].w, states[n].w, states[n + 1].w, id);
    }
  }

  lemma KeptAlready(g: Geometry, s: State, id: BlockId)
    requires g.Sound() && Inv(g, s) && id in s.w.own
    ensures PayloadKept(g, s.w, s.w, id)
  {
    PayloadMapped(g, s.w, id);
  }

  // The reads with no lock held hit mapped memory and find the very block, class and capacity; under
  // the lock free reads the same word again.
  lemma UnlockedReadsAreRight(g: Geometry, s: State, t: nat)
    requires g.Sound() && Inv(g, s) && t in s.threads
    ensures var th := s.threads[t];
            match th.pc
            case ReadMeta =>
              && !th.job.Malloc? && Mapped(s.w.mem, Ptr(g, th.job.id) - WORD, WORD)
              && LoadWord(s.w.mem, Ptr(g, th.job.id) - WORD) == MetaOf(th.job.id)
            case ReadHeader(meta) =>
              && !th.job.Malloc? && meta == MetaOf(th.job.id) && Exists(g, SpaceOf(s.w), th.job.id)
              && HeaderAt(s, meta).Some?
              && StructClass(HeaderAt(s, meta).value) == IdClass(th.job.id)
              && StructSize(HeaderAt(s, meta).value) == Capacity(SpaceOf(s.w), th.job.id)
            case ZoneFree(_, _, SetBit) => !th.job.Malloc? && MetaUnderLock(g, s, th.job.id) == Some(MetaOf(th.job.id))
            case LargeFree(_, Unlink) => !th.job.Malloc? && MetaUnderLock(g, s, th.job.id) == Some(MetaOf(th.job.id))
            case _ => true
  {
    hide Inv, WorldOk, ZoneFreeMid, LargeFreeMid, TargetHeld, PayloadIs;
    var th := s.threads[t];
    InvThread(g, s, t);
    if th.pc.ReadMeta? || th.pc.ReadHeader? || (th.pc.ZoneFree? && th.pc.zf.SetBit?) || (th.pc.LargeFree? && th.pc.lf.Unlink?) {
      MetaReadable(g, s, th.job.id);
    }
  }

  // The last step of a section.
  lemma UnlockStep(g: Geometry, s: State, t: nat, ch: Choice)
    requires g.Sound() && t in s.threads && !ch.Write?
    ensures var th := s.threads[t];
            match th.pc
            case ZoneAlloc(c, _, AllocDone(r)) => !th.job.Free? ==> Step(g, s, t, ch) == LeaveAlloc(s, t, ClassMutex(c), r)
            case LargeAlloc(_, LargeAllocDone(r)) => !th.job.Free? ==> Step(g, s, t, ch) == LeaveAlloc(s, t, ClassMutex(Large), r)
            case ZoneFree(c, _, FreeDone) => !th.job.Malloc? ==> Step(g, s, t, ch) == LeaveFreeSection(s, t, ClassMutex(c))
            case LargeFree(_, LargeFreeDone) => !th.job.Malloc? ==> Step(g, s, t, ch) == LeaveFreeSection(s, t, ClassMutex(Large))
            case _ => true
  {
    hide BeginStep, SetupStep, EnterAlloc, CopyStep, ReadMetaStep, ReadHeaderStep, EnterFreeSection, WriteStep, LeaveAlloc,
      LeaveFreeSection;
  }

  // A realloc that moved hands over, at its last unlock, a block other than the old one, large enough
  // and starting with every byte the old one held when realloc was called.
  lemma ReallocDelivers(g: Geometry, s: State, t: nat, ch: Choice, s': State)
    requires g.Sound() && Inv(g, s) && t in s.threads && s.threads[t].job.Realloc? && !ch.Write?
    requires
      || (s.threads[t].pc.ZoneFree? && s.threads[t].pc.zf.FreeDone?)
      || (s.threads[t].pc.LargeFree? && s.threads[t].pc.lf.LargeFreeDone?)
    requires Step(g, s, t, ch) == Next(s')
    ensures t in s'.threads && s'.threads[t] == IDLE
    ensures var th := s.threads[t];
            && th.target.Some? && th.target.value != th.job.id
            && s'.w.own == s.w.own[th.target.value := Client]
            && Exists(g, SpaceOf(s'.w), th.target.value) && Capacity(SpaceOf(s'.w), th.target.value) >= th.job.size
            && PayloadIs(g, s'.w, th.target.value, th.job.before, |th.job.before|)
  {
    hide Inv, WorldOk, Step, ZoneFreeMid, LargeFreeMid, PayloadIs;
    var th := s.threads[t];
    InvThread(g, s, t);
    InvHolds(g, s, t);
    UnlockStep(g, s, t, ch);
    PayloadOfOwners(g, s.w, s'.w, th.target.value, th.job.before, |th.job.before|);
    assert SpaceOf(s.w.(own := s.w.own[th.target.value := Client])) == SpaceOf(s.w);
  }

  // ---- progress ----

  // Inside a critical section a thread is never stuck, whatever mmap answers.
  lemma SectionNeverBlocks(g: Geometry, s: State, t: nat)
    requires g.Sound() && Inv(g, s) && t in s.threads && Holds(s.threads[t].pc).Some?
    ensures Step(g, s, t, Mmap(None)).Next?
  {
    hide Inv, Z.Valid, B.Valid;
    StepFine(g, s, t, Mmap(None));
  }

  // If some call is under way, some thread can take a step.
  lemma NoDeadlock(g: Geometry, s: State, t: nat)
    requires g.Sound() && Inv(g, s) && t in s.threads && !s.threads[t].pc.Idle?
    ensures exists u: nat, ch: Choice :: u in s.threads && !s.threads[u].pc.Idle? && !ch.Write? && Step(g, s, u, ch).Next?
  {
    hide WorldOk, UnlockedClassesOk, QuietStart, Z.Valid, B.Valid, ThreadOk;
    var ch := Mmap(None);
    if !Step(g, s, t, ch).Next? {
      StepFine(g, s, t, ch);
      var m := WaitsFor(g, s, t);
      var u := LockOf(s, m).value;
      assert u in s.threads && Holds(s.threads[u].pc) == Some(m);
      SectionNeverBlocks(g, s, u);
    }
  }

  // A thread that cannot step waits for a mutex that another thread holds.
  lemma WaitsFor(g: Geometry, s: State, t: nat) returns (m: Mutex)
    requires g.Sound() && Inv(g, s) && t in s.threads && !s.threads[t].pc.Idle? && Step(g, s, t, Mmap(None)).Blocked?
    ensures LockOf(s, m).Some?
  {
    hide Inv, Z.Valid, B.Valid;
    match s.threads[t].pc
    case LockHeap => m := HeapMutex;
    case LockAlloc => m := ClassMutex(ClassOf(s.threads[t].job.size));
    case LockFree(c) => m := ClassMutex(c);
    case _ => m := HeapMutex; SectionOrReadSteps(g, s, t);
  }

  lemma SectionOrReadSteps(g: Geometry, s: State, t: nat)
    requires g.Sound() && Inv(g, s) && t in s.threads
    requires !s.threads[t].pc.Idle? && !s.threads[t].pc.LockHeap? && !s.threads[t].pc.LockAlloc? && !s.threads[t].pc.LockFree?
    ensures !Step(g, s, t, Mmap(None)).Blocked?
  {
    hide Inv, Z.Valid, B.Valid;
  }

  // How many bytes a thread is asking mmap for.
  ghost function AskedLength(g: Geometry, s: State, t: nat): Option<nat>
    requires t in s.threads
  {
    var th := s.threads[t];
    match th.pc
    case MakeTiny => Some(g.Length(Tiny))
    case MakeSmall => Some(g.Length(Small))
    case ZoneAlloc(c, _, Refill(_, _)) => Some(g.Length(c))
    case LargeAlloc(_, FindFit) => if th.job.Free? then None else Some(MapLength(th.job.size))
    case _ => None
  }

  // Whatever legal answer mmap gives, the thread that asked goes on with it.
  lemma AnswersAccepted(g: Geometry, s: State, t: nat, r: Option<nat>)
    requires g.Sound() && Inv(g, s) && t in s.threads && AskedLength(g, s, t).Some?
    requires Answer(s.w.mem, r, AskedLength(g, s, t).value)
    ensures Step(g, s, t, Mmap(r)).Next?
  {
    hide Inv, Z.Valid, B.Valid, Answer, JoinZone, AddZone, AddBlock, MapLength;
    StepFine(g, s, t, Mmap(r));
  }

  // An idle thread can begin any malloc, and the free or realloc of any block in client hands; and a
  // client can write anywhere in such a block.
  lemma CallsCanBegin(g: Geometry, s: State, t: nat, id: BlockId, size: nat)
    requires g.Sound() && Inv(g, s) && t in s.threads && s.threads[t].pc.Idle?
    ensures Step(g, s, t, Begin(Malloc(size))).Next?
    ensures id in s.w.own && s.w.own[id] == Client ==>
              && Exists(g, SpaceOf(s.w), id) && Mapped(s.w.mem, Ptr(g, id), Capacity(SpaceOf(s.w), id))
              && Step(g, s, t, Begin(Free(id))).Next?
              && (BLOCK_HEADER + WORD + size < ADDRESS_LIMIT ==>
                    Step(g, s, t, Begin(Realloc(id, size, Bytes(s.w.mem, Ptr(g, id), Capacity(SpaceOf(s.w), id))))).Next?)
              && forall x, v :: InPayload(g, SpaceOf(s.w), id, x) ==> Step(g, s, t, Write(id, x, v)).Next?
  {
    hide Inv, WorldOk, SpaceOf, Capacity, Exists;
    InvThread(g, s, t);
    if id in s.w.own { PayloadMapped(g, s.w, id); }
  }

  // Steps left to a thread before it is idle again, at most.
  function Rank(th: Thread): nat {
    var b := if th.job.Realloc? then |th.job.before| else 0;
    match th.pc
    case Idle => 0
    case ReadFlag => 20 + b
    case LockHeap => 19 + b
    case RecheckFlag => 18 + b
    case MakeTiny => 17 + b
    case MakeSmall => 16 + b
    case SetFlag => 15 + b
    case UnlockHeap(_) => 14 + b
    case ReadMeta => 15 + b
    case ReadHeader(_) => 14 + b
    case LockAlloc => 13 + b
    case ZoneAlloc(_, _, at) =>
      (match at
       case PickBit => 12 + b
       case LeaveFree(_, _) => 11 + b
       case EnterFull(_, _) => 10 + b
       case Refill(_, _) => 9 + b
       case EnterFree(_, _, _) => 8 + b
       case AllocDone(_) => 7 + b)
    case LargeAlloc(_, at) =>
      (match at case FindFit => 9 + b case EnterUsed(_) => 8 + b case LargeAllocDone(_) => 7 + b)
    case Copying(i) => 6 + (if i <= b then b - i else 0)
    case LockFree(_) => 5
    case ZoneFree(_, _, at) =>
      (match at
       case SetBit => 4
       case LeaveEmpty(_) => 3
       case LeaveFull(_) => 3
       case UnmapEmpty(_) => 2
       case Return(_) => 2
       case FreeDone => 1)
    case LargeFree(_, at) =>
      (match at case Unlink => 4 case UnmapLarge(_) => 2 case Keep(_) => 2 case LargeFreeDone => 1)
  }

  // Every step a thread takes within a call brings the end of the call nearer, so every call ends
  // after at most 20 steps of its own plus one for each byte copied, and every lock is released.
  lemma CallsEnd(g: Geometry, s: State, t: nat, ch: Choice)
    requires g.Sound() && Inv(g, s) && t in s.threads && !s.threads[t].pc.Idle? && !ch.Write? && Step(g, s, t, ch).Next?
    ensures t in Step(g, s, t, ch).s.threads && Rank(Step(g, s, t, ch).s.threads[t]) < Rank(s.threads[t])
  {
    hide Inv, SetupStep, EnterAlloc, ZoneAllocStep, LargeAllocStep, CopyStep, ReadMetaStep, ReadHeaderStep, EnterFreeSection,
      ZoneFreeStep, LargeFreeStep, Rank;
    match s.threads[t].pc
    case LockAlloc => LockAllocRanks(s, t);
    case ReadMeta => ReadMetaRanks(g, s, t);
    case ReadHeader(meta) => ReadHeaderRanks(s, t, meta);
    case LockFree(c) => LockFreeRanks(s, t, c);
    case Copying(i) => CopyRanks(g, s, t, i);
    case ZoneAlloc(c, snap, at) => ZoneAllocRanks(g, s, t, c, snap, at, ch);
    case LargeAlloc(snap, at) => LargeAllocRanks(g, s, t, snap, at, ch);
    case ZoneFree(c, snap, at) => ZoneFreeRanks(g, s, t, c, snap, at);
    case LargeFree(snap, at) => LargeFreeRanks(g, s, t, snap, at);
    case _ => SetupRanks(g, s, t, ch);
  }

  ghost predicate Nearer(s: State, o: Outcome, t: nat) {
    o.Next? && t in s.threads ==> t in o.s.threads && Rank(o.s.threads[t]) < Rank(s.threads[t])
  }

  lemma SetupRanks(g: Geometry, s: State, t: nat, ch: Choice)
    requires g.Sound() && t in s.threads
    ensures Nearer(s, SetupStep(g, s, t, ch), t)
  {}

  lemma LockAllocRanks(s: State, t: nat)
    requires t in s.threads && s.threads[t].pc.LockAlloc?
    ensures Nearer(s, EnterAlloc(s, t), t)
  {}

  lemma ReadMetaRanks(g: Geometry, s: State, t: nat)
    requires t in s.threads && s.threads[t].pc.ReadMeta?
    ensures Nearer(s, ReadMetaStep(g, s, t), t)
  {}

  lemma ReadHeaderRanks(s: State, t: nat, meta: nat)
    requires t in s.threads && s.threads[t].pc == ReadHeader(meta)
    ensures Nearer(s, ReadHeaderStep(s, t, meta), t)
  {
    hide HeaderAt;
  }

  lemma LockFreeRanks(s: State, t: nat, c: SizeClass)
    requires t in s.threads && s.threads[t].pc == LockFree(c)
    ensures Nearer(s, EnterFreeSection(s, t, c), t)
  {}

  lemma CopyRanks(g: Geometry, s: State, t: nat, i: nat)
    requires g.Sound() && Inv(g, s) && t in s.threads && s.threads[t].pc == Copying(i)
    ensures Nearer(s, CopyStep(g, s, t, i), t)
  {
    hide Inv, WorldOk, PayloadIs;
    InvThread(g, s, t);
  }

  lemma ZoneAllocRanks(g: Geometry, s: State, t: nat, c: ZoneClass, snap: Z.Pool, at: ZoneAllocAt, ch: Choice)
    requires g.Sound() && t in s.threads && !s.threads[t].job.Free? && s.threads[t].pc == ZoneAlloc(c, snap, at)
    ensures Nearer(s, ZoneAllocStep(g, s, t, c, snap, at, ch), t)
  {}

  lemma LargeAllocRanks(g: Geometry, s: State, t: nat, snap: B.Store, at: LargeAllocAt, ch: Choice)
    requires g.Sound() && t in s.threads && !s.threads[t].job.Free? && s.threads[t].pc == LargeAlloc(snap, at)
    ensures Nearer(s, LargeAllocStep(g, s, t, snap, at, ch), t)
  {}

  lemma ZoneFreeRanks(g: Geometry, s: State, t: nat, c: ZoneClass, snap: Z.Pool, at: ZoneFreeAt)
    requires t in s.threads && !s.threads[t].job.Malloc? && s.threads[t].pc == ZoneFree(c, snap, at)
    ensures Nearer(s, ZoneFreeStep(g, s, t, c, snap, at), t)
  {}

  lemma LargeFreeRanks(g: Geometry, s: State, t: nat, snap: B.Store, at: LargeFreeAt)
    requires t in s.threads && !s.threads[t].job.Malloc? && s.threads[t].pc == LargeFree(snap, at)
    ensures Nearer(s, LargeFreeStep(g, s, t, snap, at), t)
  {}
}
