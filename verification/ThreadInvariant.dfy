/** The invariant of the threaded allocator: what is true of the shared state and of every thread at
    every point of every interleaving, and the rule by which one thread relies on the others. */
module ThreadInvariant {
  import opened Sequences
  import opened Memory
  import opened Layout
  import opened Spaces
  import opened Worlds
  import opened Sections
  import opened Threads
  import Z = Zones
  import B = Blocks

  // ---- locks ----

  // The mutex a thread holds is determined by where it is, so it never holds two.
  function Holds(pc: Pc): Option<Mutex> {
    match pc
    case RecheckFlag => Some(HeapMutex)
    case MakeTiny => Some(HeapMutex)
    case MakeSmall => Some(HeapMutex)
    case SetFlag => Some(HeapMutex)
    case UnlockHeap(_) => Some(HeapMutex)
    case ZoneAlloc(c, _, _) => Some(ClassMutex(c))
    case ZoneFree(c, _, _) => Some(ClassMutex(c))
    case LargeAlloc(_, _) => Some(ClassMutex(Large))
    case LargeFree(_, _) => Some(ClassMutex(Large))
    case _ => None
  }

  ghost predicate LocksOk(s: State) {
    forall m, t :: LockOf(s, m) == Some(t) <==> t in s.threads && Holds(s.threads[t].pc) == Some(m)
  }

  // ---- blocks in the hands of a thread ----

  ghost predicate HeldBy(w: World, id: BlockId, t: nat) { id in w.own && w.own[id] == Held(t) }

  ghost predicate PayloadIs(g: Geometry, w: World, id: BlockId, bytes: seq<byte>, n: nat) {
    && Exists(g, SpaceOf(w), id) && n <= |bytes| <= Capacity(SpaceOf(w), id)
    && forall x :: Ptr(g, id) <= x < Ptr(g, id) + n ==> x in w.mem && w.mem[x] == bytes[x - Ptr(g, id)]
  }

  function IdClass(id: BlockId): SizeClass { if id.InZone? then id.c else Large }

  // The block being freed or reallocated; realloc also knows its capacity and its bytes.
  ghost predicate OldHeld(g: Geometry, s: State, t: nat, job: Job) {
    match job
    case Malloc(_) => true
    case Free(id) => HeldBy(s.w, id, t)
    case Realloc(id, size, before) =>
      && HeldBy(s.w, id, t) && PayloadIs(g, s.w, id, before, |before|) && |before| == Capacity(SpaceOf(s.w), id)
      && 0 < size && BLOCK_HEADER + WORD + size < ADDRESS_LIMIT
  }

  // What holds when an allocation is about to be made or is being made.
  ghost predicate AllocReady(g: Geometry, s: State, t: nat, th: Thread) {
    && s.initialized && !th.job.Free? && OldHeld(g, s, t, th.job)
    && (th.job.Malloc? ==> 0 < th.job.size <= PTRDIFF_MAX)
    && (th.job.Realloc? ==> th.oldClass == IdClass(th.job.id) && th.oldSize == |th.job.before| < th.job.size)
  }

  // The block just obtained: in the thread's hands, not the old one, and large enough.
  ghost predicate NewHeld(g: Geometry, s: State, t: nat, job: Job, id: BlockId)
    requires !job.Free?
  {
    && HeldBy(s.w, id, t) && (job.Realloc? ==> id != job.id)
    && Exists(g, SpaceOf(s.w), id) && Capacity(SpaceOf(s.w), id) >= job.size
  }

  // The new block of a realloc, with the first n old bytes copied.
  ghost predicate TargetHeld(g: Geometry, s: State, t: nat, th: Thread, n: nat)
    requires th.job.Realloc?
  {
    && th.target.Some? && NewHeld(g, s, t, th.job, th.target.value)
    && n <= |th.job.before| <= th.job.size && PayloadIs(g, s.w, th.target.value, th.job.before, n)
  }

  ghost predicate ResultReady(g: Geometry, s: State, t: nat, th: Thread) {
    match th.job
    case Malloc(_) => false
    case Free(_) => th.target.None?
    case Realloc(_, _, before) => TargetHeld(g, s, t, th, |before|)
  }

  // ---- the state of a class inside a section, in terms of the snapshot ----

  ghost predicate TakesLast(snap: Z.Pool, n: nat, z: nat, k: nat) {
    && Z.Valid(snap, n) && snap.free != [] && z == snap.free[0] && z in snap.zones && k == HeadIndex(snap, n)
    && snap.zones[z].freeCount == 1
  }

  ghost predicate FreshFor(snap: Z.Pool, r: Option<nat>) { r.Some? ==> r.value !in snap.zones }

  function ResultOf(c: ZoneClass, taken: Z.Taken): Option<BlockId> {
    match taken
    case Block(z, k) => Some(InZone(c, z, k))
    case _ => None
  }

  // The pool is what the sequential allocation makes of the snapshot, for some answer of mmap.
  ghost predicate AllocatedFrom(snap: Z.Pool, n: nat, size: nat, c: ZoneClass, p: Z.Pool, r: Option<BlockId>)
    requires Z.Valid(snap, n)
  {
    exists a: Option<nat> ::
      && FreshFor(snap, a) && Z.Alloc(snap, n, size, a).0 == p && ResultOf(c, Z.Alloc(snap, n, size, a).1) == r
  }

  ghost predicate ZoneAllocMid(p: Z.Pool, n: nat, c: ZoneClass, snap: Z.Pool, at: ZoneAllocAt, size: nat) {
    Z.Valid(snap, n) &&
    match at
    case PickBit => p == snap
    case LeaveFree(z, k) => TakesLast(snap, n, z, k) && p == Z.TakeBit(snap, z, k, size)
    case EnterFull(z, k) => TakesLast(snap, n, z, k) && p == Z.DetachFree(Z.TakeBit(snap, z, k, size), z)
    case Refill(z, k) => TakesLast(snap, n, z, k) && p == Z.AppendFull(Z.DetachFree(Z.TakeBit(snap, z, k, size), z), z)
    case EnterFree(z, k, a) =>
      && TakesLast(snap, n, z, k) && a !in snap.zones
      && p == Z.MapZone(Z.AppendFull(Z.DetachFree(Z.TakeBit(snap, z, k, size), z), z), a, n)
    case AllocDone(r) => AllocatedFrom(snap, n, size, c, p, r)
  }

  // The block a section has picked so far.
  function PickedZone(c: ZoneClass, at: ZoneAllocAt): Option<BlockId> {
    match at
    case PickBit => None
    case LeaveFree(z, k) => Some(InZone(c, z, k))
    case EnterFull(z, k) => Some(InZone(c, z, k))
    case Refill(z, k) => Some(InZone(c, z, k))
    case EnterFree(z, k, _) => Some(InZone(c, z, k))
    case AllocDone(r) => r
  }

  ghost predicate FreshBlockFor(snap: B.Store, r: Option<nat>) { r.Some? ==> r.value !in snap.sizes }

  ghost predicate LargeAllocatedFrom(snap: B.Store, size: nat, st: B.Store, r: Option<nat>)
    requires B.Valid(snap)
  {
    exists a: Option<nat> :: FreshBlockFor(snap, a) && B.Alloc(snap, size, a) == (st, r)
  }

  ghost predicate LargeAllocMid(st: B.Store, snap: B.Store, at: LargeAllocAt, size: nat) {
    B.Valid(snap) &&
    match at
    case FindFit => st == snap
    case EnterUsed(b) => LargeAllocatedFrom(snap, size, B.AppendFull(st, b), Some(b))
    case LargeAllocDone(r) =>
      (r.Some? ==> r.value.Big?) && LargeAllocatedFrom(snap, size, st, if r.Some? then Some(r.value.base) else None)
  }

  function PickedLarge(at: LargeAllocAt): Option<BlockId> {
    match at
    case FindFit => None
    case EnterUsed(b) => Some(Big(b))
    case LargeAllocDone(r) => r
  }

  ghost predicate ZoneFreeMid(p: Z.Pool, n: nat, snap: Z.Pool, at: ZoneFreeAt, z: nat, k: nat) {
    Z.Valid(snap, n) && Z.Allocated(snap, z, k) &&
    var given := Z.GiveBit(snap, z, k);
    match at
    case SetBit => p == snap
    case LeaveEmpty(y) => y == z && p == given && given.zones[z].freeCount == n && Z.Linked(given, z)
    case UnmapEmpty(y) => y == z && p == Z.DetachFree(given, z) && given.zones[z].freeCount == n && Z.Linked(given, z)
    case LeaveFull(y) => y == z && p == given && given.zones[z].freeCount == 1
    case Return(y) => y == z && p == Z.DetachFull(given, z) && given.zones[z].freeCount == 1
    case FreeDone => p == Z.Free(snap, n, z, k).0
  }

  ghost predicate LargeFreeMid(st: B.Store, snap: B.Store, at: LargeFreeAt, b: nat) {
    B.Valid(snap) && b in snap.full && b in snap.sizes &&
    match at
    case Unlink => st == snap
    case UnmapLarge(y) => y == b && st == B.DetachFull(snap, b) && snap.sizes[b] > CACHE_LIMIT
    case Keep(y) => y == b && st == B.DetachFull(snap, b) && snap.sizes[b] <= CACHE_LIMIT
    case LargeFreeDone => st == B.Free(snap, b).0
  }

  // ---- one thread ----

  ghost predicate ThreadOk(g: Geometry, s: State, t: nat, th: Thread) {
    match th.pc
    case Idle => true
    case ReadFlag => StartOk(th)
    case LockHeap => StartOk(th)
    case RecheckFlag => StartOk(th)
    case MakeTiny => StartOk(th) && !s.initialized
    case MakeSmall => StartOk(th) && !s.initialized
    case SetFlag => StartOk(th) && !s.initialized
    case UnlockHeap(ok) => StartOk(th) && (ok ==> s.initialized)
    case LockAlloc => AllocReady(g, s, t, th)
    case ZoneAlloc(c, snap, at) => AllocReady(g, s, t, th) && ZoneAllocOk(g, s, t, th, c, snap, at)
    case LargeAlloc(snap, at) => AllocReady(g, s, t, th) && LargeAllocOk(g, s, t, th, snap, at)
    case Copying(i) => AllocReady(g, s, t, th) && th.job.Realloc? && TargetHeld(g, s, t, th, i)
    case ReadMeta => s.initialized && !th.job.Malloc? && OldHeld(g, s, t, th.job) && th.target.None?
    case ReadHeader(meta) =>
      s.initialized && !th.job.Malloc? && OldHeld(g, s, t, th.job) && th.target.None? && meta == MetaOf(th.job.id)
    case LockFree(c) => s.initialized && ResultReady(g, s, t, th) && HeldBy(s.w, th.job.id, t) && c == IdClass(th.job.id)
    case ZoneFree(c, snap, at) => s.initialized && ResultReady(g, s, t, th) && ZoneFreeOk(g, s, t, th, c, snap, at)
    case LargeFree(snap, at) => s.initialized && ResultReady(g, s, t, th) && LargeFreeOk(g, s, t, th, snap, at)
  }

  ghost predicate StartOk(th: Thread) { th.job.Malloc? && 0 < th.job.size <= PTRDIFF_MAX }

  ghost predicate ZoneAllocOk(g: Geometry, s: State, t: nat, th: Thread, c: ZoneClass, snap: Z.Pool, at: ZoneAllocAt)
    requires !th.job.Free?
  {
    && c == ClassOf(th.job.size)
    && ZoneAllocMid(PoolOf(s.w, c), g.Blocks(c), c, snap, at, th.job.size)
    && (PickedZone(c, at).Some? ==> NewHeld(g, s, t, th.job, PickedZone(c, at).value))
  }

  ghost predicate LargeAllocOk(g: Geometry, s: State, t: nat, th: Thread, snap: B.Store, at: LargeAllocAt)
    requires !th.job.Free?
  {
    && ClassOf(th.job.size) == Large
    && LargeAllocMid(s.w.large, snap, at, th.job.size)
    && (PickedLarge(at).Some? ==> NewHeld(g, s, t, th.job, PickedLarge(at).value))
  }

  ghost predicate ZoneFreeOk(g: Geometry, s: State, t: nat, th: Thread, c: ZoneClass, snap: Z.Pool, at: ZoneFreeAt)
    requires !th.job.Malloc?
  {
    && th.job.id.InZone? && th.job.id.c == c
    && (at.SetBit? ==> HeldBy(s.w, th.job.id, t))
    && ZoneFreeMid(PoolOf(s.w, c), g.Blocks(c), snap, at, th.job.id.zone, th.job.id.index)
  }

  ghost predicate LargeFreeOk(g: Geometry, s: State, t: nat, th: Thread, snap: B.Store, at: LargeFreeAt)
    requires !th.job.Malloc?
  {
    && th.job.id.Big?
    && (!at.LargeFreeDone? ==> HeldBy(s.w, th.job.id, t))
    && LargeFreeMid(s.w.large, snap, at, th.job.id.base)
  }

  // ---- everything ----

  // A class whose lock is free has its lists, bitmaps and counters in order.
  ghost predicate UnlockedClassesOk(g: Geometry, s: State) {
    && (s.tinyLock.None? ==> PoolOk(g, s.w, Tiny))
    && (s.smallLock.None? ==> PoolOk(g, s.w, Small))
    && (s.largeLock.None? ==> B.Valid(s.w.large))
  }

  // Before initialisation nothing is owned, and no thread is inside a section.
  ghost predicate QuietStart(s: State) {
    !s.initialized ==> s.w.own == map[] && s.tinyLock.None? && s.smallLock.None? && s.largeLock.None?
  }

  ghost predicate Inv(g: Geometry, s: State) {
    && WorldOk(g, s.w) && LocksOk(s) && UnlockedClassesOk(g, s) && QuietStart(s)
    && forall t :: t in s.threads ==> ThreadOk(g, s, t, s.threads[t])
  }

  lemma InvClasses(g: Geometry, s: State)
    requires Inv(g, s)
    ensures UnlockedClassesOk(g, s) && QuietStart(s)
  {}

  // A thread inside a section holds its mutex.
  lemma InvHolds(g: Geometry, s: State, t: nat)
    requires Inv(g, s) && t in s.threads && Holds(s.threads[t].pc).Some?
    ensures LockOf(s, Holds(s.threads[t].pc).value) == Some(t)
  {
    hide WorldOk, UnlockedClassesOk, QuietStart, ThreadOk;
  }

  lemma InvThread(g: Geometry, s: State, t: nat)
    requires Inv(g, s) && t in s.threads
    ensures WorldOk(g, s.w) && ThreadOk(g, s, t, s.threads[t])
  {}

  lemma InitialInv(g: Geometry, ids: set<nat>)
    requires g.Sound()
    ensures Inv(g, Initial(ids))
  {
    EmptyWorldOk(g);
  }

  // ---- rely and guarantee ----

  // The blocks in the hands of u are left alone.
  ghost predicate KeptFor(g: Geometry, w: World, w': World, u: nat) {
    forall id :: HeldBy(w, id, u) ==> HeldBy(w', id, u) && PayloadKept(g, w, w', id)
  }

  ghost predicate OthersKept(g: Geometry, w: World, w': World, t: nat) {
    forall u :: u != t ==> KeptFor(g, w, w', u)
  }

  // What a step of thread t promises every other thread.
  ghost predicate Gentle(g: Geometry, s: State, s': State, t: nat) {
    && OthersKept(g, s.w, s'.w, t)
    && (forall u :: u != t && s.tinyLock == Some(u) ==> s'.w.tiny == s.w.tiny)
    && (forall u :: u != t && s.smallLock == Some(u) ==> s'.w.small == s.w.small)
    && (forall u :: u != t && s.largeLock == Some(u) ==> s'.w.large == s.w.large)
    && (s.initialized ==> s'.initialized)
    && (forall u :: u != t && s.heapLock == Some(u) ==> s'.initialized == s.initialized)
  }

  lemma PayloadOfOwners(g: Geometry, w: World, w': World, id: BlockId, bytes: seq<byte>, n: nat)
    requires PayloadIs(g, w, id, bytes, n) && w' == w.(own := w'.own)
    ensures PayloadIs(g, w', id, bytes, n) && SpaceOf(w') == SpaceOf(w)
  {
    assert SpaceOf(w') == SpaceOf(w);
  }

  lemma PayloadIsStays(g: Geometry, w: World, w': World, id: BlockId, bytes: seq<byte>, n: nat)
    requires PayloadIs(g, w, id, bytes, n) && PayloadKept(g, w, w', id)
    ensures PayloadIs(g, w', id, bytes, n)
  {}

  lemma OldHeldStays(g: Geometry, s: State, s': State, u: nat, job: Job)
    requires KeptFor(g, s.w, s'.w, u) && OldHeld(g, s, u, job)
    ensures OldHeld(g, s', u, job)
  {}

  lemma NewHeldStays(g: Geometry, s: State, s': State, u: nat, job: Job, id: BlockId)
    requires KeptFor(g, s.w, s'.w, u) && !job.Free? && NewHeld(g, s, u, job, id)
    ensures NewHeld(g, s', u, job, id) && PayloadKept(g, s.w, s'.w, id)
  {}

  lemma TargetHeldStays(g: Geometry, s: State, s': State, u: nat, th: Thread, n: nat)
    requires KeptFor(g, s.w, s'.w, u) && th.job.Realloc? && TargetHeld(g, s, u, th, n)
    ensures TargetHeld(g, s', u, th, n)
  {
    NewHeldStays(g, s, s', u, th.job, th.target.value);
    PayloadIsStays(g, s.w, s'.w, th.target.value, th.job.before, n);
  }

  lemma ResultReadyStays(g: Geometry, s: State, s': State, u: nat, th: Thread)
    requires KeptFor(g, s.w, s'.w, u) && ResultReady(g, s, u, th)
    ensures ResultReady(g, s', u, th)
  {
    if th.job.Realloc? { TargetHeldStays(g, s, s', u, th, |th.job.before|); }
  }

  // A gentle step of t leaves what is true of any other thread true.
  lemma RelyOnOthers(g: Geometry, s: State, s': State, t: nat, u: nat)
    requires LocksOk(s) && Gentle(g, s, s', t) && u != t && u in s.threads && ThreadOk(g, s, u, s.threads[u])
    ensures ThreadOk(g, s', u, s.threads[u])
  {
    hide PayloadKept, PayloadIs, ZoneAllocMid, LargeAllocMid, ZoneFreeMid, LargeFreeMid, TargetHeld, NewHeld;
    var th := s.threads[u];
    assert KeptFor(g, s.w, s'.w, u);
    assert Holds(th.pc).Some? ==> LockOf(s, Holds(th.pc).value) == Some(u);
    assert OldHeld(g, s, u, th.job) ==> OldHeld(g, s', u, th.job) by {
      if OldHeld(g, s, u, th.job) { OldHeldStays(g, s, s', u, th.job); }
    }
    match th.pc
    case ZoneAlloc(c, snap, at) =>
      assert LockOf(s, ClassMutex(c)) == Some(u);
      if PickedZone(c, at).Some? { NewHeldStays(g, s, s', u, th.job, PickedZone(c, at).value); }
    case LargeAlloc(snap, at) =>
      if PickedLarge(at).Some? { NewHeldStays(g, s, s', u, th.job, PickedLarge(at).value); }
    case Copying(i) => TargetHeldStays(g, s, s', u, th, i);
    case LockFree(c) => ResultReadyStays(g, s, s', u, th);
    case ZoneFree(c, snap, at) =>
      assert LockOf(s, ClassMutex(c)) == Some(u);
      ResultReadyStays(g, s, s', u, th);
    case LargeFree(snap, at) => ResultReadyStays(g, s, s', u, th);
    case _ =>
  }
}
