/** The allocator under threads, as a state machine.

    Each thread has a program counter; one step of one thread is one lock operation, one unlocked read
    (the initialised flag, a meta word, a structure header), one mmap or munmap, one update of a list,
    the bitmap update of one block, or one byte of the copy in realloc.  Interleaving is arbitrary.
    A step that would touch memory that is not mapped or a structure that is not there, or would record a
    block with more bytes than were mapped for it, is a Fault. */
module Threads {
  import opened Sequences
  import opened Memory
  import opened Meta
  import opened Layout
  import opened Spaces
  import opened Worlds
  import opened Sections
  import Z = Zones
  import B = Blocks

  datatype Mutex = HeapMutex | ClassMutex(c: SizeClass)

  // The call a thread is executing.  The block is what the pointer argument stands for; the bytes it
  // held when realloc was called are recorded for the proofs.
  datatype Job =
    | Malloc(size: nat)
    | Free(id: BlockId)
    | Realloc(id: BlockId, size: nat, before: seq<byte>)

  // Positions inside a locked section.  Done is the unlock that ends it.
  datatype ZoneAllocAt =
    | PickBit
    | LeaveFree(z: nat, k: nat)
    | EnterFull(z: nat, k: nat)
    | Refill(z: nat, k: nat)
    | EnterFree(z: nat, k: nat, a: nat)
    | AllocDone(r: Option<BlockId>)
  datatype LargeAllocAt = FindFit | EnterUsed(b: nat) | LargeAllocDone(r: Option<BlockId>)
  datatype ZoneFreeAt = SetBit | LeaveEmpty(z: nat) | UnmapEmpty(z: nat) | LeaveFull(z: nat) | Return(z: nat) | FreeDone
  datatype LargeFreeAt = Unlink | UnmapLarge(b: nat) | Keep(b: nat) | LargeFreeDone

  // Each locked section also carries a snapshot of its class, taken when the lock was acquired.
  datatype Pc =
    | Idle
    | ReadFlag | LockHeap | RecheckFlag | MakeTiny | MakeSmall | SetFlag | UnlockHeap(ok: bool)
    | LockAlloc
    | ZoneAlloc(c: ZoneClass, pool: Z.Pool, za: ZoneAllocAt)
    | LargeAlloc(store: B.Store, la: LargeAllocAt)
    | Copying(done: nat)
    | ReadMeta | ReadHeader(meta: nat)
    | LockFree(fc: SizeClass)
    | ZoneFree(c: ZoneClass, pool: Z.Pool, zf: ZoneFreeAt)
    | LargeFree(store: B.Store, lf: LargeFreeAt)

  // oldClass and oldSize are what realloc read from the header; target is its new block.
  datatype Thread = Thread(pc: Pc, job: Job, oldClass: SizeClass, oldSize: nat, target: Option<BlockId>)

  const IDLE := Thread(Idle, Malloc(0), Tiny, 0, None)

  datatype State = State(
    initialized: bool,
    w: World,
    heapLock: Option<nat>,
    tinyLock: Option<nat>,
    smallLock: Option<nat>,
    largeLock: Option<nat>,
    threads: map<nat, Thread>)

  function Initial(ids: set<nat>): State {
    State(false, EMPTY_WORLD, None, None, None, None, map t | t in ids :: IDLE)
  }

  // lock_list and unlock_list choose the mutex by class.
  function LockOf(s: State, m: Mutex): Option<nat> {
    match m
    case HeapMutex => s.heapLock
    case ClassMutex(Tiny) => s.tinyLock
    case ClassMutex(Small) => s.smallLock
    case ClassMutex(Large) => s.largeLock
  }

  function SetLock(s: State, m: Mutex, v: Option<nat>): State {
    match m
    case HeapMutex => s.(heapLock := v)
    case ClassMutex(Tiny) => s.(tinyLock := v)
    case ClassMutex(Small) => s.(smallLock := v)
    case ClassMutex(Large) => s.(largeLock := v)
  }

  // What the environment decides: a call to start, an answer of mmap, or a byte a client writes.
  datatype Choice = Go | Begin(job: Job) | Mmap(r: Option<nat>) | Write(id: BlockId, x: nat, v: byte)

  datatype Outcome = Blocked | Fault | Next(s: State)

  function At(s: State, t: nat, th: Thread): Outcome { Next(s.(threads := s.threads[t := th])) }

  function Jump(s: State, t: nat, pc: Pc): Outcome
    requires t in s.threads
  {
    At(s, t, s.threads[t].(pc := pc))
  }

  function Acquire(s: State, t: nat, m: Mutex, pc: Pc): Outcome
    requires t in s.threads
  {
    if LockOf(s, m).None? then Jump(SetLock(s, m, Some(t)), t, pc) else Blocked
  }

  // Unlocking a mutex the thread does not hold is an error.
  function Release(s: State, t: nat, m: Mutex, th: Thread): Outcome {
    if LockOf(s, m) == Some(t) then At(SetLock(s, m, None), t, th) else Fault
  }

  function SetOwner(s: State, id: BlockId, o: Owner): State { s.(w := s.w.(own := s.w.own[id := o])) }

  // ---- calls ----

  // What callers must keep to: free and realloc get blocks their client holds, and realloc, which makes
  // no check of its own, gets a size that the mapping of a large block can hold.
  ghost function BeginStep(g: Geometry, s: State, t: nat, job: Job): Outcome
    requires t in s.threads
  {
    match job
    case Malloc(size) =>
      if size == 0 || size > PTRDIFF_MAX then Next(s) else At(s, t, IDLE.(pc := ReadFlag, job := job))
    case Free(id) =>
      if id in s.w.own && s.w.own[id] == Client then
        At(SetOwner(s, id, Held(t)), t, IDLE.(pc := ReadMeta, job := job))
      else Blocked
    case Realloc(id, size, before) =>
      if id in s.w.own && s.w.own[id] == Client && BLOCK_HEADER + WORD + size < ADDRESS_LIMIT
         && Exists(g, SpaceOf(s.w), id) && Mapped(s.w.mem, Ptr(g, id), Capacity(SpaceOf(s.w), id))
         && before == Bytes(s.w.mem, Ptr(g, id), Capacity(SpaceOf(s.w), id))
      then
        At(SetOwner(s, id, Held(t)), t, IDLE.(pc := ReadMeta, job := if size == 0 then Free(id) else job))
      else Blocked
  }

  // ---- malloc up to the section, and setup_global_heap ----

  ghost function SetupStep(g: Geometry, s: State, t: nat, ch: Choice): Outcome
    requires g.Sound() && t in s.threads
  {
    match s.threads[t].pc
    case ReadFlag => Jump(s, t, if s.initialized then LockAlloc else LockHeap)
    case LockHeap => Acquire(s, t, HeapMutex, RecheckFlag)
    case RecheckFlag => Jump(s, t, if s.initialized then UnlockHeap(true) else MakeTiny)
    case MakeTiny => SetupZone(g, s, t, Tiny, ch, MakeSmall)
    case MakeSmall => SetupZone(g, s, t, Small, ch, SetFlag)
    case SetFlag => Jump(s.(initialized := true), t, UnlockHeap(true))
    case UnlockHeap(ok) => Release(s, t, HeapMutex, if ok then s.threads[t].(pc := LockAlloc) else IDLE)
    case _ => Blocked
  }

  ghost function SetupZone(g: Geometry, s: State, t: nat, c: ZoneClass, ch: Choice, pc: Pc): Outcome
    requires g.Sound() && t in s.threads
  {
    if !(ch.Mmap? && Answer(s.w.mem, ch.r, g.Length(c))) then Blocked
    else
      match ch.r
      case None => Jump(s, t, UnlockHeap(false))
      case Some(a) => Jump(s.(w := JoinZone(g, s.w, c, a)), t, pc)
  }

  // ---- the allocation section ----

  function EnterAlloc(s: State, t: nat): Outcome
    requires t in s.threads
  {
    var job := s.threads[t].job;
    if job.Free? then Fault
    else
      match ClassOf(job.size)
      case Tiny => Acquire(s, t, ClassMutex(Tiny), ZoneAlloc(Tiny, s.w.tiny, PickBit))
      case Small => Acquire(s, t, ClassMutex(Small), ZoneAlloc(Small, s.w.small, PickBit))
      case Large => Acquire(s, t, ClassMutex(Large), LargeAlloc(s.w.large, FindFit))
  }

  ghost function ZoneAllocStep(g: Geometry, s: State, t: nat, c: ZoneClass, snap: Z.Pool, at: ZoneAllocAt, ch: Choice): Outcome
    requires g.Sound() && t in s.threads && !s.threads[t].job.Free?
  {
    var p := PoolOf(s.w, c);
    match at
    case PickBit =>
      if p.free == [] then Jump(s, t, ZoneAlloc(c, snap, AllocDone(None)))
      else if p.free[0] !in p.zones then Fault
      else
        var z := p.free[0];
        (match Z.FirstFree(p.zones[z].bits)
        case None => Jump(s, t, ZoneAlloc(c, snap, AllocDone(None)))
        case Some(k) =>
          if k >= |p.zones[z].requested| then Fault
          else
            var w1 := Take(s.w, c, z, k, s.threads[t].job.size, Held(t));
            var at1 := if PoolOf(w1, c).zones[z].freeCount == 0 then LeaveFree(z, k) else AllocDone(Some(InZone(c, z, k)));
            Jump(s.(w := w1), t, ZoneAlloc(c, snap, at1)))
    case LeaveFree(z, k) => Jump(s.(w := SetPool(s.w, c, Z.DetachFree(p, z))), t, ZoneAlloc(c, snap, EnterFull(z, k)))
    case EnterFull(z, k) => Jump(s.(w := SetPool(s.w, c, Z.AppendFull(p, z))), t, ZoneAlloc(c, snap, Refill(z, k)))
    case Refill(z, k) =>
      if !(ch.Mmap? && Answer(s.w.mem, ch.r, g.Length(c))) then Blocked
      else
        (match ch.r
         case None => Jump(SetOwner(s, InZone(c, z, k), Lost), t, ZoneAlloc(c, snap, AllocDone(None)))
         case Some(a) => Jump(s.(w := AddZone(g, s.w, c, a)), t, ZoneAlloc(c, snap, EnterFree(z, k, a))))
    case EnterFree(z, k, a) =>
      Jump(s.(w := SetPool(s.w, c, Z.AppendFree(p, a))), t, ZoneAlloc(c, snap, AllocDone(Some(InZone(c, z, k)))))
    case AllocDone(r) => LeaveAlloc(s, t, ClassMutex(c), r)
  }

  // The length create_block asks for, computed in a size_t.
  function MapLength(size: nat): nat { (BLOCK_HEADER + WORD + size) % ADDRESS_LIMIT }

  ghost function LargeAllocStep(g: Geometry, s: State, t: nat, snap: B.Store, at: LargeAllocAt, ch: Choice): Outcome
    requires g.Sound() && t in s.threads && !s.threads[t].job.Free?
  {
    var size := s.threads[t].job.size;
    match at
    case FindFit =>
      if !(forall b :: b in s.w.large.free ==> b in s.w.large.sizes) then Fault
      else
        (match B.FirstFit(s.w.large.free, s.w.large.sizes, size)
         case Some(b) => Jump(s.(w := Reuse(s.w, b, Held(t))), t, LargeAlloc(snap, EnterUsed(b)))
         case None =>
           if !(ch.Mmap? && Answer(s.w.mem, ch.r, MapLength(size))) then Blocked
           else
             match ch.r
             case None => Jump(s, t, LargeAlloc(snap, LargeAllocDone(None)))
             case Some(a) =>
               if MapLength(size) < BLOCK_HEADER + WORD + size then Fault
               else Jump(s.(w := AddBlock(s.w, a, size, Held(t))), t, LargeAlloc(snap, EnterUsed(a))))
    case EnterUsed(b) =>
      Jump(s.(w := s.w.(large := B.AppendFull(s.w.large, b))), t, LargeAlloc(snap, LargeAllocDone(Some(Big(b)))))
    case LargeAllocDone(r) => LeaveAlloc(s, t, ClassMutex(Large), r)
  }

  // malloc returns here; realloc goes on to copy, or gives up and leaves the old block to its client.
  function LeaveAlloc(s: State, t: nat, m: Mutex, r: Option<BlockId>): Outcome
    requires t in s.threads
  {
    var th := s.threads[t];
    match th.job
    case Malloc(_) =>
      if r.Some? then Release(SetOwner(s, r.value, Client), t, m, IDLE) else Release(s, t, m, IDLE)
    case Realloc(id, _, _) =>
      if r.Some? then Release(s, t, m, th.(pc := Copying(0), target := r)) else Release(SetOwner(s, id, Client), t, m, IDLE)
    case Free(_) => Fault
  }

  // ---- ft_memcpy in realloc, with no lock held ----

  function CopyStep(g: Geometry, s: State, t: nat, i: nat): Outcome
    requires t in s.threads
  {
    var th := s.threads[t];
    if th.job.Malloc? || th.target.None? then Fault
    else if i >= th.oldSize then Jump(s, t, LockFree(th.oldClass))
    else
      var src, dst := Ptr(g, th.job.id) + i, Ptr(g, th.target.value) + i;
      if src !in s.w.mem || dst !in s.w.mem then Fault
      else Jump(s.(w := s.w.(mem := s.w.mem[dst := s.w.mem[src]])), t, Copying(i + 1))
  }

  // ---- the unlocked reads of free and realloc ----

  function ReadMetaStep(g: Geometry, s: State, t: nat): Outcome
    requires t in s.threads
  {
    var job := s.threads[t].job;
    if job.Malloc? then Fault
    else if exists a :: Ptr(g, job.id) - WORD <= a < Ptr(g, job.id) && a !in s.w.mem then Fault
    else Jump(s, t, ReadHeader(LoadWord(s.w.mem, Ptr(g, job.id) - WORD)))
  }

  // The type field, and for realloc the capacity, of the structure the meta word names.
  function HeaderAt(s: State, meta: nat): Option<Struct> {
    var base := if MetaIsZone(meta) then MetaZone(meta) else meta;
    if base !in SpaceOf(s.w) || SpaceOf(s.w)[base].ZoneAt? != MetaIsZone(meta) then None else Some(SpaceOf(s.w)[base])
  }

  function StructClass(h: Struct): SizeClass { if h.ZoneAt? then h.c else Large }
  function StructSize(h: Struct): nat { if h.ZoneAt? then BlockSize(h.c) else h.size }

  function ReadHeaderStep(s: State, t: nat, meta: nat): Outcome
    requires t in s.threads
  {
    var th := s.threads[t];
    match HeaderAt(s, meta)
    case None => Fault
    case Some(h) =>
      match th.job
      case Malloc(_) => Fault
      case Free(_) => Jump(s, t, LockFree(StructClass(h)))
      case Realloc(id, size, _) =>
        if size <= StructSize(h) then At(SetOwner(s, id, Client), t, IDLE)
        else At(s, t, th.(pc := LockAlloc, oldClass := StructClass(h), oldSize := StructSize(h)))
  }

  // ---- the free section ----

  function EnterFreeSection(s: State, t: nat, c: SizeClass): Outcome
    requires t in s.threads
  {
    match c
    case Tiny => Acquire(s, t, ClassMutex(Tiny), ZoneFree(Tiny, s.w.tiny, SetBit))
    case Small => Acquire(s, t, ClassMutex(Small), ZoneFree(Small, s.w.small, SetBit))
    case Large => Acquire(s, t, ClassMutex(Large), LargeFree(s.w.large, Unlink))
  }

  // free_ptr reads the meta word again, now under the lock.
  function MetaUnderLock(g: Geometry, s: State, id: BlockId): Option<nat> {
    if exists a :: Ptr(g, id) - WORD <= a < Ptr(g, id) && a !in s.w.mem then None
    else Some(LoadWord(s.w.mem, Ptr(g, id) - WORD))
  }

  function ZoneFreeStep(g: Geometry, s: State, t: nat, c: ZoneClass, snap: Z.Pool, at: ZoneFreeAt): Outcome
    requires t in s.threads && !s.threads[t].job.Malloc?
  {
    var p := PoolOf(s.w, c);
    match at
    case SetBit =>
      (match MetaUnderLock(g, s, s.threads[t].job.id)
       case None => Fault
       case Some(meta) =>
         var z, k := MetaZone(meta), MetaBlockNum(meta);
         if !MetaIsZone(meta) || z !in p.zones || k >= |p.zones[z].bits| then Fault
         else
           var w1 := Give(s.w, c, z, k);
           var p1 := PoolOf(w1, c);
           var at1 :=
             if p1.zones[z].freeCount == |p1.zones[z].bits| then (if Z.Linked(p1, z) then LeaveEmpty(z) else FreeDone)
             else if p1.zones[z].freeCount == 1 then LeaveFull(z)
             else FreeDone;
           Jump(s.(w := w1), t, ZoneFree(c, snap, at1)))
    case LeaveEmpty(z) => Jump(s.(w := SetPool(s.w, c, Z.DetachFree(p, z))), t, ZoneFree(c, snap, UnmapEmpty(z)))
    case UnmapEmpty(z) => Jump(s.(w := DropZone(g, s.w, c, z)), t, ZoneFree(c, snap, FreeDone))
    case LeaveFull(z) => Jump(s.(w := SetPool(s.w, c, Z.DetachFull(p, z))), t, ZoneFree(c, snap, Return(z)))
    case Return(z) => Jump(s.(w := SetPool(s.w, c, Z.AppendFree(p, z))), t, ZoneFree(c, snap, FreeDone))
    case FreeDone => LeaveFreeSection(s, t, ClassMutex(c))
  }

  function LargeFreeStep(g: Geometry, s: State, t: nat, snap: B.Store, at: LargeFreeAt): Outcome
    requires t in s.threads && !s.threads[t].job.Malloc?
  {
    match at
    case Unlink =>
      (match MetaUnderLock(g, s, s.threads[t].job.id)
       case None => Fault
       case Some(meta) =>
         if MetaIsZone(meta) || meta !in s.w.large.sizes then Fault
         else
           var at1 := if s.w.large.sizes[meta] > CACHE_LIMIT then UnmapLarge(meta) else Keep(meta);
           Jump(s.(w := s.w.(large := B.DetachFull(s.w.large, meta))), t, LargeFree(snap, at1)))
    case UnmapLarge(b) =>
      if b !in s.w.large.sizes then Fault
      else Jump(s.(w := DropBlock(s.w, b)), t, LargeFree(snap, LargeFreeDone))
    case Keep(b) => Jump(s.(w := Cache(s.w, b)), t, LargeFree(snap, LargeFreeDone))
    case LargeFreeDone => LeaveFreeSection(s, t, ClassMutex(Large))
  }

  // free returns; realloc returns its new block.
  function LeaveFreeSection(s: State, t: nat, m: Mutex): Outcome
    requires t in s.threads
  {
    match s.threads[t].target
    case Some(id) => Release(SetOwner(s, id, Client), t, m, IDLE)
    case None => Release(s, t, m, IDLE)
  }

  // ---- one step ----

  // A client may write at any moment inside a block that is in client hands.
  ghost function WriteStep(g: Geometry, s: State, id: BlockId, x: nat, v: byte): Outcome {
    if id in s.w.own && s.w.own[id] == Client && InPayload(g, SpaceOf(s.w), id, x) then
      if x in s.w.mem then Next(s.(w := s.w.(mem := s.w.mem[x := v]))) else Fault
    else Blocked
  }

  ghost function Step(g: Geometry, s: State, t: nat, ch: Choice): Outcome
    requires g.Sound()
  {
    if t !in s.threads then Blocked
    else if ch.Write? then WriteStep(g, s, ch.id, ch.x, ch.v)
    else
      var th := s.threads[t];
      match th.pc
      case Idle => if ch.Begin? then BeginStep(g, s, t, ch.job) else Blocked
      case LockAlloc => EnterAlloc(s, t)
      case ZoneAlloc(c, snap, at) => if th.job.Free? then Fault else ZoneAllocStep(g, s, t, c, snap, at, ch)
      case LargeAlloc(snap, at) => if th.job.Free? then Fault else LargeAllocStep(g, s, t, snap, at, ch)
      case Copying(i) => CopyStep(g, s, t, i)
      case ReadMeta => ReadMetaStep(g, s, t)
      case ReadHeader(meta) => ReadHeaderStep(s, t, meta)
      case LockFree(c) => EnterFreeSection(s, t, c)
      case ZoneFree(c, snap, at) => if th.job.Malloc? then Fault else ZoneFreeStep(g, s, t, c, snap, at)
      case LargeFree(snap, at) => if th.job.Malloc? then Fault else LargeFreeStep(g, s, t, snap, at)
      case _ => SetupStep(g, s, t, ch)
  }
}
