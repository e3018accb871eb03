/** Over whole executions: a locked section does to its class what one sequential malloc or free does,
    and a realloc that moves is a malloc, a copy and a free, whatever other threads do in between. */
module ThreadSections {
  import opened Sequences
  import opened Memory
  import opened Layout
  import opened Spaces
  import opened Worlds
  import opened Sections
  import opened Threads
  import opened ThreadInvariant
  import opened ThreadAlloc
  import opened ThreadTheorems
  import opened ThreadClients
  import Z = Zones
  import B = Blocks

  // Any moves of any threads, all successful, from a state that satisfies the invariant.
  ghost predicate Stretch(g: Geometry, moves: seq<Move>, states: seq<State>)
    requires g.Sound()
  {
    && |states| == |moves| + 1 && Inv(g, states[0])
    && forall i :: 0 <= i < |moves| ==> Step(g, states[i], moves[i].t, moves[i].ch) == Next(states[i + 1])
  }

  lemma {:induction false} StretchKeepsInv(g: Geometry, moves: seq<Move>, states: seq<State>, i: nat)
    requires g.Sound() && Stretch(g, moves, states) && i <= |moves|
    ensures Inv(g, states[i])
  {
    hide Inv, Step;
    if i > 0 {
      StretchKeepsInv(g, moves, states, i - 1);
      StepFine(g, states[i - 1], moves[i - 1].t, moves[i - 1].ch);
      assert Step(g, states[i - 1], moves[i - 1].t, moves[i - 1].ch) == Next(states[i]);
    }
  }

  // ---- moves of others, and moves of the thread itself ----

  // A move of another thread, or a client write.
  predicate Foreign(m: Move, t: nat) { m.t != t || m.ch.Write? }

  ghost predicate OnlyThread(s: State, o: Outcome, u: nat) {
    o.Next? ==>
      o.s.threads.Keys == s.threads.Keys && forall t :: t != u && t in s.threads ==> o.s.threads[t] == s.threads[t]
  }

  lemma SetupOwnThread(g: Geometry, s: State, u: nat, ch: Choice)
    requires g.Sound() && u in s.threads
    ensures OnlyThread(s, SetupStep(g, s, u, ch), u)
  {}

  lemma BeginOwnThread(g: Geometry, s: State, u: nat, job: Job)
    requires u in s.threads
    ensures OnlyThread(s, BeginStep(g, s, u, job), u)
  {
    hide Exists, Mapped, Capacity;
  }

  lemma UnlockedOwnThread(g: Geometry, s: State, u: nat)
    requires u in s.threads
    ensures OnlyThread(s, EnterAlloc(s, u), u) && OnlyThread(s, ReadMetaStep(g, s, u), u)
    ensures forall i :: OnlyThread(s, CopyStep(g, s, u, i), u)
    ensures forall meta :: OnlyThread(s, ReadHeaderStep(s, u, meta), u)
    ensures forall c :: OnlyThread(s, EnterFreeSection(s, u, c), u)
  {}

  // The section a program counter is in, with its snapshot.
  predicate SameSection(pc: Pc, pc': Pc) {
    match pc
    case ZoneAlloc(c, snap, _) => pc'.ZoneAlloc? && pc'.c == c && pc'.pool == snap
    case ZoneFree(c, snap, _) => pc'.ZoneFree? && pc'.c == c && pc'.pool == snap
    case LargeAlloc(snap, _) => pc'.LargeAlloc? && pc'.store == snap
    case LargeFree(snap, _) => pc'.LargeFree? && pc'.store == snap
    case _ => false
  }

  // The thread stays in its section with the same snapshot and the same call, or unlocks it.
  ghost predicate StaysOrLeaves(s: State, o: Outcome, t: nat)
    requires t in s.threads
  {
    o.Next? ==>
      && t in o.s.threads
      && (InSection(o.s.threads[t].pc) ==>
            SameSection(s.threads[t].pc, o.s.threads[t].pc) && o.s.threads[t] == s.threads[t].(pc := o.s.threads[t].pc))
  }

  lemma LeaveAllocOwnThread(s: State, t: nat, m: Mutex, r: Option<BlockId>)
    requires t in s.threads
    ensures var o := LeaveAlloc(s, t, m, r); OnlyThread(s, o, t) && (o.Next? ==> t in o.s.threads && !InSection(o.s.threads[t].pc))
  {}

  lemma ZoneAllocOwnThread(g: Geometry, s: State, t: nat, c: ZoneClass, snap: Z.Pool, at: ZoneAllocAt, ch: Choice)
    requires g.Sound() && t in s.threads && !s.threads[t].job.Free? && s.threads[t].pc == ZoneAlloc(c, snap, at)
    ensures var o := ZoneAllocStep(g, s, t, c, snap, at, ch); OnlyThread(s, o, t) && StaysOrLeaves(s, o, t)
  {
    hide AddZone, Take, Answer, Z.FirstFree, SetPool, LeaveAlloc;
    LeaveAllocOwnThread(s, t, ClassMutex(c), if at.AllocDone? then at.r else None);
  }

  lemma LargeAllocOwnThread(g: Geometry, s: State, t: nat, snap: B.Store, at: LargeAllocAt, ch: Choice)
    requires g.Sound() && t in s.threads && !s.threads[t].job.Free? && s.threads[t].pc == LargeAlloc(snap, at)
    ensures var o := LargeAllocStep(g, s, t, snap, at, ch); OnlyThread(s, o, t) && StaysOrLeaves(s, o, t)
  {
    hide AddBlock, Reuse, Answer, B.FirstFit, MapLength, LeaveAlloc;
    LeaveAllocOwnThread(s, t, ClassMutex(Large), if at.LargeAllocDone? then at.r else None);
  }

  lemma ZoneFreeOwnThread(g: Geometry, s: State, t: nat, c: ZoneClass, snap: Z.Pool, at: ZoneFreeAt)
    requires t in s.threads && !s.threads[t].job.Malloc? && s.threads[t].pc == ZoneFree(c, snap, at)
    ensures var o := ZoneFreeStep(g, s, t, c, snap, at); OnlyThread(s, o, t) && StaysOrLeaves(s, o, t)
  {
    hide DropZone, MetaUnderLock, Z.Linked;
  }

  lemma LargeFreeOwnThread(g: Geometry, s: State, t: nat, snap: B.Store, at: LargeFreeAt)
    requires t in s.threads && !s.threads[t].job.Malloc? && s.threads[t].pc == LargeFree(snap, at)
    ensures var o := LargeFreeStep(g, s, t, snap, at); OnlyThread(s, o, t) && StaysOrLeaves(s, o, t)
  {
    hide DropBlock, Cache, MetaUnderLock;
  }

  // A step of u changes no other thread; inside a section it stays there or unlocks.
  lemma OwnThread(g: Geometry, s: State, u: nat, ch: Choice)
    requires g.Sound()
    ensures OnlyThread(s, Step(g, s, u, ch), u)
    ensures u in s.threads && InSection(s.threads[u].pc) && !ch.Write? ==> StaysOrLeaves(s, Step(g, s, u, ch), u)
  {
    hide OnlyThread, StaysOrLeaves, BeginStep, SetupStep, EnterAlloc, ZoneAllocStep, LargeAllocStep, CopyStep, ReadMetaStep,
      ReadHeaderStep, EnterFreeSection, ZoneFreeStep, LargeFreeStep, WriteStep;
    NoThread(g, s, u, ch);
    if u in s.threads {
      var th := s.threads[u];
      SetupOwnThread(g, s, u, ch);
      if ch.Begin? { BeginOwnThread(g, s, u, ch.job); }
      UnlockedOwnThread(g, s, u);
      match th.pc
      case ZoneAlloc(c, snap, at) => if !th.job.Free? { ZoneAllocOwnThread(g, s, u, c, snap, at, ch); }
      case LargeAlloc(snap, at) => if !th.job.Free? { LargeAllocOwnThread(g, s, u, snap, at, ch); }
      case ZoneFree(c, snap, at) => if !th.job.Malloc? { ZoneFreeOwnThread(g, s, u, c, snap, at); }
      case LargeFree(snap, at) => if !th.job.Malloc? { LargeFreeOwnThread(g, s, u, snap, at); }
      case _ =>
    }
  }

  lemma NoThread(g: Geometry, s: State, u: nat, ch: Choice)
    ensures OnlyThread(s, Blocked, u) && OnlyThread(s, Fault, u)
    ensures ch.Write? ==> OnlyThread(s, WriteStep(g, s, ch.id, ch.x, ch.v), u)
    ensures u in s.threads ==> StaysOrLeaves(s, Blocked, u) && StaysOrLeaves(s, Fault, u)
  {}

  // Foreign moves leave the thread where it is, and the class whose mutex it holds.
  lemma ForeignMove(g: Geometry, s: State, m: Move, t: nat, s': State)
    requires g.Sound() && Inv(g, s) && t in s.threads && Foreign(m, t) && Step(g, s, m.t, m.ch) == Next(s')
    ensures t in s'.threads && s'.threads[t] == s.threads[t]
    ensures forall c: ZoneClass :: LockOf(s, ClassMutex(c)) == Some(t) ==> PoolOf(s'.w, c) == PoolOf(s.w, c)
    ensures LockOf(s, ClassMutex(Large)) == Some(t) ==> s'.w.large == s.w.large
  {
    hide Inv, OthersKept;
    if m.t == t {
      WriteMove(g, s, m, s');
    } else {
      hide Step;
      OwnThread(g, s, m.t, m.ch);
      StepFine(g, s, m.t, m.ch);
    }
  }

  lemma WriteMove(g: Geometry, s: State, m: Move, s': State)
    requires g.Sound() && m.ch.Write? && Step(g, s, m.t, m.ch) == Next(s')
    ensures s' == s.(w := s.w.(mem := s'.w.mem))
  {}

  // ---- whole sections ----

  // From the state in which t takes the mutex of a class to the state in which it has given it back,
  // with any moves of other threads in between.
  ghost predicate Section(g: Geometry, moves: seq<Move>, states: seq<State>, t: nat)
    requires g.Sound()
  {
    && Stretch(g, moves, states) && |moves| >= 2
    && t in states[0].threads && Holds(states[0].threads[t].pc).None?
    && (forall i :: 1 <= i < |moves| ==> t in states[i].threads && InSection(states[i].threads[t].pc))
    && t in states[|moves|].threads && Holds(states[|moves|].threads[t].pc).None?
  }

  // The snapshot at the unlock is the one taken at the lock, and the call is the same.
  lemma {:induction false} SectionKeeps(g: Geometry, moves: seq<Move>, states: seq<State>, t: nat, i: nat)
    requires g.Sound() && Section(g, moves, states, t) && 1 <= i < |moves|
    ensures Inv(g, states[1]) && Inv(g, states[i]) && t in states[1].threads && t in states[i].threads
    ensures SameSection(states[1].threads[t].pc, states[i].threads[t].pc)
    ensures states[i].threads[t] == states[1].threads[t].(pc := states[i].threads[t].pc)
  {
    hide Inv, Step;
    StretchKeepsInv(g, moves, states, 1);
    StretchKeepsInv(g, moves, states, i);
    if i > 1 {
      SectionKeeps(g, moves, states, t, i - 1);
      var m := moves[i - 1];
      assert Step(g, states[i - 1], m.t, m.ch) == Next(states[i]);
      if Foreign(m, t) {
        ForeignMove(g, states[i - 1], m, t, states[i]);
      } else {
        OwnThread(g, states[i - 1], t, m.ch);
      }
    }
  }

  lemma StartsWithAcquire(g: Geometry, moves: seq<Move>, states: seq<State>, t: nat)
    requires g.Sound() && Section(g, moves, states, t)
    ensures !Foreign(moves[0], t) && t in states[1].threads && states[1].w == states[0].w
    ensures states[1].threads[t] == states[0].threads[t].(pc := states[1].threads[t].pc)
    ensures match states[1].threads[t].pc
            case ZoneAlloc(c, snap, at) => snap == PoolOf(states[0].w, c) && at.PickBit?
            case ZoneFree(c, snap, at) => snap == PoolOf(states[0].w, c) && at.SetBit?
            case LargeAlloc(snap, at) => snap == states[0].w.large && at.FindFit?
            case LargeFree(snap, at) => snap == states[0].w.large && at.Unlink?
            case _ => false
  {
    hide Inv, Step;
    assert Step(g, states[0], moves[0].t, moves[0].ch) == Next(states[1]);
    if Foreign(moves[0], t) {
      ForeignMove(g, states[0], moves[0], t, states[1]);
    } else {
      SnapshotIsTheClass(g, states[0], t, moves[0].ch, states[1]);
    }
  }

  // ---- what mmap answered ----

  // One of the first n moves was the answer of mmap to t, and a legal one for len bytes.
  ghost predicate Asked(moves: seq<Move>, states: seq<State>, t: nat, n: nat, len: nat, a: Option<nat>)
    requires n <= |moves| < |states|
  {
    exists j :: 0 <= j < n && moves[j] == Move(t, Mmap(a)) && Answer(states[j].w.mem, a, len)
  }

  // The class, and the owner of a block that is lost, after the allocation with answer a.
  ghost predicate ZoneOutcome(g: Geometry, w: World, c: ZoneClass, snap: Z.Pool, size: nat, r: Option<BlockId>, a: Option<nat>) {
    Z.Valid(snap, g.Blocks(c)) && FreshFor(snap, a) &&
    var (p, taken) := Z.Alloc(snap, g.Blocks(c), size, a);
    && p == PoolOf(w, c) && ResultOf(c, taken) == r
    && (taken.Leaked? ==> var id := InZone(c, taken.zone, taken.index); id in w.own && w.own[id] == Lost)
  }

  lemma PickBitProgress(g: Geometry, s: State, t: nat, c: ZoneClass, snap: Z.Pool, ch: Choice, s': State)
    requires g.Sound() && Inv(g, s) && t in s.threads && s.threads[t].pc == ZoneAlloc(c, snap, PickBit)
    requires !s.threads[t].job.Free? && ZoneAllocStep(g, s, t, c, snap, PickBit, ch) == Next(s')
    ensures t in s'.threads
    ensures match s'.threads[t].pc
            case ZoneAlloc(_, _, AllocDone(r)) => !Z.FillsHead(snap) && ZoneOutcome(g, s'.w, c, snap, s.threads[t].job.size, r, None)
            case ZoneAlloc(_, _, at) => !at.EnterFree?
            case _ => true
  {
    hide Inv, WorldOk, Z.Valid, Z.Alloc, OldHeld, NewHeld, AllocatedFrom, LeaveAlloc, ZoneMemory, SpaceOf;
    InvThread(g, s, t);
    AllocCases(snap, g.Blocks(c), s.threads[t].job.size, None);
  }

  lemma RefillProgress(g: Geometry, s: State, t: nat, c: ZoneClass, snap: Z.Pool, z: nat, k: nat, ch: Choice, s': State)
    requires g.Sound() && Inv(g, s) && t in s.threads && s.threads[t].pc == ZoneAlloc(c, snap, Refill(z, k))
    requires !s.threads[t].job.Free? && ZoneAllocStep(g, s, t, c, snap, Refill(z, k), ch) == Next(s')
    ensures t in s'.threads
    ensures match s'.threads[t].pc
            case ZoneAlloc(_, _, EnterFree(_, _, a)) =>
              Z.FillsHead(snap) && ch == Mmap(Some(a)) && Answer(s.w.mem, Some(a), g.Length(c))
            case ZoneAlloc(_, _, AllocDone(r)) =>
              && ch == Mmap(None) && Answer(s.w.mem, None, g.Length(c))
              && ZoneOutcome(g, s'.w, c, snap, s.threads[t].job.size, r, None)
            case _ => true
  {
    hide Inv, WorldOk, Z.Valid, Z.Alloc, OldHeld, NewHeld, AllocatedFrom, LeaveAlloc, ZoneMemory, SpaceOf;
    InvThread(g, s, t);
    AllocCases(snap, g.Blocks(c), s.threads[t].job.size, None);
  }

  lemma EnterFreeProgress(g: Geometry, s: State, t: nat, c: ZoneClass, snap: Z.Pool, z: nat, k: nat, a: nat, ch: Choice, s': State)
    requires g.Sound() && Inv(g, s) && t in s.threads && s.threads[t].pc == ZoneAlloc(c, snap, EnterFree(z, k, a))
    requires !s.threads[t].job.Free? && ZoneAllocStep(g, s, t, c, snap, EnterFree(z, k, a), ch) == Next(s')
    ensures t in s'.threads
    ensures match s'.threads[t].pc
            case ZoneAlloc(_, _, AllocDone(r)) => ZoneOutcome(g, s'.w, c, snap, s.threads[t].job.size, r, Some(a))
            case ZoneAlloc(_, _, at) => !at.EnterFree?
            case _ => true
  {
    hide Inv, WorldOk, Z.Valid, Z.Alloc, OldHeld, NewHeld, AllocatedFrom, LeaveAlloc, ZoneMemory, SpaceOf;
    InvThread(g, s, t);
    AllocCases(snap, g.Blocks(c), s.threads[t].job.size, Some(a));
  }

  lemma ZoneAllocProgress(g: Geometry, s: State, t: nat, c: ZoneClass, snap: Z.Pool, at: ZoneAllocAt, ch: Choice, s': State)
    requires g.Sound() && Inv(g, s) && t in s.threads && s.threads[t].pc == ZoneAlloc(c, snap, at) && !at.AllocDone?
    requires !s.threads[t].job.Free? && ZoneAllocStep(g, s, t, c, snap, at, ch) == Next(s')
    ensures t in s'.threads
    ensures var size := s.threads[t].job.size;
            match s'.threads[t].pc
            case ZoneAlloc(_, _, EnterFree(_, _, a)) =>
              Z.FillsHead(snap) && ch == Mmap(Some(a)) && Answer(s.w.mem, Some(a), g.Length(c))
            case ZoneAlloc(_, _, AllocDone(r)) =>
              || (!Z.FillsHead(snap) && ZoneOutcome(g, s'.w, c, snap, size, r, None))
              || (ch == Mmap(None) && Answer(s.w.mem, None, g.Length(c)) && ZoneOutcome(g, s'.w, c, snap, size, r, None))
              || (at.EnterFree? && ZoneOutcome(g, s'.w, c, snap, size, r, Some(at.a)))
            case _ => true
  {
    hide Inv, ZoneOutcome;
    match at
    case PickBit => PickBitProgress(g, s, t, c, snap, ch, s');
    case Refill(z, k) => RefillProgress(g, s, t, c, snap, z, k, ch, s');
    case EnterFree(z, k, a) => EnterFreeProgress(g, s, t, c, snap, z, k, a, ch, s');
    case _ =>
  }

  // The large class after the allocation with answer a.
  ghost predicate LargeOutcome(st: B.Store, snap: B.Store, size: nat, r: Option<nat>, a: Option<nat>) {
    B.Valid(snap) && FreshBlockFor(snap, a) && B.Alloc(snap, size, a) == (st, r)
  }

  // No cached block fits, so the section has to ask mmap.
  ghost predicate NeedsBlock(snap: B.Store, size: nat) {
    (forall b :: b in snap.free ==> b in snap.sizes) && B.FirstFit(snap.free, snap.sizes, size).None?
  }

  function BaseOf(r: Option<BlockId>): Option<nat> {
    match r
    case Some(Big(b)) => Some(b)
    case _ => None
  }

  lemma LargeAllocProgress(g: Geometry, s: State, t: nat, snap: B.Store, at: LargeAllocAt, ch: Choice, s': State)
    requires g.Sound() && Inv(g, s) && t in s.threads && s.threads[t].pc == LargeAlloc(snap, at) && !at.LargeAllocDone?
    requires !s.threads[t].job.Free? && LargeAllocStep(g, s, t, snap, at, ch) == Next(s')
    ensures t in s'.threads
    ensures var size := s.threads[t].job.size;
            match s'.threads[t].pc
            case LargeAlloc(_, EnterUsed(b)) =>
              || (!NeedsBlock(snap, size) && LargeOutcome(B.AppendFull(s'.w.large, b), snap, size, Some(b), None))
              || (ch == Mmap(Some(b)) && Answer(s.w.mem, Some(b), BLOCK_HEADER + WORD + size)
                  && LargeOutcome(B.AppendFull(s'.w.large, b), snap, size, Some(b), Some(b)))
            case LargeAlloc(_, LargeAllocDone(r)) =>
              if at.EnterUsed? then r == Some(Big(at.b)) && s'.w.large == B.AppendFull(s.w.large, at.b)
              else r == None && ch == Mmap(None) && LargeOutcome(s'.w.large, snap, size, None, None)
            case _ => true
  {
    hide Inv, OldHeld, NewHeld, LargeAllocatedFrom, SpaceOk, KeysApart, Shaped, OwnExact, MapLength, BlockMemory, Capacity, Exists;
    var th := s.threads[t];
    InvThread(g, s, t);
    MapLengthIs(g, s, t, th);
    if at.FindFit? && ch.Mmap? && ch.r.Some? && Answer(s.w.mem, ch.r, BLOCK_HEADER + WORD + th.job.size) {
      NoBlockThere(g, s.w, ch.r.value, BLOCK_HEADER + WORD + th.job.size);
    }
  }

  // What is known of the answer at each place of the section.
  ghost predicate AnswerKnown(g: Geometry, moves: seq<Move>, states: seq<State>, t: nat, i: nat)
    requires i <= |moves| < |states| && t in states[i].threads
  {
    var s, job := states[i], states[i].threads[t].job;
    match s.threads[t].pc
    case ZoneAlloc(c, snap, EnterFree(_, _, a)) => Z.FillsHead(snap) && Asked(moves, states, t, i, g.Length(c), Some(a))
    case ZoneAlloc(c, snap, AllocDone(r)) =>
      !job.Free? && exists a: Option<nat> ::
        ZoneOutcome(g, s.w, c, snap, job.size, r, a) && (Z.FillsHead(snap) ==> Asked(moves, states, t, i, g.Length(c), a))
    case LargeAlloc(snap, EnterUsed(b)) =>
      !job.Free? && exists a: Option<nat> ::
        && LargeOutcome(B.AppendFull(s.w.large, b), snap, job.size, Some(b), a)
        && (NeedsBlock(snap, job.size) ==> Asked(moves, states, t, i, BLOCK_HEADER + WORD + job.size, a))
    case LargeAlloc(snap, LargeAllocDone(r)) =>
      !job.Free? && exists a: Option<nat> ::
        && LargeOutcome(s.w.large, snap, job.size, BaseOf(r), a)
        && (NeedsBlock(snap, job.size) ==> Asked(moves, states, t, i, BLOCK_HEADER + WORD + job.size, a))
    case _ => true
  }

  lemma AskedStill(moves: seq<Move>, states: seq<State>, t: nat, n: nat, m: nat, len: nat, a: Option<nat>)
    requires n <= m <= |moves| < |states| && Asked(moves, states, t, n, len, a)
    ensures Asked(moves, states, t, m, len, a)
  {}

  lemma JustAsked(moves: seq<Move>, states: seq<State>, t: nat, n: nat, len: nat, a: Option<nat>)
    requires n < |moves| < |states| && moves[n] == Move(t, Mmap(a)) && Answer(states[n].w.mem, a, len)
    ensures Asked(moves, states, t, n + 1, len, a)
  {}

  // A lost block stays lost.
  lemma LostStays(g: Geometry, s: State, m: Move, s': State, id: BlockId)
    requires g.Sound() && Inv(g, s) && Step(g, s, m.t, m.ch) == Next(s') && id in s.w.own && s.w.own[id] == Lost
    ensures id in s'.w.own && s'.w.own[id] == Lost
  {
    hide Inv, Step;
    StepTransfersOneBlock(g, s, m.t, m.ch);
  }

  lemma ForeignKeepsAnswer(g: Geometry, moves: seq<Move>, states: seq<State>, t: nat, i: nat)
    requires g.Sound() && Section(g, moves, states, t) && 1 <= i < |moves| - 1 && Foreign(moves[i], t)
    requires t in states[i].threads && AnswerKnown(g, moves, states, t, i)
    ensures t in states[i + 1].threads && AnswerKnown(g, moves, states, t, i + 1)
  {
    hide Inv, Step, Asked, LargeOutcome, NeedsBlock, SameSection, Z.Valid, Z.Alloc;
    var s, s' := states[i], states[i + 1];
    assert Step(g, s, moves[i].t, moves[i].ch) == Next(s');
    StretchKeepsInv(g, moves, states, i);
    ForeignMove(g, s, moves[i], t, s');
    HoldsItsClass(g, s, t);
    var job := s.threads[t].job;
    match s.threads[t].pc
    case ZoneAlloc(c, snap, EnterFree(_, _, a)) => AskedStill(moves, states, t, i, i + 1, g.Length(c), Some(a));
    case ZoneAlloc(c, snap, AllocDone(r)) =>
      var a: Option<nat> :|
        ZoneOutcome(g, s.w, c, snap, job.size, r, a) && (Z.FillsHead(snap) ==> Asked(moves, states, t, i, g.Length(c), a));
      if Z.FillsHead(snap) { AskedStill(moves, states, t, i, i + 1, g.Length(c), a); }
      var taken := Z.Alloc(snap, g.Blocks(c), job.size, a).1;
      if taken.Leaked? { LostStays(g, s, moves[i], s', InZone(c, taken.zone, taken.index)); }
      assert ZoneOutcome(g, s'.w, c, snap, job.size, r, a);
    case LargeAlloc(snap, EnterUsed(b)) =>
      var a: Option<nat> :|
        && LargeOutcome(B.AppendFull(s.w.large, b), snap, job.size, Some(b), a)
        && (NeedsBlock(snap, job.size) ==> Asked(moves, states, t, i, BLOCK_HEADER + WORD + job.size, a));
      if NeedsBlock(snap, job.size) { AskedStill(moves, states, t, i, i + 1, BLOCK_HEADER + WORD + job.size, a); }
    case LargeAlloc(snap, LargeAllocDone(r)) =>
      var a: Option<nat> :|
        && LargeOutcome(s.w.large, snap, job.size, BaseOf(r), a)
        && (NeedsBlock(snap, job.size) ==> Asked(moves, states, t, i, BLOCK_HEADER + WORD + job.size, a));
      if NeedsBlock(snap, job.size) { AskedStill(moves, states, t, i, i + 1, BLOCK_HEADER + WORD + job.size, a); }
    case _ =>
  }

  lemma HoldsItsClass(g: Geometry, s: State, t: nat)
    requires Inv(g, s) && t in s.threads && InSection(s.threads[t].pc)
    ensures LockOf(s, Holds(s.threads[t].pc).value) == Some(t)
  {
    hide WorldOk, UnlockedClassesOk, QuietStart, ThreadOk;
  }

  lemma ZoneAllocIs(g: Geometry, s: State, t: nat, ch: Choice)
    requires g.Sound() && t in s.threads && s.threads[t].pc.ZoneAlloc? && !s.threads[t].job.Free? && !ch.Write?
    ensures var pc := s.threads[t].pc; Step(g, s, t, ch) == ZoneAllocStep(g, s, t, pc.c, pc.pool, pc.za, ch)
  {
    hide ZoneAllocStep;
  }

  lemma LargeAllocIs(g: Geometry, s: State, t: nat, ch: Choice)
    requires g.Sound() && t in s.threads && s.threads[t].pc.LargeAlloc? && !s.threads[t].job.Free? && !ch.Write?
    ensures var pc := s.threads[t].pc; Step(g, s, t, ch) == LargeAllocStep(g, s, t, pc.store, pc.la, ch)
  {
    hide LargeAllocStep;
  }

  lemma OwnZoneAnswer(g: Geometry, moves: seq<Move>, states: seq<State>, t: nat, i: nat)
    requires g.Sound() && Section(g, moves, states, t) && 1 <= i < |moves| - 1 && !Foreign(moves[i], t)
    requires t in states[i].threads && states[i].threads[t].pc.ZoneAlloc? && AnswerKnown(g, moves, states, t, i)
    ensures t in states[i + 1].threads && AnswerKnown(g, moves, states, t, i + 1)
  {
    hide Inv, Step, Asked, ZoneOutcome, ZoneAllocStep, LargeOutcome, NeedsBlock;
    var s, s', ch := states[i], states[i + 1], moves[i].ch;
    assert Step(g, s, t, ch) == Next(s');
    StretchKeepsInv(g, moves, states, i);
    SectionKeeps(g, moves, states, t, i);
    SectionKeeps(g, moves, states, t, i + 1);
    var pc := s.threads[t].pc;
    AllocDoneLeaves(g, s, t, ch, s');
    ZoneAllocIs(g, s, t, ch);
    ZoneAllocProgress(g, s, t, pc.c, pc.pool, pc.za, ch, s');
    var len := g.Length(pc.c);
    if ch.Mmap? && Answer(s.w.mem, ch.r, len) { JustAsked(moves, states, t, i, len, ch.r); }
    if pc.za.EnterFree? { AskedStill(moves, states, t, i, i + 1, len, Some(pc.za.a)); }
  }

  lemma OwnLargeAnswer(g: Geometry, moves: seq<Move>, states: seq<State>, t: nat, i: nat)
    requires g.Sound() && Section(g, moves, states, t) && 1 <= i < |moves| - 1 && !Foreign(moves[i], t)
    requires t in states[i].threads && states[i].threads[t].pc.LargeAlloc? && AnswerKnown(g, moves, states, t, i)
    ensures t in states[i + 1].threads && AnswerKnown(g, moves, states, t, i + 1)
  {
    hide Inv, Step, Asked, ZoneOutcome, LargeAllocStep, LargeOutcome, NeedsBlock;
    var s, s', ch := states[i], states[i + 1], moves[i].ch;
    assert Step(g, s, t, ch) == Next(s');
    StretchKeepsInv(g, moves, states, i);
    SectionKeeps(g, moves, states, t, i);
    SectionKeeps(g, moves, states, t, i + 1);
    AllocDoneLeaves(g, s, t, ch, s');
    var pc, size := s.threads[t].pc, s.threads[t].job.size;
    LargeAllocIs(g, s, t, ch);
    LargeAllocProgress(g, s, t, pc.store, pc.la, ch, s');
    var len := BLOCK_HEADER + WORD + size;
    if ch.Mmap? && Answer(s.w.mem, ch.r, len) { JustAsked(moves, states, t, i, len, ch.r); }
    assert BaseOf(None) == None;
    if pc.la.EnterUsed? {
      var a: Option<nat> :|
        && LargeOutcome(B.AppendFull(s.w.large, pc.la.b), pc.store, size, Some(pc.la.b), a)
        && (NeedsBlock(pc.store, size) ==> Asked(moves, states, t, i, len, a));
      if NeedsBlock(pc.store, size) { AskedStill(moves, states, t, i, i + 1, len, a); }
      assert BaseOf(Some(Big(pc.la.b))) == Some(pc.la.b);
      assert s'.threads[t].pc.la.LargeAllocDone? ==> LargeOutcome(s'.w.large, pc.store, size, BaseOf(s'.threads[t].pc.la.r), a);
    }
  }

  // The unlock leaves the section.
  lemma AllocDoneLeaves(g: Geometry, s: State, t: nat, ch: Choice, s': State)
    requires g.Sound() && t in s.threads && !ch.Write? && Step(g, s, t, ch) == Next(s')
    requires t in s'.threads && InSection(s'.threads[t].pc)
    ensures s.threads[t].pc.ZoneAlloc? ==> !s.threads[t].pc.za.AllocDone? && !s.threads[t].job.Free?
    ensures s.threads[t].pc.LargeAlloc? ==> !s.threads[t].pc.la.LargeAllocDone? && !s.threads[t].job.Free?
  {}

  lemma {:induction false} AnswerAlwaysKnown(g: Geometry, moves: seq<Move>, states: seq<State>, t: nat, i: nat)
    requires g.Sound() && Section(g, moves, states, t) && 1 <= i < |moves|
    ensures t in states[i].threads && AnswerKnown(g, moves, states, t, i)
  {
    hide Inv, Step, AnswerKnown;
    StartsWithAcquire(g, moves, states, t);
    if i == 1 {
      NothingAsked(g, moves, states, t);
    } else {
      AnswerAlwaysKnown(g, moves, states, t, i - 1);
      if Foreign(moves[i - 1], t) {
        ForeignKeepsAnswer(g, moves, states, t, i - 1);
      } else if states[i - 1].threads[t].pc.ZoneAlloc? {
        OwnZoneAnswer(g, moves, states, t, i - 1);
      } else if states[i - 1].threads[t].pc.LargeAlloc? {
        OwnLargeAnswer(g, moves, states, t, i - 1);
      } else {
        SectionKeeps(g, moves, states, t, i - 1);
        SectionKeeps(g, moves, states, t, i);
        NoAnswerInFree(g, moves, states, t, i);
      }
    }
  }

  lemma NothingAsked(g: Geometry, moves: seq<Move>, states: seq<State>, t: nat)
    requires 1 <= |moves| < |states| && t in states[1].threads
    requires match states[1].threads[t].pc
             case ZoneAlloc(c, snap, at) => at.PickBit?
             case LargeAlloc(snap, at) => at.FindFit?
             case _ => true
    ensures AnswerKnown(g, moves, states, t, 1)
  {}

  lemma NoAnswerInFree(g: Geometry, moves: seq<Move>, states: seq<State>, t: nat, i: nat)
    requires i <= |moves| < |states| && t in states[i].threads
    requires !states[i].threads[t].pc.ZoneAlloc? && !states[i].threads[t].pc.LargeAlloc?
    ensures AnswerKnown(g, moves, states, t, i)
  {}

  // ---- the end of a section ----

  lemma ZoneAllocUnlock(g: Geometry, s: State, t: nat, c: ZoneClass, snap: Z.Pool, at: ZoneAllocAt, ch: Choice, s': State)
    requires g.Sound() && t in s.threads && !s.threads[t].job.Free? && ZoneAllocStep(g, s, t, c, snap, at, ch) == Next(s')
    ensures !at.AllocDone? ==> t in s'.threads && InSection(s'.threads[t].pc)
  {
    hide AddZone, Take, Answer, Z.FirstFree, LeaveAlloc;
  }

  lemma LargeAllocUnlock(g: Geometry, s: State, t: nat, snap: B.Store, at: LargeAllocAt, ch: Choice, s': State)
    requires g.Sound() && t in s.threads && !s.threads[t].job.Free? && LargeAllocStep(g, s, t, snap, at, ch) == Next(s')
    ensures !at.LargeAllocDone? ==> t in s'.threads && InSection(s'.threads[t].pc)
  {
    hide AddBlock, Reuse, Answer, B.FirstFit, MapLength, LeaveAlloc;
  }

  lemma ZoneFreeUnlock(g: Geometry, s: State, t: nat, c: ZoneClass, snap: Z.Pool, at: ZoneFreeAt, s': State)
    requires t in s.threads && !s.threads[t].job.Malloc? && ZoneFreeStep(g, s, t, c, snap, at) == Next(s')
    ensures !at.FreeDone? ==> t in s'.threads && InSection(s'.threads[t].pc)
  {
    hide DropZone, MetaUnderLock, Z.Linked, LeaveFreeSection;
  }

  lemma LargeFreeUnlock(g: Geometry, s: State, t: nat, snap: B.Store, at: LargeFreeAt, s': State)
    requires t in s.threads && !s.threads[t].job.Malloc? && LargeFreeStep(g, s, t, snap, at) == Next(s')
    ensures !at.LargeFreeDone? ==> t in s'.threads && InSection(s'.threads[t].pc)
  {
    hide DropBlock, Cache, MetaUnderLock, LeaveFreeSection;
  }

  // A section is left only by its unlock.
  lemma UnlockEffect(g: Geometry, s: State, t: nat, ch: Choice, s': State)
    requires g.Sound() && t in s.threads && InSection(s.threads[t].pc) && !ch.Write? && Step(g, s, t, ch) == Next(s')
    requires t in s'.threads && !InSection(s'.threads[t].pc)
    ensures match s.threads[t].pc
            case ZoneAlloc(c, _, at) => at.AllocDone? && LeaveAlloc(s, t, ClassMutex(c), at.r) == Next(s')
            case LargeAlloc(_, at) => at.LargeAllocDone? && LeaveAlloc(s, t, ClassMutex(Large), at.r) == Next(s')
            case ZoneFree(c, _, at) => at.FreeDone? && LeaveFreeSection(s, t, ClassMutex(c)) == Next(s')
            case LargeFree(_, at) => at.LargeFreeDone? && LeaveFreeSection(s, t, ClassMutex(Large)) == Next(s')
    ensures !s.threads[t].job.Free? || s.threads[t].pc.ZoneFree? || s.threads[t].pc.LargeFree?
    ensures !s.threads[t].job.Malloc? || s.threads[t].pc.ZoneAlloc? || s.threads[t].pc.LargeAlloc?
  {
    hide BeginStep, SetupStep, EnterAlloc, CopyStep, ReadMetaStep, ReadHeaderStep, EnterFreeSection, WriteStep, ZoneAllocStep,
      LargeAllocStep, ZoneFreeStep, LargeFreeStep, LeaveAlloc, LeaveFreeSection;
    UnlockStep(g, s, t, ch);
    match s.threads[t].pc
    case ZoneAlloc(c, snap, at) => ZoneAllocUnlock(g, s, t, c, snap, at, ch, s');
    case LargeAlloc(snap, at) => LargeAllocUnlock(g, s, t, snap, at, ch, s');
    case ZoneFree(c, snap, at) => ZoneFreeUnlock(g, s, t, c, snap, at, s');
    case LargeFree(snap, at) => LargeFreeUnlock(g, s, t, snap, at, s');
  }

  lemma EndsWithUnlock(g: Geometry, moves: seq<Move>, states: seq<State>, t: nat)
    requires g.Sound() && Section(g, moves, states, t)
    ensures !Foreign(moves[|moves| - 1], t)
  {
    hide Inv, Step;
    var n := |moves| - 1;
    StretchKeepsInv(g, moves, states, n);
    assert Step(g, states[n], moves[n].t, moves[n].ch) == Next(states[n + 1]);
    if Foreign(moves[n], t) { ForeignMove(g, states[n], moves[n], t, states[n + 1]); }
  }

  // What the caller gets from an allocation: nothing, or a block that was nobody's when the mutex was
  // taken; malloc returns it, realloc goes on to copy into it.
  ghost predicate Delivered(w: World, s: State, t: nat, job: Job, r: Option<BlockId>)
    requires t in s.threads
  {
    match r
    case None => s.threads[t] == IDLE && (job.Realloc? ==> job.id in s.w.own && s.w.own[job.id] == Client)
    case Some(id) =>
      && id !in w.own && id in s.w.own
      && (job.Malloc? ==> s.threads[t] == IDLE && s.w.own[id] == Client)
      && (job.Realloc? ==>
            && s.threads[t].pc == Copying(0) && s.threads[t].target == r && s.threads[t].job == job
            && HeldBy(s.w, job.id, t) && HeldBy(s.w, id, t))
  }

  lemma LeaveAllocDelivers(g: Geometry, s: State, t: nat, m: Mutex, r: Option<BlockId>, w: World, s': State)
    requires Inv(g, s) && t in s.threads && AllocReady(g, s, t, s.threads[t])
    requires r.Some? ==> NewHeld(g, s, t, s.threads[t].job, r.value) && r.value !in w.own
    requires LeaveAlloc(s, t, m, r) == Next(s')
    ensures t in s'.threads && Delivered(w, s', t, s.threads[t].job, r)
    ensures s'.w == s.w.(own := s'.w.own)
    ensures forall id :: id in s.w.own && s.w.own[id] == Lost ==> id in s'.w.own && s'.w.own[id] == Lost
  {
    hide Inv, PayloadIs, Capacity, SpaceOf, Exists;
    if s.threads[t].job.Realloc? {
      ReallocLeaves(s, t, m, r, w, s');
    }
  }

  lemma ReallocLeaves(s: State, t: nat, m: Mutex, r: Option<BlockId>, w: World, s': State)
    requires t in s.threads && s.threads[t].job.Realloc? && HeldBy(s.w, s.threads[t].job.id, t)
    requires r.Some? ==> HeldBy(s.w, r.value, t) && r.value !in w.own
    requires LeaveAlloc(s, t, m, r) == Next(s')
    ensures t in s'.threads && Delivered(w, s', t, s.threads[t].job, r)
    ensures s'.w == s.w.(own := s'.w.own)
    ensures forall id :: id in s.w.own && s.w.own[id] == Lost ==> id in s'.w.own && s'.w.own[id] == Lost
  {}

  // ---- allocation of a zone block ----

  // Class c has gone from what it was when the mutex was taken to what the sequential find_free_block
  // makes of it; when that had to map a zone, with the answer that mmap gave to t in between.
  ghost predicate RanZoneAlloc(g: Geometry, moves: seq<Move>, states: seq<State>, t: nat, c: ZoneClass, size: nat, r: Option<BlockId>)
    requires |states| == |moves| + 1
  {
    var before, after, len := PoolOf(states[0].w, c), states[|moves|].w, g.Length(c);
    exists a: Option<nat> ::
      ZoneOutcome(g, after, c, before, size, r, a) && (Z.FillsHead(before) ==> Asked(moves, states, t, |moves|, len, a))
  }

  lemma ZoneAllocEnds(g: Geometry, s: State, t: nat, c: ZoneClass, snap: Z.Pool, r: Option<BlockId>)
    requires Inv(g, s) && t in s.threads && s.threads[t].pc == ZoneAlloc(c, snap, AllocDone(r))
    ensures AllocReady(g, s, t, s.threads[t]) && c == ClassOf(s.threads[t].job.size)
    ensures r.Some? ==> NewHeld(g, s, t, s.threads[t].job, r.value)
  {
    hide Inv, WorldOk, OldHeld, NewHeld, AllocatedFrom, Z.Valid;
    InvThread(g, s, t);
  }

  // The block picked was free when the mutex was taken, so nobody owned it.
  lemma PickedWasNobodys(g: Geometry, w: World, after: World, c: ZoneClass, size: nat, r: Option<BlockId>, a: Option<nat>)
    requires g.Sound() && WorldOk(g, w) && ZoneOutcome(g, after, c, PoolOf(w, c), size, r, a)
    ensures r.Some? ==> r.value !in w.own
  {
    hide Z.Alloc, Z.Valid;
    Z.AllocTakesOne(PoolOf(w, c), g.Blocks(c), size, a);
  }

  lemma ZoneAllocSection(g: Geometry, moves: seq<Move>, states: seq<State>, t: nat)
    requires g.Sound() && Section(g, moves, states, t) && states[1].threads[t].pc.ZoneAlloc?
    ensures var n, job, c := |moves|, states[0].threads[t].job, states[1].threads[t].pc.c;
            && !job.Free? && c == ClassOf(job.size)
            && SectionResult(states[n - 1].threads[t].pc).Some?
            && var r := SectionResult(states[n - 1].threads[t].pc).value;
               RanZoneAlloc(g, moves, states, t, c, job.size, r) && Delivered(states[0].w, states[n], t, job, r)
  {
    hide Inv, Step, Asked, Delivered, LeaveAlloc, ZoneOutcome, NewHeld, AllocReady;
    var n, c, snap := |moves|, states[1].threads[t].pc.c, states[1].threads[t].pc.pool;
    var s, s', job := states[n - 1], states[n], states[0].threads[t].job;
    StartsWithAcquire(g, moves, states, t);
    SectionKeeps(g, moves, states, t, n - 1);
    AnswerAlwaysKnown(g, moves, states, t, n - 1);
    EndsWithUnlock(g, moves, states, t);
    assert Step(g, s, t, moves[n - 1].ch) == Next(s');
    UnlockEffect(g, s, t, moves[n - 1].ch, s');
    var r := s.threads[t].pc.za.r;
    ZoneAllocEnds(g, s, t, c, snap, r);
    var a: Option<nat> :|
      ZoneOutcome(g, s.w, c, snap, job.size, r, a) && (Z.FillsHead(snap) ==> Asked(moves, states, t, n - 1, g.Length(c), a));
    InvWorld(g, states[0]);
    PickedWasNobodys(g, states[0].w, s.w, c, job.size, r, a);
    LeaveAllocDelivers(g, s, t, ClassMutex(c), r, states[0].w, s');
    OutcomeStays(g, s.w, s'.w, c, snap, job.size, r, a);
    if Z.FillsHead(snap) { AskedStill(moves, states, t, n - 1, n, g.Length(c), a); }
  }

  lemma OutcomeStays(g: Geometry, w: World, w': World, c: ZoneClass, snap: Z.Pool, size: nat, r: Option<BlockId>, a: Option<nat>)
    requires ZoneOutcome(g, w, c, snap, size, r, a) && w' == w.(own := w'.own)
    requires forall id :: id in w.own && w.own[id] == Lost ==> id in w'.own && w'.own[id] == Lost
    ensures ZoneOutcome(g, w', c, snap, size, r, a)
  {
    hide Z.Alloc, Z.Valid;
  }

  // ---- allocation of a large block ----

  ghost predicate RanLargeAlloc(moves: seq<Move>, states: seq<State>, t: nat, size: nat, r: Option<BlockId>)
    requires |states| == |moves| + 1
  {
    var before, after, len := states[0].w.large, states[|moves|].w.large, BLOCK_HEADER + WORD + size;
    && (r.Some? ==> r.value.Big?)
    && exists a: Option<nat> ::
         && LargeOutcome(after, before, size, BaseOf(r), a)
         && (NeedsBlock(before, size) ==> Asked(moves, states, t, |moves|, len, a))
  }

  lemma LargeAllocEnds(g: Geometry, s: State, t: nat, snap: B.Store, r: Option<BlockId>)
    requires Inv(g, s) && t in s.threads && s.threads[t].pc == LargeAlloc(snap, LargeAllocDone(r))
    ensures AllocReady(g, s, t, s.threads[t]) && ClassOf(s.threads[t].job.size) == Large && (r.Some? ==> r.value.Big?)
    ensures r.Some? ==> NewHeld(g, s, t, s.threads[t].job, r.value)
  {
    hide Inv, WorldOk, OldHeld, NewHeld, LargeAllocatedFrom, B.Valid;
    InvThread(g, s, t);
  }

  lemma LargeWasNobodys(g: Geometry, w: World, after: B.Store, size: nat, r: Option<BlockId>, a: Option<nat>)
    requires g.Sound() && WorldOk(g, w) && LargeOutcome(after, w.large, size, BaseOf(r), a) && ClassOf(size) == Large
    requires r.Some? ==> r.value.Big?
    ensures r.Some? ==> r.value !in w.own
  {
    hide B.Alloc;
    B.AllocFits(w.large, size, a);
  }

  lemma LargeAllocSection(g: Geometry, moves: seq<Move>, states: seq<State>, t: nat)
    requires g.Sound() && Section(g, moves, states, t) && states[1].threads[t].pc.LargeAlloc?
    ensures var n, job := |moves|, states[0].threads[t].job;
            && !job.Free? && ClassOf(job.size) == Large
            && SectionResult(states[n - 1].threads[t].pc).Some?
            && var r := SectionResult(states[n - 1].threads[t].pc).value;
               RanLargeAlloc(moves, states, t, job.size, r) && Delivered(states[0].w, states[n], t, job, r)
  {
    hide Inv, Step, Asked, Delivered, LeaveAlloc, LargeOutcome, NewHeld, AllocReady, NeedsBlock;
    var n, snap := |moves|, states[1].threads[t].pc.store;
    var s, s', job := states[n - 1], states[n], states[0].threads[t].job;
    StartsWithAcquire(g, moves, states, t);
    SectionKeeps(g, moves, states, t, n - 1);
    AnswerAlwaysKnown(g, moves, states, t, n - 1);
    EndsWithUnlock(g, moves, states, t);
    assert Step(g, s, t, moves[n - 1].ch) == Next(s');
    UnlockEffect(g, s, t, moves[n - 1].ch, s');
    var r := s.threads[t].pc.la.r;
    LargeAllocEnds(g, s, t, snap, r);
    var len := BLOCK_HEADER + WORD + job.size;
    var a: Option<nat> :|
      LargeOutcome(s.w.large, snap, job.size, BaseOf(r), a) && (NeedsBlock(snap, job.size) ==> Asked(moves, states, t, n - 1, len, a));
    InvWorld(g, states[0]);
    LargeWasNobodys(g, states[0].w, s.w.large, job.size, r, a);
    LeaveAllocDelivers(g, s, t, ClassMutex(Large), r, states[0].w, s');
    if NeedsBlock(snap, job.size) { AskedStill(moves, states, t, n - 1, n, len, a); }
  }

  // The allocation of any class, as a section that has run.
  ghost predicate RanAlloc(g: Geometry, moves: seq<Move>, states: seq<State>, t: nat, size: nat, r: Option<BlockId>)
    requires |states| == |moves| + 1
  {
    match ClassOf(size)
    case Large => RanLargeAlloc(moves, states, t, size, r)
    case Tiny => RanZoneAlloc(g, moves, states, t, Tiny, size, r)
    case Small => RanZoneAlloc(g, moves, states, t, Small, size, r)
  }

  // From the lock to the unlock, with any moves of others in between, an allocation section does what
  // the sequential allocation does for one legal answer of mmap, and hands the same block over.
  lemma AllocSection(g: Geometry, moves: seq<Move>, states: seq<State>, t: nat)
    requires g.Sound() && Section(g, moves, states, t)
    requires states[1].threads[t].pc.ZoneAlloc? || states[1].threads[t].pc.LargeAlloc?
    ensures var n, job := |moves|, states[0].threads[t].job;
            && !job.Free? && SectionResult(states[n - 1].threads[t].pc).Some?
            && var r := SectionResult(states[n - 1].threads[t].pc).value;
               RanAlloc(g, moves, states, t, job.size, r) && Delivered(states[0].w, states[n], t, job, r)
  {
    hide Inv, Step, RanZoneAlloc, RanLargeAlloc, Delivered;
    if states[1].threads[t].pc.ZoneAlloc? {
      ZoneAllocSection(g, moves, states, t);
    } else {
      LargeAllocSection(g, moves, states, t);
    }
  }

  // ---- free ----

  // Class of the block has gone to what the sequential free makes of it, and nobody owns the block.
  ghost predicate RanFree(g: Geometry, before: World, after: World, id: BlockId) {
    && id in before.own && id !in after.own
    && match id
       case InZone(c, z, k) =>
         && Z.Valid(PoolOf(before, c), g.Blocks(c)) && Z.Allocated(PoolOf(before, c), z, k)
         && PoolOf(after, c) == Z.Free(PoolOf(before, c), g.Blocks(c), z, k).0
       case Big(b) => B.Valid(before.large) && b in before.large.sizes && after.large == B.Free(before.large, b).0
  }

  lemma ZoneFreeEnds(g: Geometry, s: State, t: nat, c: ZoneClass, snap: Z.Pool)
    requires g.Sound() && Inv(g, s) && t in s.threads && s.threads[t].pc == ZoneFree(c, snap, FreeDone) && !s.threads[t].job.Malloc?
    ensures ResultReady(g, s, t, s.threads[t])
    ensures var id := s.threads[t].job.id;
            && id.InZone? && id.c == c && Z.Valid(snap, g.Blocks(c)) && Z.Allocated(snap, id.zone, id.index)
            && PoolOf(s.w, c) == Z.Free(snap, g.Blocks(c), id.zone, id.index).0 && id !in s.w.own
  {
    hide Inv, Z.Valid, Z.Free, ResultReady, SpaceOk, KeysApart, Shaped;
    var id := s.threads[t].job.id;
    InvThread(g, s, t);
    Z.FreeGivesOne(snap, g.Blocks(c), id.zone, id.index);
  }

  lemma LargeFreeEnds(g: Geometry, s: State, t: nat, snap: B.Store)
    requires g.Sound() && Inv(g, s) && t in s.threads && s.threads[t].pc == LargeFree(snap, LargeFreeDone) && !s.threads[t].job.Malloc?
    ensures ResultReady(g, s, t, s.threads[t])
    ensures var id := s.threads[t].job.id;
            && id.Big? && B.Valid(snap) && id.base in snap.full && id.base in snap.sizes
            && s.w.large == B.Free(snap, id.base).0 && id !in s.w.own
  {
    hide Inv, B.Valid, B.Free, ResultReady, SpaceOk, KeysApart, Shaped;
    var id := s.threads[t].job.id;
    InvThread(g, s, t);
    B.FreeReleases(snap, id.base);
  }

  // free returns nothing; realloc returns the block it moved to, with every byte of the old one.
  ghost predicate Returned(g: Geometry, s: State, t: nat, job: Job, target: Option<BlockId>)
    requires t in s.threads
  {
    && s.threads[t] == IDLE
    && (job.Realloc? ==>
          && target.Some? && target.value in s.w.own && s.w.own[target.value] == Client
          && PayloadIs(g, s.w, target.value, job.before, |job.before|)
          && Capacity(SpaceOf(s.w), target.value) >= job.size)
  }

  lemma LeaveFreeReturns(g: Geometry, s: State, t: nat, m: Mutex, s': State)
    requires Inv(g, s) && t in s.threads && ResultReady(g, s, t, s.threads[t]) && LeaveFreeSection(s, t, m) == Next(s')
    ensures t in s'.threads && Returned(g, s', t, s.threads[t].job, s.threads[t].target)
    ensures s'.w == s.w.(own := s'.w.own)
    ensures forall id :: id !in s.w.own ==> id !in s'.w.own
  {
    hide Inv, Exists, Capacity;
    assert SpaceOf(s'.w) == SpaceOf(s.w);
  }

  lemma FreeSection(g: Geometry, moves: seq<Move>, states: seq<State>, t: nat)
    requires g.Sound() && Section(g, moves, states, t)
    requires states[1].threads[t].pc.ZoneFree? || states[1].threads[t].pc.LargeFree?
    ensures var n, th := |moves|, states[0].threads[t];
            && !th.job.Malloc? && RanFree(g, states[0].w, states[n].w, th.job.id) && Returned(g, states[n], t, th.job, th.target)
  {
    hide Inv, Step, Returned, LeaveFreeSection, ResultReady, Z.Valid, B.Valid, Z.Free, B.Free;
    var n := |moves|;
    var s, s', th := states[n - 1], states[n], states[0].threads[t];
    StartsWithAcquire(g, moves, states, t);
    SectionKeeps(g, moves, states, t, n - 1);
    EndsWithUnlock(g, moves, states, t);
    assert Step(g, s, t, moves[n - 1].ch) == Next(s');
    UnlockEffect(g, s, t, moves[n - 1].ch, s');
    match s.threads[t].pc
    case ZoneFree(c, snap, at) =>
      ZoneFreeEnds(g, s, t, c, snap);
      LeaveFreeReturns(g, s, t, ClassMutex(c), s');
      OwnedBefore(g, states[0], th.job.id);
    case LargeFree(snap, at) =>
      LargeFreeEnds(g, s, t, snap);
      LeaveFreeReturns(g, s, t, ClassMutex(Large), s');
      OwnedBefore(g, states[0], th.job.id);
  }

  lemma OwnedBefore(g: Geometry, s: State, id: BlockId)
    requires Inv(g, s)
    ensures id.InZone? && Z.Allocated(PoolOf(s.w, id.c), id.zone, id.index) ==> id in s.w.own
    ensures id.Big? && B.Valid(s.w.large) && id.base in s.w.large.full && id.base in s.w.large.sizes ==> id in s.w.own
  {
    hide LocksOk, UnlockedClassesOk, QuietStart, ThreadOk, SpaceOk, KeysApart, Shaped;
  }

  // ---- memory ----

  // Inside a section the moves of t change memory only in mapping what mmap granted, and only when the
  // sequential operation on the class as it was at the lock asks for it; or in unmapping the zone or
  // block that this operation drops.
  ghost predicate SectionMemory(g: Geometry, s: State, t: nat, ch: Choice, s': State)
    requires g.Sound() && t in s.threads
  {
    var job := s.threads[t].job;
    s'.w.mem == s.w.mem ||
    match s.threads[t].pc
    case ZoneAlloc(c, snap, _) =>
      && Z.FillsHead(snap) && ch.Mmap? && ch.r.Some? && Answer(s.w.mem, ch.r, g.Length(c))
      && s'.w.mem == ZoneMemory(g, s.w.mem, c, ch.r.value)
    case LargeAlloc(snap, _) =>
      && !job.Free? && NeedsBlock(snap, job.size) && ch.Mmap? && ch.r.Some?
      && Answer(s.w.mem, ch.r, BLOCK_HEADER + WORD + job.size)
      && s'.w.mem == BlockMemory(s.w.mem, ch.r.value, job.size)
    case ZoneFree(c, snap, _) =>
      && !job.Malloc? && job.id.InZone? && Z.Allocated(snap, job.id.zone, job.id.index)
      && Z.Free(snap, g.Blocks(c), job.id.zone, job.id.index).1
      && s'.w.mem == Unmap(s.w.mem, job.id.zone, g.Length(c))
    case LargeFree(snap, _) =>
      && !job.Malloc? && job.id.Big? && job.id.base in snap.sizes && B.Free(snap, job.id.base).1
      && s'.w.mem == Unmap(s.w.mem, job.id.base, BLOCK_HEADER + WORD + snap.sizes[job.id.base])
    case _ => false
  }

  lemma ZoneAllocMemory(g: Geometry, s: State, t: nat, c: ZoneClass, snap: Z.Pool, at: ZoneAllocAt, ch: Choice, s': State)
    requires g.Sound() && Inv(g, s) && t in s.threads && s.threads[t].pc == ZoneAlloc(c, snap, at) && !s.threads[t].job.Free?
    requires ZoneAllocStep(g, s, t, c, snap, at, ch) == Next(s')
    ensures SectionMemory(g, s, t, ch, s')
  {
    hide Inv, WorldOk, Z.Valid, OldHeld, NewHeld, AllocatedFrom, ZoneMemory, Z.FirstFree;
    InvThread(g, s, t);
  }

  lemma LargeAllocMemory(g: Geometry, s: State, t: nat, snap: B.Store, at: LargeAllocAt, ch: Choice, s': State)
    requires g.Sound() && Inv(g, s) && t in s.threads && s.threads[t].pc == LargeAlloc(snap, at) && !s.threads[t].job.Free?
    requires LargeAllocStep(g, s, t, snap, at, ch) == Next(s')
    ensures SectionMemory(g, s, t, ch, s')
  {
    hide Inv, WorldOk, B.Valid, OldHeld, NewHeld, LargeAllocatedFrom, BlockMemory, MapLength, B.FirstFit;
    InvThread(g, s, t);
    MapLengthIs(g, s, t, s.threads[t]);
  }

  lemma ZoneFreeMemory(g: Geometry, s: State, t: nat, c: ZoneClass, snap: Z.Pool, at: ZoneFreeAt, ch: Choice, s': State)
    requires g.Sound() && Inv(g, s) && t in s.threads && s.threads[t].pc == ZoneFree(c, snap, at) && !s.threads[t].job.Malloc?
    requires ZoneFreeStep(g, s, t, c, snap, at) == Next(s')
    ensures SectionMemory(g, s, t, ch, s')
  {
    hide Inv, WorldOk, Z.Valid, Unmap, MetaUnderLock, ResultReady;
    InvThread(g, s, t);
  }

  lemma LargeFreeMemory(g: Geometry, s: State, t: nat, snap: B.Store, at: LargeFreeAt, ch: Choice, s': State)
    requires g.Sound() && Inv(g, s) && t in s.threads && s.threads[t].pc == LargeFree(snap, at) && !s.threads[t].job.Malloc?
    requires LargeFreeStep(g, s, t, snap, at) == Next(s')
    ensures SectionMemory(g, s, t, ch, s')
  {
    hide Inv, WorldOk, B.Valid, Unmap, MetaUnderLock, ResultReady;
    InvThread(g, s, t);
  }

  // A move of t inside its section, seen from the class as it was when the mutex was taken.
  lemma SectionTouchesMemory(g: Geometry, moves: seq<Move>, states: seq<State>, t: nat, i: nat)
    requires g.Sound() && Section(g, moves, states, t) && 1 <= i < |moves| && !Foreign(moves[i], t)
    ensures SectionMemory(g, states[i], t, moves[i].ch, states[i + 1])
    ensures states[i].threads[t].job == states[0].threads[t].job
    ensures match states[i].threads[t].pc
            case ZoneAlloc(c, snap, _) => snap == PoolOf(states[0].w, c)
            case ZoneFree(c, snap, _) => snap == PoolOf(states[0].w, c)
            case LargeAlloc(snap, _) => snap == states[0].w.large
            case LargeFree(snap, _) => snap == states[0].w.large
            case _ => false
  {
    hide Inv, SectionMemory, ZoneAllocStep, LargeAllocStep, ZoneFreeStep, LargeFreeStep;
    var s, s', ch := states[i], states[i + 1], moves[i].ch;
    StartsWithAcquire(g, moves, states, t);
    SectionKeeps(g, moves, states, t, i);
    assert Step(g, s, t, ch) == Next(s');
    match s.threads[t].pc
    case ZoneAlloc(c, snap, at) => ZoneAllocMemory(g, s, t, c, snap, at, ch, s');
    case LargeAlloc(snap, at) => LargeAllocMemory(g, s, t, snap, at, ch, s');
    case ZoneFree(c, snap, at) => ZoneFreeMemory(g, s, t, c, snap, at, ch, s');
    case LargeFree(snap, at) => LargeFreeMemory(g, s, t, snap, at, ch, s');
  }
}
