/** Every execution is a sequential history of each class: the class is what one sequential operation
    per finished section, in the order of the unlocks, makes of the empty class. */
module ThreadHistories {
  import opened Sequences
  import opened Layout
  import opened Worlds
  import opened Spaces
  import opened Sections
  import opened Threads
  import opened ThreadInvariant
  import opened ThreadTheorems
  import opened ThreadSections
  import Z = Zones
  import B = Blocks

  // The lists, bitmaps, counters and sizes of one class.
  datatype Class = OfZones(pool: Z.Pool) | OfBlocks(store: B.Store)

  function Empty(c: SizeClass): Class { ClassAt(EMPTY_WORLD, c) }

  function ClassAt(w: World, c: SizeClass): Class { if c.Large? then OfBlocks(w.large) else OfZones(PoolOf(w, c)) }

  predicate InClass(pc: Pc, c: SizeClass) {
    ((pc.ZoneAlloc? || pc.ZoneFree?) && pc.c == c) || ((pc.LargeAlloc? || pc.LargeFree?) && c == Large)
  }

  function Snapshot(pc: Pc): Class
    requires InSection(pc)
  {
    if pc.ZoneAlloc? || pc.ZoneFree? then OfZones(pc.pool) else OfBlocks(pc.store)
  }

  // The class as the last finished operation left it: what a section under way still has as snapshot.
  function Settled(s: State, c: SizeClass): Class {
    match LockOf(s, ClassMutex(c))
    case None => ClassAt(s.w, c)
    case Some(u) => if u in s.threads && InClass(s.threads[u].pc, c) then Snapshot(s.threads[u].pc) else ClassAt(s.w, c)
  }

  // The moves that finish an operation on class c: its unlocks, and the mapping of its first zone.
  predicate Finishes(s: State, m: Move, c: SizeClass) {
    m.t in s.threads && !m.ch.Write? &&
    match s.threads[m.t].pc
    case ZoneAlloc(c', _, AllocDone(_)) => c' == c
    case ZoneFree(c', _, FreeDone) => c' == c
    case LargeAlloc(_, LargeAllocDone(_)) => c == Large
    case LargeFree(_, LargeFreeDone) => c == Large
    case MakeTiny => c == Tiny && m.ch.Mmap? && m.ch.r.Some?
    case MakeSmall => c == Small && m.ch.Mmap? && m.ch.r.Some?
    case _ => false
  }

  // What the finished operation does, as the sequential allocator does it: find_free_block or
  // find_free_large_block with the result the thread has, the free of its block, or a new zone.
  ghost predicate Does(g: Geometry, s: State, m: Move, c: SizeClass, before: Class, after: Class) {
    m.t in s.threads &&
    var job := s.threads[m.t].job;
    match s.threads[m.t].pc
    case ZoneAlloc(_, _, AllocDone(r)) =>
      && !c.Large? && before.OfZones? && Z.Valid(before.pool, g.Blocks(c)) && !job.Free?
      && exists a: Option<nat> ::
           && FreshFor(before.pool, a) && after == OfZones(Z.Alloc(before.pool, g.Blocks(c), job.size, a).0)
           && ResultOf(c, Z.Alloc(before.pool, g.Blocks(c), job.size, a).1) == r
    case ZoneFree(_, _, FreeDone) =>
      && !c.Large? && before.OfZones? && Z.Valid(before.pool, g.Blocks(c)) && !job.Malloc? && job.id.InZone?
      && Z.Allocated(before.pool, job.id.zone, job.id.index)
      && after == OfZones(Z.Free(before.pool, g.Blocks(c), job.id.zone, job.id.index).0)
    case LargeAlloc(_, LargeAllocDone(r)) =>
      && before.OfBlocks? && B.Valid(before.store) && !job.Free?
      && exists a: Option<nat> ::
           && FreshBlockFor(before.store, a)
           && after.OfBlocks? && B.Alloc(before.store, job.size, a) == (after.store, if r.Some? then Some(Base(r.value)) else None)
    case LargeFree(_, LargeFreeDone) =>
      && before.OfBlocks? && B.Valid(before.store) && !job.Malloc? && job.id.Big? && job.id.base in before.store.full
      && job.id.base in before.store.sizes && after == OfBlocks(B.Free(before.store, job.id.base).0)
    case _ =>
      && !c.Large? && before.OfZones? && m.ch.Mmap? && m.ch.r.Some? && m.ch.r.value !in before.pool.zones
      && after == OfZones(Z.AppendFree(Z.MapZone(before.pool, m.ch.r.value, g.Blocks(c)), m.ch.r.value))
  }

  // One step: it finishes an operation on the class, or leaves it as it was settled.
  lemma SettledStep(g: Geometry, s: State, m: Move, s': State, c: SizeClass)
    requires g.Sound() && Inv(g, s) && Inv(g, s') && Step(g, s, m.t, m.ch) == Next(s')
    ensures if Finishes(s, m, c) then Does(g, s, m, c, Settled(s, c), Settled(s', c)) else Settled(s', c) == Settled(s, c)
  {
    hide Inv, Step, Does, Finishes, Settled;
    if m.t !in s.threads || m.ch.Write? {
      WriteSettles(g, s, m, s', c);
    } else if InSection(s.threads[m.t].pc) {
      SectionSettles(g, s, m, s', c);
    } else if s.threads[m.t].pc.MakeTiny? || s.threads[m.t].pc.MakeSmall? {
      SetupSettles(g, s, m, s', c);
    } else {
      QuietSettles(g, s, m, s', c);
    }
  }

  lemma WriteSettles(g: Geometry, s: State, m: Move, s': State, c: SizeClass)
    requires g.Sound() && (m.t !in s.threads || m.ch.Write?) && Step(g, s, m.t, m.ch) == Next(s')
    ensures Settled(s', c) == Settled(s, c) && !Finishes(s, m, c)
  {}

  // The mutex of a class is held exactly by the thread that is in a section of that class.
  lemma HolderIs(g: Geometry, s: State, c: SizeClass)
    requires Inv(g, s)
    ensures forall u :: LockOf(s, ClassMutex(c)) == Some(u) <==> u in s.threads && InClass(s.threads[u].pc, c)
  {
    hide WorldOk, UnlockedClassesOk, QuietStart, ThreadOk;
    forall u ensures LockOf(s, ClassMutex(c)) == Some(u) <==> u in s.threads && InClass(s.threads[u].pc, c) {
      assert LockOf(s, ClassMutex(c)) == Some(u) <==> u in s.threads && Holds(s.threads[u].pc) == Some(ClassMutex(c));
    }
  }

  lemma SettledIs(g: Geometry, s: State, c: SizeClass, u: nat)
    requires Inv(g, s)
    ensures u in s.threads && InClass(s.threads[u].pc, c) ==> Settled(s, c) == Snapshot(s.threads[u].pc)
    ensures (forall v :: v in s.threads ==> !InClass(s.threads[v].pc, c)) ==> Settled(s, c) == ClassAt(s.w, c)
  {
    hide Inv;
    HolderIs(g, s, c);
  }

  // Whatever t does, it matters only where t itself is, and what it does to the class.
  lemma SettledDependsOnOwn(g: Geometry, s: State, s': State, t: nat, c: SizeClass)
    requires Inv(g, s) && Inv(g, s') && t in s.threads && t in s'.threads
    requires s'.threads.Keys == s.threads.Keys
    requires forall u :: u != t && u in s.threads ==> s'.threads[u] == s.threads[u]
    requires !InClass(s.threads[t].pc, c)
    requires if InClass(s'.threads[t].pc, c) then Snapshot(s'.threads[t].pc) == ClassAt(s.w, c) else ClassAt(s'.w, c) == ClassAt(s.w, c)
    ensures Settled(s', c) == Settled(s, c)
  {
    hide Inv, Settled;
    if u: nat :| u in s.threads && InClass(s.threads[u].pc, c) {
      SettledIs(g, s, c, u);
      SettledIs(g, s', c, u);
      if InClass(s'.threads[t].pc, c) { OneHolder(g, s', c, u, t); }
    } else {
      SettledIs(g, s, c, t);
      SettledIs(g, s', c, t);
    }
  }

  lemma OneHolder(g: Geometry, s: State, c: SizeClass, u: nat, v: nat)
    requires Inv(g, s) && u in s.threads && v in s.threads && InClass(s.threads[u].pc, c) && InClass(s.threads[v].pc, c)
    ensures u == v
  {
    hide Inv;
    HolderIs(g, s, c);
  }

  lemma QuietTouches(g: Geometry, s: State, t: nat, ch: Choice, s': State)
    requires g.Sound() && t in s.threads && !ch.Write? && Step(g, s, t, ch) == Next(s')
    requires var pc := s.threads[t].pc; !InSection(pc) && !pc.MakeTiny? && !pc.MakeSmall?
    ensures OnlyClass(s.w, s'.w, None)
  {
    hide OnlyClass, BeginStep, SetupStep, EnterAlloc, ZoneAllocStep, LargeAllocStep, CopyStep, ReadMetaStep, ReadHeaderStep,
      EnterFreeSection, ZoneFreeStep, LargeFreeStep;
    if s.threads[t].pc.Idle? && ch.Begin? { BeginTouches(g, s, t, ch.job); }
    UnlockedTouches(g, s, t);
    SetupQuiet(g, s, t, ch);
  }

  lemma SetupQuiet(g: Geometry, s: State, t: nat, ch: Choice)
    requires g.Sound() && t in s.threads && !s.threads[t].pc.MakeTiny? && !s.threads[t].pc.MakeSmall?
    ensures var o := SetupStep(g, s, t, ch); o.Next? ==> OnlyClass(s.w, o.s.w, None)
  {
    hide SetupStep, OnlyClass;
    SetupTouches(g, s, t, ch);
  }

  lemma QuietSettles(g: Geometry, s: State, m: Move, s': State, c: SizeClass)
    requires g.Sound() && Inv(g, s) && Inv(g, s') && Step(g, s, m.t, m.ch) == Next(s') && m.t in s.threads && !m.ch.Write?
    requires var pc := s.threads[m.t].pc; !InSection(pc) && !pc.MakeTiny? && !pc.MakeSmall?
    ensures Settled(s', c) == Settled(s, c) && !Finishes(s, m, c)
  {
    hide Inv, Step, Settled;
    SnapshotIsTheClass(g, s, m.t, m.ch, s');
    OwnThread(g, s, m.t, m.ch);
    QuietTouches(g, s, m.t, m.ch, s');
    SettledDependsOnOwn(g, s, s', m.t, c);
  }

  // Before the flag is set no section is under way, so a zone mapped then joins the class at once.
  lemma SetupSettles(g: Geometry, s: State, m: Move, s': State, c: SizeClass)
    requires g.Sound() && Inv(g, s) && Inv(g, s') && Step(g, s, m.t, m.ch) == Next(s') && m.t in s.threads && !m.ch.Write?
    requires s.threads[m.t].pc.MakeTiny? || s.threads[m.t].pc.MakeSmall?
    ensures if Finishes(s, m, c) then Does(g, s, m, c, Settled(s, c), Settled(s', c)) else Settled(s', c) == Settled(s, c)
  {
    hide Inv, Step, Settled, JoinZone, WorldOk;
    var t, made := m.t, if s.threads[m.t].pc.MakeTiny? then Tiny else Small;
    InvThread(g, s, t);
    MakeSteps(g, s, t, m.ch, s');
    NobodyInside(g, s, c);
    NobodyInside(g, s', c);
    if m.ch.r.Some? {
      JoinZoneParts(g, s.w, made, m.ch.r.value);
      NewZone(g, s.w, made, m.ch.r.value, g.Length(made));
    }
  }

  lemma MakeSteps(g: Geometry, s: State, t: nat, ch: Choice, s': State)
    requires g.Sound() && t in s.threads && !ch.Write? && Step(g, s, t, ch) == Next(s')
    requires s.threads[t].pc.MakeTiny? || s.threads[t].pc.MakeSmall?
    ensures s'.initialized == s.initialized
    ensures var made := if s.threads[t].pc.MakeTiny? then Tiny else Small;
            && ch.Mmap? && Answer(s.w.mem, ch.r, g.Length(made))
            && s'.w == if ch.r.Some? then JoinZone(g, s.w, made, ch.r.value) else s.w
  {
    hide JoinZone, Answer, BeginStep, EnterAlloc, ZoneAllocStep, LargeAllocStep, CopyStep, ReadMetaStep, ReadHeaderStep,
      EnterFreeSection, ZoneFreeStep, LargeFreeStep;
  }

  lemma NobodyInside(g: Geometry, s: State, c: SizeClass)
    requires Inv(g, s) && !s.initialized
    ensures Settled(s, c) == ClassAt(s.w, c)
  {
    hide WorldOk, UnlockedClassesOk, LocksOk, ThreadOk;
  }

  lemma NewZone(g: Geometry, w: World, c: ZoneClass, a: nat, len: nat)
    requires g.Sound() && WorldOk(g, w) && Fresh(w.mem, a, len) && len > 0
    ensures a !in PoolOf(w, c).zones
  {
    hide WorldOk, SpaceOf;
    WorldSpace(g, w);
    FreshIsNew(g, SpaceOf(w), w.mem, a, len);
    SpaceAt(w, a);
  }

  // Inside a section: a step of another class leaves this one alone; a step of this one keeps the
  // snapshot, or is the unlock.
  lemma SectionSettles(g: Geometry, s: State, m: Move, s': State, c: SizeClass)
    requires g.Sound() && Inv(g, s) && Inv(g, s') && Step(g, s, m.t, m.ch) == Next(s') && m.t in s.threads && !m.ch.Write?
    requires InSection(s.threads[m.t].pc)
    ensures if Finishes(s, m, c) then Does(g, s, m, c, Settled(s, c), Settled(s', c)) else Settled(s', c) == Settled(s, c)
  {
    hide Inv, Step, Settled, Does;
    var t := m.t;
    OwnThread(g, s, t, m.ch);
    if !InClass(s.threads[t].pc, c) {
      OtherClass(g, s, t, m.ch, s', c);
      SettledDependsOnOwn(g, s, s', t, c);
    } else if InSection(s'.threads[t].pc) {
      SettledIs(g, s, c, t);
      SettledIs(g, s', c, t);
      DoneLeaves(g, s, m, s', c);
    } else {
      UnlockSettles(g, s, m, s', c);
    }
  }

  lemma OtherClass(g: Geometry, s: State, t: nat, ch: Choice, s': State, c: SizeClass)
    requires g.Sound() && Inv(g, s) && t in s.threads && InSection(s.threads[t].pc) && !InClass(s.threads[t].pc, c)
    requires !ch.Write? && Step(g, s, t, ch) == Next(s')
    ensures ClassAt(s'.w, c) == ClassAt(s.w, c)
  {
    hide Inv, Step;
    ClassTouchedOnlyByHolder(g, s, t, ch);
    InvHolds(g, s, t);
    AtMostOneMutex(g, s, t, ClassMutex(c), Holds(s.threads[t].pc).value);
    AtMostOneMutex(g, s, t, HeapMutex, Holds(s.threads[t].pc).value);
  }

  lemma DoneLeaves(g: Geometry, s: State, m: Move, s': State, c: SizeClass)
    requires g.Sound() && m.t in s.threads && InSection(s.threads[m.t].pc) && !m.ch.Write? && Step(g, s, m.t, m.ch) == Next(s')
    requires m.t in s'.threads && InSection(s'.threads[m.t].pc)
    ensures !Finishes(s, m, c)
  {
    hide ZoneAllocStep, LargeAllocStep, BeginStep, SetupStep, EnterAlloc, CopyStep, ReadMetaStep, ReadHeaderStep, WriteStep;
    AllocDoneLeaves(g, s, m.t, m.ch, s');
  }

  // The unlock: the snapshot gives way to what the section has made of it.
  lemma UnlockSettles(g: Geometry, s: State, m: Move, s': State, c: SizeClass)
    requires g.Sound() && Inv(g, s) && Inv(g, s') && Step(g, s, m.t, m.ch) == Next(s') && m.t in s.threads && !m.ch.Write?
    requires InClass(s.threads[m.t].pc, c) && s'.threads.Keys == s.threads.Keys && !InSection(s'.threads[m.t].pc)
    requires forall u :: u != m.t && u in s.threads ==> s'.threads[u] == s.threads[u]
    ensures Finishes(s, m, c) && Does(g, s, m, c, Settled(s, c), Settled(s', c))
  {
    hide Inv, Step, Settled, LeaveAlloc, LeaveFreeSection, Z.Valid, Z.Alloc, Z.Free;
    var t := m.t;
    UnlockEffect(g, s, t, m.ch, s');
    SettledIs(g, s, c, t);
    forall v | v in s'.threads ensures !InClass(s'.threads[v].pc, c) {
      if InClass(s'.threads[v].pc, c) { OneHolder(g, s, c, v, t); }
    }
    SettledIs(g, s', c, t);
    ClassUnchanged(s, t, s', c);
    SectionDoes(g, s, m, c, Snapshot(s.threads[t].pc), ClassAt(s.w, c));
  }

  lemma SectionDoes(g: Geometry, s: State, m: Move, c: SizeClass, before: Class, after: Class)
    requires g.Sound() && Inv(g, s) && Finishes(s, m, c) && InClass(s.threads[m.t].pc, c)
    requires before == Snapshot(s.threads[m.t].pc) && after == ClassAt(s.w, c)
    ensures Does(g, s, m, c, before, after)
  {
    hide Inv, Z.Valid, Z.Alloc, Z.Free, B.Valid, B.Alloc, B.Free;
    SectionsRefineSequential(g, s, m.t);
    var job := s.threads[m.t].job;
    match s.threads[m.t].pc
    case ZoneAlloc(_, snap, AllocDone(r)) =>
      var a: Option<nat> :|
        && (a.Some? ==> a.value !in snap.zones) && Z.Alloc(snap, g.Blocks(c), job.size, a).0 == after.pool
        && ResultOf(c, Z.Alloc(snap, g.Blocks(c), job.size, a).1) == r;
      assert FreshFor(snap, a);
    case LargeAlloc(snap, LargeAllocDone(r)) =>
      var a: Option<nat> :|
        && (a.Some? ==> a.value !in snap.sizes)
        && B.Alloc(snap, job.size, a) == (after.store, if r.Some? then Some(Base(r.value)) else None);
      assert FreshBlockFor(snap, a);
    case _ =>
  }

  lemma ClassUnchanged(s: State, t: nat, s': State, c: SizeClass)
    requires t in s.threads
    requires (exists m, r :: LeaveAlloc(s, t, m, r) == Next(s')) || (exists m :: LeaveFreeSection(s, t, m) == Next(s'))
    ensures ClassAt(s'.w, c) == ClassAt(s.w, c)
  {}

  // ---- whole executions ----

  // The moves that finished an operation on c, in order, and the class after each of them.
  ghost predicate History(g: Geometry, moves: seq<Move>, states: seq<State>, c: SizeClass, n: nat, at: seq<nat>, classes: seq<Class>)
    requires n <= |moves| < |states|
  {
    && |classes| == |at| + 1 && classes[0] == Empty(c) && classes[|at|] == Settled(states[n], c)
    && (forall i, j :: 0 <= i < j < |at| ==> at[i] < at[j])
    && (forall i :: i in at <==> 0 <= i < n && Finishes(states[i], moves[i], c))
    && (forall i :: 0 <= i < |at| ==> at[i] < n && Does(g, states[at[i]], moves[at[i]], c, classes[i], classes[i + 1]))
  }

  // Every execution has such a history: whatever the interleaving, each class goes through exactly the
  // states that the sequential operations, one for each finished section and in the order of the
  // unlocks, take it through from the empty class; and each thread has got the result of its own.
  lemma {:induction false} ClassHasHistory(g: Geometry, ids: set<nat>, moves: seq<Move>, states: seq<State>, c: SizeClass, n: nat)
    returns (at: seq<nat>, classes: seq<Class>)
    requires g.Sound() && Execution(g, ids, moves, states) && n <= |moves|
    ensures History(g, moves, states, c, n, at, classes)
  {
    hide Inv, Step, Settled, Finishes, Does;
    if n == 0 {
      StartsEmpty(ids, c);
      at, classes := [], [Empty(c)];
    } else {
      at, classes := ClassHasHistory(g, ids, moves, states, c, n - 1);
      ExecutionsKeepInvariant(g, ids, moves, states, n - 1);
      ExecutionsKeepInvariant(g, ids, moves, states, n);
      assert Step(g, states[n - 1], moves[n - 1].t, moves[n - 1].ch) == Next(states[n]);
      SettledStep(g, states[n - 1], moves[n - 1], states[n], c);
      if Finishes(states[n - 1], moves[n - 1], c) {
        HistoryGrows(g, moves, states, c, n, at, classes);
        at, classes := at + [n - 1], classes + [Settled(states[n], c)];
      }
    }
  }

  lemma HistoryGrows(g: Geometry, moves: seq<Move>, states: seq<State>, c: SizeClass, n: nat, at: seq<nat>, classes: seq<Class>)
    requires 0 < n <= |moves| < |states| && History(g, moves, states, c, n - 1, at, classes)
    requires Finishes(states[n - 1], moves[n - 1], c)
    requires Does(g, states[n - 1], moves[n - 1], c, Settled(states[n - 1], c), Settled(states[n], c))
    ensures History(g, moves, states, c, n, at + [n - 1], classes + [Settled(states[n], c)])
  {
    hide Settled, Finishes, Does;
    var at', classes' := at + [n - 1], classes + [Settled(states[n], c)];
    assert forall i :: i in at' <==> i in at || i == n - 1;
    forall i, j | 0 <= i < j < |at'| ensures at'[i] < at'[j] {
      assert j < |at| ==> at'[j] == at[j];
      assert at[i] in at;
    }
    forall i | 0 <= i < |at'|
      ensures at'[i] < n && Does(g, states[at'[i]], moves[at'[i]], c, classes'[i], classes'[i + 1])
    {
      if i == |at| {
        assert classes'[i] == classes[|at|];
      } else {
        assert at'[i] == at[i] && classes'[i] == classes[i] && classes'[i + 1] == classes[i + 1];
      }
    }
  }

  lemma StartsEmpty(ids: set<nat>, c: SizeClass)
    ensures Settled(Initial(ids), c) == Empty(c)
  {}
}
