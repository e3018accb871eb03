/** The steps of malloc up to its locked section: the double-checked flag and setup_global_heap. */
module ThreadSetup {
  import opened Sequences
  import opened Memory
  import opened Layout
  import opened Spaces
  import opened Worlds
  import opened Sections
  import opened Threads
  import opened ThreadInvariant
  import opened ThreadSteps
  import Z = Zones
  import B = Blocks

  lemma BeginFine(g: Geometry, s: State, t: nat, job: Job)
    requires g.Sound() && Inv(g, s) && t in s.threads && s.threads[t].pc.Idle?
    ensures Fine(g, s, t, BeginStep(g, s, t, job))
  {
    hide WorldOk, PayloadKept;
    SameWorldKept(g, s.w, t);
    match job
    case Malloc(size) =>
      assert s.(w := s.w, threads := s.threads[t := s.threads[t]]) == s;
      JumpFine(g, s, t, s.w, s.threads[t]);
      if 0 < size <= PTRDIFF_MAX { JumpFine(g, s, t, s.w, IDLE.(pc := ReadFlag, job := job)); }
    case Free(id) =>
      if id in s.w.own && s.w.own[id] == Client { ClaimFine(g, s, t, id, job); }
    case Realloc(id, size, before) =>
      if BeginStep(g, s, t, job).Next? {
        ClaimFine(g, s, t, id, if size == 0 then Free(id) else job);
      }
  }

  // The client hands its block over for the duration of the call.
  lemma ClaimFine(g: Geometry, s: State, t: nat, id: BlockId, job: Job)
    requires g.Sound() && Inv(g, s) && t in s.threads && s.threads[t].pc.Idle?
    requires id in s.w.own && s.w.own[id] == Client && !job.Malloc? && job.id == id
    requires job.Realloc? ==>
               && 0 < job.size && BLOCK_HEADER + WORD + job.size < ADDRESS_LIMIT
               && PayloadIs(g, s.w, id, job.before, |job.before|) && |job.before| == Capacity(SpaceOf(s.w), id)
    ensures Fine(g, s, t, At(SetOwner(s, id, Held(t)), t, IDLE.(pc := ReadMeta, job := job)))
  {
    hide WorldOk, OthersKept;
    OwnerStepKept(g, s.w, id, t, Held(t));
    var w' := s.w.(own := s.w.own[id := Held(t)]);
    var th' := IDLE.(pc := ReadMeta, job := job);
    var s' := s.(w := w', threads := s.threads[t := th']);
    JumpFine(g, s, t, w', th');
    assert At(SetOwner(s, id, Held(t)), t, th') == Next(s');
  }

  lemma SetupFine(g: Geometry, s: State, t: nat, ch: Choice)
    requires g.Sound() && Inv(g, s) && t in s.threads
    ensures Fine(g, s, t, SetupStep(g, s, t, ch))
  {
    hide Inv, WorldOk, OthersKept;
    var th := s.threads[t];
    InvThread(g, s, t);
    InvClasses(g, s);
    SameWorldKept(g, s.w, t);
    match th.pc
    case ReadFlag => JumpFine(g, s, t, s.w, th.(pc := if s.initialized then LockAlloc else LockHeap));
    case LockHeap => AcquireFine(g, s, t, HeapMutex, RecheckFlag);
    case RecheckFlag => JumpFine(g, s, t, s.w, th.(pc := if s.initialized then UnlockHeap(true) else MakeTiny));
    case MakeTiny => SetupZoneFine(g, s, t, Tiny, ch, MakeSmall);
    case MakeSmall => SetupZoneFine(g, s, t, Small, ch, SetFlag);
    case SetFlag => SetFlagFine(g, s, t);
    case UnlockHeap(ok) => ReleaseFine(g, s, t, HeapMutex, s.w, if ok then th.(pc := LockAlloc) else IDLE);
    case _ =>
  }

  // Only the initialiser touches the classes before the flag is set, and it does so under heap_mutex.
  // Mapping a zone during initialisation is gentle: nobody owns a block yet.
  lemma SetupZoneIsGentle(g: Geometry, s: State, t: nat, c: ZoneClass, a: nat, th: Thread)
    requires g.Sound() && Inv(g, s) && t in s.threads && !s.initialized && LockOf(s, HeapMutex) == Some(t)
    ensures Gentle(g, s, s.(w := JoinZone(g, s.w, c, a), threads := s.threads[t := th]), t)
  {
    hide WorldOk, Z.Valid, B.Valid, JoinZone, LocksOk, ThreadOk, PayloadKept;
    JoinZoneParts(g, s.w, c, a);
  }

  lemma SetupZoneClassesOk(g: Geometry, s: State, c: ZoneClass, a: nat)
    requires g.Sound() && Inv(g, s) && !s.initialized && Fresh(s.w.mem, a, g.Length(c))
    ensures var s' := s.(w := JoinZone(g, s.w, c, a));
            WorldOk(g, s'.w) && UnlockedClassesOk(g, s') && QuietStart(s')
  {
    hide WorldOk, Z.Valid, B.Valid, JoinZone, LocksOk, ThreadOk;
    JoinZoneParts(g, s.w, c, a);
    JoinZoneOk(g, s.w, c, a);
  }

  lemma SetupZoneFine(g: Geometry, s: State, t: nat, c: ZoneClass, ch: Choice, pc: Pc)
    requires g.Sound() && Inv(g, s) && t in s.threads && !s.initialized && StartOk(s.threads[t])
    requires Holds(s.threads[t].pc) == Some(HeapMutex) && (pc == MakeSmall || pc == SetFlag)
    ensures Fine(g, s, t, SetupZone(g, s, t, c, ch, pc))
  {
    hide WorldOk, Z.Valid, B.Valid, JoinZone, Gentle;
    var o := SetupZone(g, s, t, c, ch, pc);
    if o.Next? {
      if ch.r.None? {
        SameWorldKept(g, s.w, t);
        JumpFine(g, s, t, s.w, s.threads[t].(pc := UnlockHeap(false)));
      } else {
        var s', th' := o.s, s.threads[t].(pc := pc);
        LocksKept(s, s', t);
        SetupZoneClassesOk(g, s, c, ch.r.value);
        SetupZoneIsGentle(g, s, t, c, ch.r.value, th');
        assert s' == s.(w := JoinZone(g, s.w, c, ch.r.value), threads := s.threads[t := th']);
        InvFromParts(g, s, s', t);
      }
    }
  }

  lemma SetFlagFine(g: Geometry, s: State, t: nat)
    requires g.Sound() && Inv(g, s) && t in s.threads && s.threads[t].pc.SetFlag?
    ensures Fine(g, s, t, Jump(s.(initialized := true), t, UnlockHeap(true)))
  {
    hide WorldOk;
    assert ThreadOk(g, s, t, s.threads[t]);
    var s' := s.(initialized := true, threads := s.threads[t := s.threads[t].(pc := UnlockHeap(true))]);
    LocksKept(s, s', t);
    assert LockOf(s, HeapMutex) == Some(t);
    SameWorldKept(g, s.w, t);
    InvFromParts(g, s, s', t);
  }
}
