/** What a client sees of the blocks it holds while any number of threads allocate, copy and free. */
module ThreadClients {
  import opened Sequences
  import opened Memory
  import opened Layout
  import opened Spaces
  import opened Worlds
  import opened Sections
  import opened Threads
  import opened ThreadInvariant
  import opened ThreadFree
  import opened ThreadTheorems
  import Z = Zones
  import B = Blocks

  // Mapped bytes and the sizes of large blocks stay.
  ghost predicate Calm(w: World, w': World) {
    && BytesKept(w.mem, w'.mem)
    && forall b :: b in w.large.sizes && b in w'.large.sizes ==> w'.large.sizes[b] == w.large.sizes[b]
  }

  ghost predicate CalmOutcome(s: State, o: Outcome) { o.Next? ==> Calm(s.w, o.s.w) }

  lemma FreshIsCalm(w: World, mem: Mem, a: nat, len: nat)
    requires Fresh(w.mem, a, len)
    requires forall x :: x in mem <==> x in w.mem || a <= x < a + len
    requires forall x :: x in w.mem && !(a <= x < a + len) ==> mem[x] == w.mem[x]
    ensures BytesKept(w.mem, mem)
  {
    assert forall x :: x in w.mem ==> !(a <= x < a + len);
  }

  lemma BeginIsCalm(g: Geometry, s: State, t: nat, job: Job)
    requires t in s.threads
    ensures CalmOutcome(s, BeginStep(g, s, t, job))
  {}

  lemma SetupIsCalm(g: Geometry, s: State, t: nat, ch: Choice)
    requires g.Sound() && t in s.threads
    ensures CalmOutcome(s, SetupStep(g, s, t, ch))
  {
    hide ZoneMemory;
    if ch.Mmap? && ch.r.Some? {
      if s.threads[t].pc.MakeTiny? && Answer(s.w.mem, ch.r, g.Length(Tiny)) {
        FreshIsCalm(s.w, ZoneMemory(g, s.w.mem, Tiny, ch.r.value), ch.r.value, g.Length(Tiny));
      } else if s.threads[t].pc.MakeSmall? && Answer(s.w.mem, ch.r, g.Length(Small)) {
        FreshIsCalm(s.w, ZoneMemory(g, s.w.mem, Small, ch.r.value), ch.r.value, g.Length(Small));
      }
    }
  }

  lemma UnlockedIsCalm(g: Geometry, s: State, t: nat)
    requires t in s.threads
    ensures CalmOutcome(s, EnterAlloc(s, t)) && CalmOutcome(s, ReadMetaStep(g, s, t))
    ensures forall meta :: CalmOutcome(s, ReadHeaderStep(s, t, meta))
    ensures forall c :: CalmOutcome(s, EnterFreeSection(s, t, c))
  {}

  lemma ZoneAllocIsCalm(g: Geometry, s: State, t: nat, c: ZoneClass, snap: Z.Pool, at: ZoneAllocAt, ch: Choice)
    requires g.Sound() && t in s.threads && !s.threads[t].job.Free?
    ensures CalmOutcome(s, ZoneAllocStep(g, s, t, c, snap, at, ch))
  {
    hide ZoneMemory;
    if at.Refill? && ch.Mmap? && ch.r.Some? && Answer(s.w.mem, ch.r, g.Length(c)) {
      FreshIsCalm(s.w, ZoneMemory(g, s.w.mem, c, ch.r.value), ch.r.value, g.Length(c));
    }
  }

  lemma LargeAllocIsCalm(g: Geometry, s: State, t: nat, snap: B.Store, at: LargeAllocAt, ch: Choice)
    requires g.Sound() && t in s.threads && !s.threads[t].job.Free? && WorldOk(g, s.w)
    ensures CalmOutcome(s, LargeAllocStep(g, s, t, snap, at, ch))
  {
    hide WorldOk, BlockMemory;
    var len := BLOCK_HEADER + WORD + s.threads[t].job.size;
    if at.FindFit? && ch.Mmap? && ch.r.Some? && Answer(s.w.mem, ch.r, len) {
      FreshIsCalm(s.w, BlockMemory(s.w.mem, ch.r.value, s.threads[t].job.size), ch.r.value, len);
      NoBlockThere(g, s.w, ch.r.value, len);
    }
  }

  lemma NoBlockThere(g: Geometry, w: World, a: nat, len: nat)
    requires g.Sound() && WorldOk(g, w) && Fresh(w.mem, a, len) && len > 0
    ensures a !in w.large.sizes
  {
    FreshIsNew(g, SpaceOf(w), w.mem, a, len);
  }

  lemma ZoneFreeIsCalm(g: Geometry, s: State, t: nat, c: ZoneClass, snap: Z.Pool, at: ZoneFreeAt)
    requires t in s.threads && !s.threads[t].job.Malloc? && !at.UnmapEmpty?
    ensures CalmOutcome(s, ZoneFreeStep(g, s, t, c, snap, at))
  {}

  lemma LargeFreeIsCalm(g: Geometry, s: State, t: nat, snap: B.Store, at: LargeFreeAt)
    requires t in s.threads && !s.threads[t].job.Malloc? && !at.UnmapLarge?
    ensures CalmOutcome(s, LargeFreeStep(g, s, t, snap, at))
  {}

  // The steps that write or unmap what was mapped before.
  predicate Rough(s: State, t: nat, ch: Choice) {
    t in s.threads &&
    (ch.Write? || s.threads[t].pc.Copying? || (s.threads[t].pc.ZoneFree? && s.threads[t].pc.zf.UnmapEmpty?)
     || (s.threads[t].pc.LargeFree? && s.threads[t].pc.lf.UnmapLarge?))
  }

  lemma OtherStepsAreCalm(g: Geometry, s: State, t: nat, ch: Choice)
    requires g.Sound() && Inv(g, s) && !Rough(s, t, ch)
    ensures CalmOutcome(s, Step(g, s, t, ch))
  {
    hide WorldOk, CalmOutcome, BeginStep, SetupStep, EnterAlloc, ZoneAllocStep, LargeAllocStep, CopyStep, ReadMetaStep,
      ReadHeaderStep, EnterFreeSection, ZoneFreeStep, LargeFreeStep, LocksOk, UnlockedClassesOk, QuietStart, ThreadOk;
    NothingIsCalm(s);
    if t in s.threads {
      match s.threads[t].pc
      case Idle => if ch.Begin? { BeginIsCalm(g, s, t, ch.job); }
      case ZoneAlloc(c, snap, at) => if !s.threads[t].job.Free? { ZoneAllocIsCalm(g, s, t, c, snap, at, ch); }
      case LargeAlloc(snap, at) => if !s.threads[t].job.Free? { LargeAllocIsCalm(g, s, t, snap, at, ch); }
      case ZoneFree(c, snap, at) => if !s.threads[t].job.Malloc? { ZoneFreeIsCalm(g, s, t, c, snap, at); }
      case LargeFree(snap, at) => if !s.threads[t].job.Malloc? { LargeFreeIsCalm(g, s, t, snap, at); }
      case LockAlloc => UnlockedIsCalm(g, s, t);
      case ReadMeta => UnlockedIsCalm(g, s, t);
      case ReadHeader(_) => UnlockedIsCalm(g, s, t);
      case LockFree(_) => UnlockedIsCalm(g, s, t);
      case _ => SetupIsCalm(g, s, t, ch);
    }
  }

  lemma NothingIsCalm(s: State)
    ensures CalmOutcome(s, Blocked) && CalmOutcome(s, Fault)
  {}

  // No step of any thread touches a block in client hands: it keeps its place, its capacity and every
  // byte, unless the step is a client write to that very block.  It stays owned, too, even if the step
  // is a client handing it to free or realloc.
  lemma ClientBlocksUntouched(g: Geometry, s: State, t: nat, ch: Choice, id: BlockId)
    requires g.Sound() && Inv(g, s) && Step(g, s, t, ch).Next?
    requires id in s.w.own && s.w.own[id] == Client && !(ch.Write? && ch.id == id)
    ensures id in Step(g, s, t, ch).s.w.own
    ensures PayloadKept(g, s.w, Step(g, s, t, ch).s.w, id)
  {
    hide Inv, Step, PayloadKept, WorldOk;
    var s' := Step(g, s, t, ch).s;
    StepFine(g, s, t, ch);
    StepTransfersOneBlock(g, s, t, ch);
    if Rough(s, t, ch) {
      RoughStepsSpareClients(g, s, t, ch, id);
    } else {
      OtherStepsAreCalm(g, s, t, ch);
      InvWorld(g, s);
      InvWorld(g, s');
      BytesKeptIsKept(g, s.w, s'.w, id);
    }
  }

  lemma InvWorld(g: Geometry, s: State)
    requires Inv(g, s)
    ensures WorldOk(g, s.w)
  {}

  lemma RoughStepsSpareClients(g: Geometry, s: State, t: nat, ch: Choice, id: BlockId)
    requires g.Sound() && Inv(g, s) && Step(g, s, t, ch).Next? && Rough(s, t, ch)
    requires id in s.w.own && s.w.own[id] == Client && !(ch.Write? && ch.id == id)
    ensures PayloadKept(g, s.w, Step(g, s, t, ch).s.w, id)
  {
    hide Inv, WorldOk, PayloadKept, PayloadIs, Z.Valid, B.Valid;
    var th := s.threads[t];
    InvThread(g, s, t);
    if ch.Write? {
      WriteKeepsOther(g, s.w, ch.id, ch.x, ch.v, id);
    } else {
      match th.pc
      case Copying(i) => CopySparesClients(g, s, t, i, id);
      case ZoneFree(c, snap, UnmapEmpty(z)) =>
        EmptiedZoneIsNobodys(g, s.w, c, snap, z, th.job.id.index);
        DropZoneKeepsBlock(g, s.w, c, z, id);
      case LargeFree(snap, UnmapLarge(b)) => DropBlockKeepsOther(g, s.w, b, id);
    }
  }

  lemma CopySparesClients(g: Geometry, s: State, t: nat, i: nat, id: BlockId)
    requires g.Sound() && Inv(g, s) && t in s.threads && s.threads[t].pc == Copying(i) && CopyStep(g, s, t, i).Next?
    requires id in s.w.own && s.w.own[id] == Client
    ensures PayloadKept(g, s.w, CopyStep(g, s, t, i).s.w, id)
  {
    hide Inv, WorldOk, PayloadKept;
    var th := s.threads[t];
    InvThread(g, s, t);
    if i >= th.oldSize {
      KeptAlready(g, s, id);
    } else {
      var src, dst := Ptr(g, th.job.id) + i, Ptr(g, th.target.value) + i;
      assert InPayload(g, SpaceOf(s.w), th.target.value, dst);
      WriteKeepsOther(g, s.w, th.target.value, dst, s.w.mem[src], id);
    }
  }

  // Over any stretch of any execution: as long as a block stays in client hands and no client writes
  // to it, it keeps its place, its capacity and every byte.
  lemma {:induction false} ClientBytesSurvive(g: Geometry, moves: seq<Move>, states: seq<State>, id: BlockId)
    requires g.Sound() && |states| == |moves| + 1 && Inv(g, states[0])
    requires forall i :: 0 <= i < |moves| ==> Step(g, states[i], moves[i].t, moves[i].ch) == Next(states[i + 1])
    requires forall i :: 0 <= i < |states| ==> id in states[i].w.own && states[i].w.own[id] == Client
    requires forall i :: 0 <= i < |moves| ==> !(moves[i].ch.Write? && moves[i].ch.id == id)
    ensures Inv(g, states[|moves|]) && PayloadKept(g, states[0].w, states[|moves|].w, id)
  {
    hide Inv, Step, PayloadKept;
    if |moves| == 0 {
      KeptAlready(g, states[0], id);
    } else {
      var n := |moves| - 1;
      ClientBytesSurvive(g, moves[..n], states[..n + 1], id);
      assert Step(g, states[n], moves[n].t, moves[n].ch) == Next(states[n + 1]);
      StepFine(g, states[n], moves[n].t, moves[n].ch);
      ClientBlocksUntouched(g, states[n], moves[n].t, moves[n].ch, id);
      KeptTwice(g, states[0].w, states[n].w, states[n + 1].w, id);
    }
  }

  // The result of an allocation section about to be left.
  function SectionResult(pc: Pc): Option<Option<BlockId>> {
    match pc
    case ZoneAlloc(_, _, AllocDone(r)) => Some(r)
    case LargeAlloc(_, LargeAllocDone(r)) => Some(r)
    case _ => None
  }

  // The last step of a malloc hands over a block that was in no other hands, of at least the size
  // asked for, or nothing at all.
  lemma MallocDelivers(g: Geometry, s: State, t: nat, ch: Choice, s': State)
    requires g.Sound() && Inv(g, s) && t in s.threads && s.threads[t].job.Malloc? && !ch.Write?
    requires SectionResult(s.threads[t].pc).Some? && Step(g, s, t, ch) == Next(s')
    ensures t in s'.threads && s'.threads[t] == IDLE
    ensures match SectionResult(s.threads[t].pc).value
            case None => s'.w == s.w
            case Some(id) =>
              && HeldBy(s.w, id, t) && s'.w.own == s.w.own[id := Client] && s'.w.mem == s.w.mem
              && Exists(g, SpaceOf(s'.w), id) && Capacity(SpaceOf(s'.w), id) >= s.threads[t].job.size
  {
    hide Inv, WorldOk, Step, ZoneAllocMid, LargeAllocMid, PayloadIs;
    var th := s.threads[t];
    InvThread(g, s, t);
    InvHolds(g, s, t);
    UnlockStep(g, s, t, ch);
    var r := SectionResult(th.pc).value;
    if r.Some? {
      assert SpaceOf(s.w.(own := s.w.own[r.value := Client])) == SpaceOf(s.w);
    }
  }

  // A realloc that gets no block ends there, and its client has the old block back with every byte it
  // held when realloc was called.
  lemma ReallocGivesUp(g: Geometry, s: State, t: nat, ch: Choice, s': State)
    requires g.Sound() && Inv(g, s) && t in s.threads && s.threads[t].job.Realloc? && !ch.Write?
    requires SectionResult(s.threads[t].pc) == Some(None) && Step(g, s, t, ch) == Next(s')
    ensures t in s'.threads && s'.threads[t] == IDLE
    ensures var job := s.threads[t].job;
            && s'.w.own == s.w.own[job.id := Client]
            && Exists(g, SpaceOf(s'.w), job.id) && Capacity(SpaceOf(s'.w), job.id) == |job.before|
            && PayloadIs(g, s'.w, job.id, job.before, |job.before|)
  {
    hide Inv, WorldOk, Step, ZoneAllocMid, LargeAllocMid, PayloadIs;
    var th := s.threads[t];
    InvThread(g, s, t);
    InvHolds(g, s, t);
    UnlockStep(g, s, t, ch);
    PayloadOfOwners(g, s.w, s'.w, th.job.id, th.job.before, |th.job.before|);
  }
}
