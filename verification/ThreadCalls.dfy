/** Whole calls of malloc, free and realloc under threads: from the move that begins a call to the next
    state in which its thread is idle, with any moves of other threads in between. */
module ThreadCalls {
  import opened Sequences
  import opened Layout
  import opened Memory
  import opened Spaces
  import opened Worlds
  import opened Sections
  import opened Threads
  import opened ThreadInvariant
  import opened ThreadTheorems
  import opened ThreadSections
  import opened ThreadReallocs
  import Z = Zones

  ghost predicate Call(g: Geometry, moves: seq<Move>, states: seq<State>, t: nat, job: Job)
    requires g.Sound()
  {
    && Stretch(g, moves, states) && |moves| > 0 && (forall i :: 0 <= i < |states| ==> t in states[i].threads)
    && states[0].threads[t].pc.Idle? && moves[0] == Move(t, Begin(job))
    && (forall i :: 1 <= i < |moves| ==> !states[i].threads[t].pc.Idle?)
    && states[|moves|].threads[t].pc.Idle?
  }

  // The states in which t is inside a locked section.
  predicate Inside(states: seq<State>, t: nat, x: nat)
    requires x < |states|
  {
    t in states[x].threads && InSection(states[x].threads[t].pc)
  }

  // Nothing but the record of owners changes.
  predicate OwnersOnly(s: State, s': State) { s'.w == s.w.(own := s'.w.own) }

  // ---- how a call begins ----

  lemma CallBegins(g: Geometry, moves: seq<Move>, states: seq<State>, t: nat, job: Job)
    requires g.Sound() && Call(g, moves, states, t, job)
    ensures Inv(g, states[1]) && OwnersOnly(states[0], states[1])
    ensures match job
            case Malloc(size) =>
              if size == 0 || size > PTRDIFF_MAX then states[1] == states[0]
              else states[1].w == states[0].w && states[1].threads[t] == IDLE.(pc := ReadFlag, job := job)
            case Free(id) =>
              && id in states[0].w.own && states[0].w.own[id] == Client
              && states[1].threads[t] == IDLE.(pc := ReadMeta, job := job)
            case Realloc(id, size, before) =>
              && id in states[0].w.own && states[0].w.own[id] == Client && BLOCK_HEADER + WORD + size < ADDRESS_LIMIT
              && PayloadIs(g, states[0].w, id, before, |before|) && |before| == Capacity(SpaceOf(states[0].w), id)
              && states[1].threads[t] == IDLE.(pc := ReadMeta, job := if size == 0 then Free(id) else job)
  {
    hide Inv, SetupStep, EnterAlloc, ZoneAllocStep, LargeAllocStep, CopyStep, ReadMetaStep, ReadHeaderStep, EnterFreeSection,
      ZoneFreeStep, LargeFreeStep, WriteStep;
    StretchKeepsInv(g, moves, states, 1);
    assert Step(g, states[0], moves[0].t, moves[0].ch) == Next(states[1]);
  }

  // ---- up to the first mutex of a class ----

  // The answer that makes a setup fail, given to t while it holds heap_mutex and the flag is clear.
  ghost predicate SetupRefusedAt(moves: seq<Move>, states: seq<State>, t: nat, y: nat)
    requires y < |moves| < |states|
  {
    && moves[y] == Move(t, Mmap(None)) && LockOf(states[y], HeapMutex) == Some(t) && !states[y].initialized
    && t in states[y].threads && (states[y].threads[t].pc.MakeTiny? || states[y].threads[t].pc.MakeSmall?)
  }

  predicate IsSetup(pc: Pc) {
    pc.ReadFlag? || pc.LockHeap? || pc.RecheckFlag? || pc.MakeTiny? || pc.MakeSmall? || pc.SetFlag? || pc.UnlockHeap?
  }

  lemma SetupStepIs(g: Geometry, s: State, t: nat, ch: Choice)
    requires g.Sound() && t in s.threads && IsSetup(s.threads[t].pc) && !ch.Write?
    ensures Step(g, s, t, ch) == SetupStep(g, s, t, ch)
  {
    hide SetupStep;
  }

  lemma SetupMove(g: Geometry, s: State, t: nat, ch: Choice, s': State)
    requires g.Sound() && t in s.threads && IsSetup(s.threads[t].pc) && !ch.Write? && Step(g, s, t, ch) == Next(s')
    ensures t in s'.threads && s'.w.own == s.w.own
    ensures var pc, pc' := s.threads[t].pc, s'.threads[t].pc;
            && (pc'.Idle? || pc'.LockAlloc? || IsSetup(pc'))
            && (!pc'.Idle? ==> s'.threads[t] == s.threads[t].(pc := pc'))
            && (pc'.Idle? ==> pc == UnlockHeap(false) && s'.threads[t] == IDLE)
            && (pc' == UnlockHeap(false) ==> (pc.MakeTiny? || pc.MakeSmall?) && ch == Mmap(None))
  {
    hide JoinZone, Step, Answer;
    SetupStepIs(g, s, t, ch);
    if ch.Mmap? && ch.r.Some? {
      JoinZoneParts(g, s.w, Tiny, ch.r.value);
      JoinZoneParts(g, s.w, Small, ch.r.value);
    }
  }

  // What is known while t is on its way to the mutex of its class.
  ghost predicate OnTheWay(moves: seq<Move>, states: seq<State>, t: nat, x: nat)
    requires 1 <= x <= |moves| < |states| && t in states[1].threads && t in states[x].threads
  {
    var th := states[x].threads[t];
    && th == states[1].threads[t].(pc := th.pc) && IsSetup(th.pc)
    && (th.pc == UnlockHeap(false) ==> exists y :: 0 <= y < x && SetupRefusedAt(moves, states, t, y))
    && forall y :: 1 <= y < x && !Foreign(moves[y], t) ==> states[y + 1].w.own == states[y].w.own
  }

  lemma MakingHoldsHeap(g: Geometry, s: State, t: nat)
    requires Inv(g, s) && t in s.threads && (s.threads[t].pc.MakeTiny? || s.threads[t].pc.MakeSmall?)
    ensures LockOf(s, HeapMutex) == Some(t) && !s.initialized
  {
    hide Inv, WorldOk;
    InvThread(g, s, t);
    InvHolds(g, s, t);
  }

  lemma {:induction false} SetupWay(g: Geometry, moves: seq<Move>, states: seq<State>, t: nat, x: nat)
    requires g.Sound() && InCall(g, moves, states, t, 1) && 1 <= x < |moves| && IsSetup(states[1].threads[t].pc)
    requires states[1].threads[t].pc != UnlockHeap(false)
    requires forall y :: 1 <= y <= x ==> PhaseOf(states[y].threads[t].pc) == Starting
    ensures OnTheWay(moves, states, t, x)
  {
    hide Inv, Step;
    if x > 1 {
      SetupWay(g, moves, states, t, x - 1);
      StretchKeepsInv(g, moves, states, x - 1);
      var m, s, s' := moves[x - 1], states[x - 1], states[x];
      assert Step(g, s, m.t, m.ch) == Next(s');
      if Foreign(m, t) {
        ForeignMove(g, s, m, t, s');
      } else {
        SetupMove(g, s, t, m.ch, s');
        if s'.threads[t].pc == UnlockHeap(false) {
          MakingHoldsHeap(g, s, t);
          assert SetupRefusedAt(moves, states, t, x - 1);
        }
      }
    }
  }

  lemma StartingIsOutside(states: seq<State>, t: nat, a: nat, b: nat)
    requires a <= b < |states| && forall x :: a <= x <= b ==> t in states[x].threads
    requires forall x :: a <= x <= b ==> PhaseOf(states[x].threads[t].pc) == Starting
    ensures forall x :: a <= x <= b ==> !Inside(states, t, x)
  {}

  lemma SetupEnds(g: Geometry, moves: seq<Move>, states: seq<State>, t: nat, k: nat)
    requires g.Sound() && InCall(g, moves, states, t, 1) && 1 <= k < |moves| && OnTheWay(moves, states, t, k)
    requires PhaseOf(states[k + 1].threads[t].pc) != Starting
    ensures if states[k + 1].threads[t].pc.LockAlloc? then states[k + 1].threads[t] == states[1].threads[t].(pc := LockAlloc)
            else k + 1 == |moves| && states[k].threads[t].pc == UnlockHeap(false) && states[k + 1].w.own == states[k].w.own
  {
    hide Inv, Step;
    StretchKeepsInv(g, moves, states, k);
    var m := moves[k];
    assert Step(g, states[k], m.t, m.ch) == Next(states[k + 1]);
    if Foreign(m, t) {
      ForeignMove(g, states[k], m, t, states[k + 1]);
    } else {
      SetupMove(g, states[k], t, m.ch, states[k + 1]);
    }
  }

  // ---- malloc ----

  // The setup was refused: the call hands out nothing, and no move of t changes an owner.
  ghost predicate SetupRefused(moves: seq<Move>, states: seq<State>, t: nat)
    requires |states| == |moves| + 1
  {
    && (exists y :: 0 <= y < |moves| && SetupRefusedAt(moves, states, t, y))
    && (forall y :: 0 <= y < |moves| && !Foreign(moves[y], t) ==> states[y + 1].w.own == states[y].w.own)
    && (forall x :: 0 <= x < |states| ==> !Inside(states, t, x))
  }

  // The call was one locked allocation for size, the moves from i to the end, with result r.
  ghost predicate OneAllocation(g: Geometry, moves: seq<Move>, states: seq<State>, t: nat, job: Job, i: nat, r: Option<BlockId>)
    requires g.Sound() && |states| == |moves| + 1
  {
    && MallocPart(g, moves, states, t, i, |moves|, job, r)
    && (forall x :: 0 <= x < |states| && Inside(states, t, x) ==> i < x)
  }

  lemma AllocationEndsCall(g: Geometry, moves: seq<Move>, states: seq<State>, t: nat, i: nat, j: nat, job: Job, r: Option<BlockId>)
    requires g.Sound() && InCall(g, moves, states, t, 1) && job.Malloc? && 1 <= i && MallocPart(g, moves, states, t, i, j, job, r)
    ensures j == |moves|
  {
    hide Inv, Step, RanAlloc, Section;
  }

  lemma RefusedCall(g: Geometry, moves: seq<Move>, states: seq<State>, t: nat, job: Job, k: nat)
    requires g.Sound() && Call(g, moves, states, t, job) && states[1].w.own == states[0].w.own
    requires 1 <= k && k + 1 == |moves| && OnTheWay(moves, states, t, k) && states[k].threads[t].pc == UnlockHeap(false)
    requires states[k + 1].w.own == states[k].w.own
    requires forall x :: 1 <= x <= k ==> !Inside(states, t, x)
    ensures SetupRefused(moves, states, t)
  {
    hide Inv, Step, SetupRefusedAt;
  }

  // malloc returns NULL at once for 0 and above PTRDIFF_MAX, and touches nothing.  Otherwise it runs
  // exactly one allocation for the size and returns what that gives; or mmap refused one of the two
  // zones of the setup to this very thread.
  lemma MallocCall(g: Geometry, moves: seq<Move>, states: seq<State>, t: nat, size: nat) returns (i: nat, r: Option<BlockId>)
    requires g.Sound() && Call(g, moves, states, t, Malloc(size))
    ensures size == 0 || size > PTRDIFF_MAX ==> |moves| == 1 && states[1] == states[0]
    ensures 0 < size <= PTRDIFF_MAX ==>
              OneAllocation(g, moves, states, t, Malloc(size), i, r) || SetupRefused(moves, states, t)
  {
    hide Inv, Step, MallocPart, SetupRefusedAt;
    CallBegins(g, moves, states, t, Malloc(size));
    i, r := 0, None;
    if 0 < size <= PTRDIFF_MAX {
      var k := PhaseEnds(states, t, 1);
      SetupWay(g, moves, states, t, k);
      SetupEnds(g, moves, states, t, k);
      StartingIsOutside(states, t, 1, k);
      if states[k + 1].threads[t].pc.LockAlloc? {
        var j;
        i, j, r := FindMallocPart(g, moves, states, t, k + 1);
        AllocationEndsCall(g, moves, states, t, i, j, Malloc(size), r);
      } else {
        RefusedCall(g, moves, states, t, Malloc(size), k);
      }
    }
  }

  // ---- free ----

  // The call was one locked free of the block, the moves from i to the end; at its unlock nobody owns
  // the block.
  ghost predicate OneFree(g: Geometry, moves: seq<Move>, states: seq<State>, t: nat, id: BlockId, i: nat)
    requires g.Sound() && |states| == |moves| + 1
  {
    && FreePart(g, moves, states, t, i, Free(id), None)
    && (forall x :: 0 <= x < |states| && Inside(states, t, x) ==> i < x)
  }

  // What the two unlocked reads lead to: the mutex of the class for free; for realloc the return if the
  // block is large enough as it is, else the mutex of the class of the request.
  lemma ReadMove(g: Geometry, s: State, t: nat, ch: Choice, s': State)
    requires g.Sound() && Inv(g, s) && t in s.threads && !ch.Write? && Step(g, s, t, ch) == Next(s')
    requires s.threads[t].pc.ReadMeta? || s.threads[t].pc.ReadHeader?
    ensures t in s'.threads && OwnersOnly(s, s') && !s.threads[t].job.Malloc?
    ensures var th, th' := s.threads[t], s'.threads[t];
            if th.pc.ReadMeta? then th'.pc.ReadHeader? && th' == th.(pc := th'.pc)
            else if th.job.Free? then th'.pc.LockFree? && th' == th.(pc := th'.pc) && th.target.None?
            else if th.job.size <= |th.job.before| then th' == IDLE && s'.w.own == s.w.own[th.job.id := Client]
            else th'.pc.LockAlloc? && th'.job == th.job && s'.w == s.w
  {
    hide Inv, WorldOk, PayloadIs, BeginStep, SetupStep, EnterAlloc, ZoneAllocStep, LargeAllocStep, CopyStep, EnterFreeSection,
      ZoneFreeStep, LargeFreeStep, WriteStep, SpaceOf, HeaderAt;
    InvThread(g, s, t);
    UnlockedReadsAreRight(g, s, t);
  }

  lemma {:induction false} ReadWay(g: Geometry, moves: seq<Move>, states: seq<State>, t: nat, x: nat)
    requires g.Sound() && InCall(g, moves, states, t, 1) && 1 <= x < |moves| && states[1].threads[t].pc.ReadMeta?
    requires forall y :: 1 <= y <= x ==> PhaseOf(states[y].threads[t].pc) == Starting
    ensures states[x].threads[t].pc.ReadMeta? || states[x].threads[t].pc.ReadHeader?
    ensures states[x].threads[t] == states[1].threads[t].(pc := states[x].threads[t].pc)
    ensures forall y :: 1 <= y < x && !Foreign(moves[y], t) ==> OwnersOnly(states[y], states[y + 1])
  {
    hide Inv, Step;
    if x > 1 {
      ReadWay(g, moves, states, t, x - 1);
      StretchKeepsInv(g, moves, states, x - 1);
      var m, s, s' := moves[x - 1], states[x - 1], states[x];
      assert Step(g, s, m.t, m.ch) == Next(s');
      if Foreign(m, t) {
        ForeignMove(g, s, m, t, s');
      } else {
        ReadMove(g, s, t, m.ch, s');
      }
    }
  }

  lemma ReadsEnd(g: Geometry, moves: seq<Move>, states: seq<State>, t: nat, k: nat)
    requires g.Sound() && InCall(g, moves, states, t, 1) && 1 <= k < |moves|
    requires states[k].threads[t].pc.ReadMeta? || states[k].threads[t].pc.ReadHeader?
    requires PhaseOf(states[k + 1].threads[t].pc) != Starting
    ensures OwnersOnly(states[k], states[k + 1]) && Inv(g, states[k + 1])
    ensures var th, th' := states[k].threads[t], states[k + 1].threads[t];
            && !th.job.Malloc?
            && if th.job.Free? then th'.pc.LockFree? && th' == th.(pc := th'.pc) && th.target.None?
               else if th.job.size <= |th.job.before| then
                 k + 1 == |moves| && th'.pc.Idle? && states[k + 1].w.own == states[k].w.own[th.job.id := Client]
               else th'.pc.LockAlloc? && th'.job == th.job
  {
    hide Inv, Step;
    StretchKeepsInv(g, moves, states, k);
    StretchKeepsInv(g, moves, states, k + 1);
    var m := moves[k];
    assert Step(g, states[k], m.t, m.ch) == Next(states[k + 1]);
    if Foreign(m, t) {
      ForeignMove(g, states[k], m, t, states[k + 1]);
    } else {
      ReadMove(g, states[k], t, m.ch, states[k + 1]);
    }
  }

  // The locked free of a call that waits for the mutex in state k.
  lemma FreeFrom(g: Geometry, moves: seq<Move>, states: seq<State>, t: nat, k: nat) returns (i: nat)
    requires g.Sound() && InCall(g, moves, states, t, k) && states[k].threads[t].pc.LockFree? && states[k].threads[t].job.Free?
    ensures k <= i && FreePart(g, moves, states, t, i, states[k].threads[t].job, states[k].threads[t].target)
    ensures forall x :: k <= x <= i ==> !Inside(states, t, x)
  {
    hide Inv, Step;
    i := PhaseEnds(states, t, k);
    WaitKeepsCall(g, moves, states, t, k, i);
    PhaseChange(g, moves, states, t, i);
    FindFreePart(g, moves, states, t, i);
  }

  // free of a block, and realloc of a block to size 0: over the whole call t runs exactly one section,
  // the free of the block.
  lemma FreeCall(g: Geometry, moves: seq<Move>, states: seq<State>, t: nat, job: Job, id: BlockId) returns (i: nat)
    requires g.Sound() && Call(g, moves, states, t, job)
    requires job == Free(id) || (job.Realloc? && job.id == id && job.size == 0)
    ensures id in states[0].w.own && states[0].w.own[id] == Client
    ensures OneFree(g, moves, states, t, id, i)
  {
    hide Inv, Step, FreePart;
    CallBegins(g, moves, states, t, job);
    var k := PhaseEnds(states, t, 1);
    ReadWay(g, moves, states, t, k);
    StartingIsOutside(states, t, 1, k);
    ReadsEnd(g, moves, states, t, k);
    i := FreeFrom(g, moves, states, t, k + 1);
  }

  // ---- realloc ----

  // t entered no section and changed nothing but the record of owners; its client has the block back,
  // with its capacity and every byte it had at the call.
  ghost predicate Stayed(g: Geometry, moves: seq<Move>, states: seq<State>, t: nat, job: Job)
    requires |states| == |moves| + 1 && job.Realloc?
  {
    var last := states[|moves|].w;
    && (forall x :: 0 <= x < |states| ==> !Inside(states, t, x))
    && (forall y :: 0 <= y < |moves| && !Foreign(moves[y], t) ==> OwnersOnly(states[y], states[y + 1]))
    && job.id in last.own && last.own[job.id] == Client
    && PayloadIs(g, last, job.id, job.before, |job.before|) && Capacity(SpaceOf(last), job.id) == |job.before|
  }

  // The moves from i to j were one locked allocation for the size.  Without a result the call ended
  // there, and the client has its block back with its bytes; with one, the bytes were copied and the
  // moves from k to the end were one locked free of the old block.  t was in no other section.
  ghost predicate Moved(g: Geometry, moves: seq<Move>, states: seq<State>, t: nat, job: Job, i: nat, j: nat, k: nat, r: Option<BlockId>)
    requires g.Sound() && |states| == |moves| + 1 && job.Realloc?
  {
    var n := |moves|;
    && MallocPart(g, moves, states, t, i, j, job, r)
    && (r.None? ==>
          && j == n && job.id in states[n].w.own && states[n].w.own[job.id] == Client
          && PayloadIs(g, states[n].w, job.id, job.before, |job.before|))
    && (r.Some? ==> CopyPart(g, moves, states, t, j, k, job, r.value) && FreePart(g, moves, states, t, k, job, r))
    && (forall x :: 0 <= x < |states| && Inside(states, t, x) ==> i < x < j || (r.Some? && k < x))
  }

  // A realloc to a size above 0 stays exactly when the size is at most the capacity of the block.
  lemma ReallocCall(g: Geometry, moves: seq<Move>, states: seq<State>, t: nat, id: BlockId, size: nat, before: seq<byte>)
    returns (i: nat, j: nat, k: nat, r: Option<BlockId>)
    requires g.Sound() && Call(g, moves, states, t, Realloc(id, size, before)) && size > 0
    ensures id in states[0].w.own && states[0].w.own[id] == Client
    ensures PayloadIs(g, states[0].w, id, before, |before|) && Capacity(SpaceOf(states[0].w), id) == |before|
    ensures if size <= |before| then Stayed(g, moves, states, t, Realloc(id, size, before))
            else Moved(g, moves, states, t, Realloc(id, size, before), i, j, k, r)
  {
    hide Inv, Step, PayloadIs, MallocPart, FreePart, CopyPart, SpaceOf, Capacity;
    var job := Realloc(id, size, before);
    CallBegins(g, moves, states, t, job);
    var s := PhaseEnds(states, t, 1);
    ReadWay(g, moves, states, t, s);
    StartingIsOutside(states, t, 1, s);
    ReadsEnd(g, moves, states, t, s);
    i, j, k, r := 0, 0, 0, None;
    if size <= |before| {
      StaysIntact(g, moves, states, t, s);
    } else {
      i, j, k, r := ReallocIsMallocCopyFree(g, moves, states, t, s + 1);
      if r.None? { GivenBack(g, moves, states, t, i, j, job); }
    }
  }

  lemma GivenBack(g: Geometry, moves: seq<Move>, states: seq<State>, t: nat, i: nat, j: nat, job: Job)
    requires g.Sound() && |states| == |moves| + 1 && job.Realloc? && MallocPart(g, moves, states, t, i, j, job, None)
    ensures job.id in states[j].w.own && states[j].w.own[job.id] == Client
  {
    hide RanAlloc, Section;
  }

  lemma StaysIntact(g: Geometry, moves: seq<Move>, states: seq<State>, t: nat, k: nat)
    requires g.Sound() && Stretch(g, moves, states) && k < |moves| && t in states[k].threads && states[k].threads[t].job.Realloc?
    requires states[k].threads[t].pc.ReadMeta? || states[k].threads[t].pc.ReadHeader?
    requires OwnersOnly(states[k], states[k + 1])
    ensures var job := states[k].threads[t].job;
            && PayloadIs(g, states[k + 1].w, job.id, job.before, |job.before|)
            && Capacity(SpaceOf(states[k + 1].w), job.id) == |job.before|
  {
    hide Inv, Step, WorldOk, PayloadIs, Capacity, SpaceOf;
    StretchKeepsInv(g, moves, states, k);
    InvThread(g, states[k], t);
    var job := states[k].threads[t].job;
    PayloadOfOwners(g, states[k].w, states[k + 1].w, job.id, job.before, |job.before|);
  }

  // ---- the setup ----

  // Before move x thread t, holding heap_mutex and with the flag clear, was granted a zone of class c,
  // which joined its class.
  ghost predicate SetUpBefore(g: Geometry, moves: seq<Move>, states: seq<State>, t: nat, c: ZoneClass, x: nat)
    requires x <= |moves| < |states|
  {
    exists y, a :: 0 <= y < x && moves[y] == Move(t, Mmap(Some(a))) && GrantsZone(g, states[y], states[y + 1], t, c, a)
  }

  ghost predicate GrantsZone(g: Geometry, s: State, s': State, t: nat, c: ZoneClass, a: nat) {
    && LockOf(s, HeapMutex) == Some(t) && !s.initialized && Answer(s.w.mem, Some(a), g.Length(c))
    && PoolOf(s'.w, c) == Z.AppendFree(Z.MapZone(PoolOf(s.w, c), a, g.Blocks(c)), a)
  }

  // How far each thread, and the flag, can be trusted at state x.
  ghost predicate SetupInOrder(g: Geometry, moves: seq<Move>, states: seq<State>, x: nat)
    requires x <= |moves| < |states|
  {
    && (forall t :: t in states[x].threads && (states[x].threads[t].pc.MakeSmall? || states[x].threads[t].pc.SetFlag?) ==>
          SetUpBefore(g, moves, states, t, Tiny, x))
    && (forall t :: t in states[x].threads && states[x].threads[t].pc.SetFlag? ==> SetUpBefore(g, moves, states, t, Small, x))
    && (states[x].initialized ==>
          exists t :: SetUpBefore(g, moves, states, t, Tiny, x) && SetUpBefore(g, moves, states, t, Small, x))
  }

  // The places of the setup are reached, and the flag is set, only one after the other.
  ghost predicate SetupStepsFollow(g: Geometry, s: State, t: nat, ch: Choice, s': State)
    requires t in s.threads && t in s'.threads
  {
    var pc, pc' := s.threads[t].pc, s'.threads[t].pc;
    && (pc'.MakeSmall? ==> pc.MakeTiny? && ch.Mmap? && ch.r.Some? && GrantsZone(g, s, s', t, Tiny, ch.r.value))
    && (pc'.SetFlag? ==> pc.MakeSmall? && ch.Mmap? && ch.r.Some? && GrantsZone(g, s, s', t, Small, ch.r.value))
    && (s'.initialized ==> s.initialized || pc.SetFlag?)
  }

  lemma SetupFollows(g: Geometry, s: State, t: nat, ch: Choice, s': State)
    requires g.Sound() && Inv(g, s) && t in s.threads && IsSetup(s.threads[t].pc) && !ch.Write? && Step(g, s, t, ch) == Next(s')
    ensures t in s'.threads && SetupStepsFollow(g, s, t, ch, s')
  {
    hide Inv, JoinZone, Step, Answer;
    SetupStepIs(g, s, t, ch);
    if ch.Mmap? && ch.r.Some? && (s.threads[t].pc.MakeTiny? || s.threads[t].pc.MakeSmall?) {
      MakingHoldsHeap(g, s, t);
      JoinZoneParts(g, s.w, if s.threads[t].pc.MakeTiny? then Tiny else Small, ch.r.value);
    }
  }

  lemma SectionKeepsFlag(g: Geometry, s: State, t: nat, ch: Choice)
    requires g.Sound() && t in s.threads
    ensures forall c, snap, at :: !s.threads[t].job.Free? ==>
              var o := ZoneAllocStep(g, s, t, c, snap, at, ch); o.Next? ==> o.s.initialized == s.initialized
    ensures forall snap, at :: !s.threads[t].job.Free? ==>
              var o := LargeAllocStep(g, s, t, snap, at, ch); o.Next? ==> o.s.initialized == s.initialized
    ensures forall c, snap, at :: !s.threads[t].job.Malloc? ==>
              var o := ZoneFreeStep(g, s, t, c, snap, at); o.Next? ==> o.s.initialized == s.initialized
    ensures forall snap, at :: !s.threads[t].job.Malloc? ==>
              var o := LargeFreeStep(g, s, t, snap, at); o.Next? ==> o.s.initialized == s.initialized
  {
    hide AddZone, AddBlock, Take, Give, Reuse, Cache, DropZone, DropBlock, Answer, Z.FirstFree, B.FirstFit, MetaUnderLock, MapLength;
  }

  // No other step has to do with the setup.
  lemma OthersFollow(g: Geometry, s: State, t: nat, ch: Choice, s': State)
    requires g.Sound() && t in s.threads && !IsSetup(s.threads[t].pc) && !ch.Write? && Step(g, s, t, ch) == Next(s')
    ensures t in s'.threads && SetupStepsFollow(g, s, t, ch, s')
  {
    hide SetupStep, ZoneAllocStep, LargeAllocStep, ZoneFreeStep, LargeFreeStep, GrantsZone, HeaderAt, Exists, Mapped, Capacity, WriteStep;
    if InSection(s.threads[t].pc) {
      SectionFollows(g, s, t, ch, s');
    }
  }

  lemma SectionFollows(g: Geometry, s: State, t: nat, ch: Choice, s': State)
    requires g.Sound() && t in s.threads && InSection(s.threads[t].pc) && !ch.Write? && Step(g, s, t, ch) == Next(s')
    ensures t in s'.threads && SetupStepsFollow(g, s, t, ch, s')
  {
    hide BeginStep, SetupStep, EnterAlloc, ZoneAllocStep, LargeAllocStep, CopyStep, ReadMetaStep, ReadHeaderStep, EnterFreeSection,
      ZoneFreeStep, LargeFreeStep, WriteStep, GrantsZone;
    OwnThread(g, s, t, ch);
    SectionKeepsFlag(g, s, t, ch);
    if !InSection(s'.threads[t].pc) { UnlockEffect(g, s, t, ch, s'); }
  }

  lemma SetUpStays(g: Geometry, moves: seq<Move>, states: seq<State>, x: nat)
    requires x < |moves| < |states|
    ensures forall t, c :: SetUpBefore(g, moves, states, t, c, x) ==> SetUpBefore(g, moves, states, t, c, x + 1)
  {}

  lemma JustSetUp(g: Geometry, moves: seq<Move>, states: seq<State>, t: nat, c: ZoneClass, x: nat, a: nat)
    requires x < |moves| < |states| && moves[x] == Move(t, Mmap(Some(a))) && GrantsZone(g, states[x], states[x + 1], t, c, a)
    ensures SetUpBefore(g, moves, states, t, c, x + 1)
  {}

  // The flag is set only by a thread that has mapped the first zone of both classes, under heap_mutex.
  lemma {:induction false} FlagMeansSetup(g: Geometry, ids: set<nat>, moves: seq<Move>, states: seq<State>, x: nat)
    requires g.Sound() && Execution(g, ids, moves, states) && x <= |moves|
    ensures SetupInOrder(g, moves, states, x)
  {
    hide Inv, Step, SetUpBefore, GrantsZone;
    if x > 0 {
      FlagMeansSetup(g, ids, moves, states, x - 1);
      ExecutionsKeepInvariant(g, ids, moves, states, x - 1);
      var m, s, s' := moves[x - 1], states[x - 1], states[x];
      assert Step(g, s, m.t, m.ch) == Next(s');
      SetUpStays(g, moves, states, x - 1);
      OwnThread(g, s, m.t, m.ch);
      if m.t !in s.threads || m.ch.Write? {
        NoCallMove(g, s, m, s');
      } else {
        if IsSetup(s.threads[m.t].pc) { SetupFollows(g, s, m.t, m.ch, s'); } else { OthersFollow(g, s, m.t, m.ch, s'); }
        if s'.threads[m.t].pc.MakeSmall? { JustSetUp(g, moves, states, m.t, Tiny, x - 1, m.ch.r.value); }
        if s'.threads[m.t].pc.SetFlag? { JustSetUp(g, moves, states, m.t, Small, x - 1, m.ch.r.value); }
      }
    }
  }

  lemma NoCallMove(g: Geometry, s: State, m: Move, s': State)
    requires g.Sound() && (m.t !in s.threads || m.ch.Write?) && Step(g, s, m.t, m.ch) == Next(s')
    ensures s'.threads == s.threads && s'.initialized == s.initialized
  {}
}
