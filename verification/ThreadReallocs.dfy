/** A call of realloc that has to move, over a whole execution: malloc, copy and free, each of them
    atomic in what it does to its class, with other threads running before, between and within. */
module ThreadReallocs {
  import opened Sequences
  import opened Layout
  import opened Spaces
  import opened Worlds
  import opened Threads
  import opened ThreadInvariant
  import opened ThreadTheorems
  import opened ThreadClients
  import opened ThreadSections

  // Where the call is.
  datatype Phase = Resting | Starting | ToLock | Allocating | Copying | ToRelock | Freeing

  function PhaseOf(pc: Pc): Phase {
    match pc
    case Idle => Resting
    case LockAlloc => ToLock
    case ZoneAlloc(_, _, _) => Allocating
    case LargeAlloc(_, _) => Allocating
    case Copying(_) => Phase.Copying
    case LockFree(_) => ToRelock
    case ZoneFree(_, _, _) => Freeing
    case LargeFree(_, _) => Freeing
    case _ => Starting
  }

  // From state k on thread t is in a call, which ends in the last state.
  ghost predicate InCall(g: Geometry, moves: seq<Move>, states: seq<State>, t: nat, k: nat)
    requires g.Sound()
  {
    && Stretch(g, moves, states) && (forall i :: 0 <= i < |states| ==> t in states[i].threads)
    && k < |moves| && (forall i :: k <= i < |moves| ==> !states[i].threads[t].pc.Idle?)
    && states[|moves|].threads[t].pc.Idle?
  }

  lemma SubStretch(g: Geometry, moves: seq<Move>, states: seq<State>, i: nat, j: nat)
    requires g.Sound() && Stretch(g, moves, states) && i <= j <= |moves|
    ensures Stretch(g, moves[i..j], states[i..j + 1])
  {
    hide Inv, Step;
    StretchKeepsInv(g, moves, states, i);
    forall x | 0 <= x < j - i
      ensures Step(g, states[i..j + 1][x], moves[i..j][x].t, moves[i..j][x].ch) == Next(states[i..j + 1][x + 1])
    {
      assert moves[i..j][x] == moves[i + x] && states[i..j + 1][x] == states[i + x] && states[i..j + 1][x + 1] == states[i + x + 1];
    }
  }

  // The last state in which the thread is still in the phase it is in at k.
  lemma PhaseEnds(states: seq<State>, t: nat, k: nat) returns (i: nat)
    requires k < |states| && forall x :: 0 <= x < |states| ==> t in states[x].threads
    requires PhaseOf(states[|states| - 1].threads[t].pc) != PhaseOf(states[k].threads[t].pc)
    ensures k <= i < |states| - 1
    ensures forall x :: k <= x <= i ==> PhaseOf(states[x].threads[t].pc) == PhaseOf(states[k].threads[t].pc)
    ensures PhaseOf(states[i + 1].threads[t].pc) != PhaseOf(states[k].threads[t].pc)
    decreases |states| - k
  {
    if PhaseOf(states[k + 1].threads[t].pc) != PhaseOf(states[k].threads[t].pc) {
      i := k;
    } else {
      i := PhaseEnds(states, t, k + 1);
    }
  }

  // A move that changes the phase is one of the thread itself, and leads to the next phase.
  lemma PhaseChange(g: Geometry, moves: seq<Move>, states: seq<State>, t: nat, i: nat)
    requires g.Sound() && Stretch(g, moves, states) && i < |moves| && t in states[i].threads && t in states[i + 1].threads
    requires PhaseOf(states[i].threads[t].pc) != PhaseOf(states[i + 1].threads[t].pc)
    ensures !Foreign(moves[i], t)
    ensures match PhaseOf(states[i].threads[t].pc)
            case ToLock => PhaseOf(states[i + 1].threads[t].pc) == Allocating
            case Copying => PhaseOf(states[i + 1].threads[t].pc) == ToRelock
            case ToRelock => PhaseOf(states[i + 1].threads[t].pc) == Freeing
            case _ => true
  {
    hide Inv, Step, BeginStep, SetupStep, ZoneAllocStep, LargeAllocStep, ReadMetaStep, ReadHeaderStep, ZoneFreeStep, LargeFreeStep, WriteStep;
    StretchKeepsInv(g, moves, states, i);
    assert Step(g, states[i], moves[i].t, moves[i].ch) == Next(states[i + 1]);
    if Foreign(moves[i], t) {
      ForeignMove(g, states[i], moves[i], t, states[i + 1]);
    } else if PhaseOf(states[i].threads[t].pc) in {ToLock, Phase.Copying, ToRelock} {
      PhaseStep(g, states[i], t, moves[i].ch, states[i + 1]);
    }
  }

  lemma PhaseStep(g: Geometry, s: State, t: nat, ch: Choice, s': State)
    requires g.Sound() && t in s.threads && !ch.Write? && Step(g, s, t, ch) == Next(s')
    requires s.threads[t].pc.LockAlloc? || s.threads[t].pc.Copying? || s.threads[t].pc.LockFree?
    ensures t in s'.threads && s'.threads[t] == s.threads[t].(pc := s'.threads[t].pc)
    ensures OnlyClass(s.w, s'.w, None) && s'.w.own == s.w.own
    ensures var pc, pc' := s.threads[t].pc, s'.threads[t].pc;
            && (pc.LockAlloc? ==> PhaseOf(pc') == Allocating)
            && (pc.Copying? ==> PhaseOf(pc') == Phase.Copying || PhaseOf(pc') == ToRelock)
            && (pc.LockFree? ==> PhaseOf(pc') == Freeing)
  {
    hide BeginStep, SetupStep, ZoneAllocStep, LargeAllocStep, ReadMetaStep, ReadHeaderStep, ZoneFreeStep, LargeFreeStep, WriteStep;
  }

  // ---- between the two sections ----

  // A move of t between its sections touches no class and no owner, and no byte but those of the
  // block it copies into.
  ghost predicate Private(g: Geometry, s: State, t: nat, s': State)
    requires t in s.threads
  {
    && OnlyClass(s.w, s'.w, None) && s'.w.own == s.w.own && s.threads[t].target.Some?
    && forall a :: a in s.w.mem ==>
         && a in s'.w.mem
         && (s'.w.mem[a] == s.w.mem[a] || InPayload(g, SpaceOf(s.w), s.threads[t].target.value, a))
  }

  lemma PrivateMove(g: Geometry, s: State, t: nat, ch: Choice, s': State)
    requires g.Sound() && Inv(g, s) && t in s.threads && s.threads[t].job.Realloc? && !ch.Write? && Step(g, s, t, ch) == Next(s')
    requires s.threads[t].pc.Copying? || s.threads[t].pc.LockFree?
    ensures Private(g, s, t, s')
  {
    hide Inv, WorldOk, PayloadIs;
    InvThread(g, s, t);
    if s.threads[t].pc.Copying? {
      CopyIsPrivate(g, s, t, s.threads[t].pc.done, s');
    }
  }

  lemma CopyIsPrivate(g: Geometry, s: State, t: nat, i: nat, s': State)
    requires t in s.threads && s.threads[t].target.Some? && CopyStep(g, s, t, i) == Next(s')
    requires !s.threads[t].job.Malloc? && Exists(g, SpaceOf(s.w), s.threads[t].target.value)
    requires s.threads[t].oldSize <= Capacity(SpaceOf(s.w), s.threads[t].target.value)
    ensures Private(g, s, t, s')
  {
    hide Exists, Capacity, SpaceOf;
  }

  lemma {:induction false} CopyKeepsCall(g: Geometry, moves: seq<Move>, states: seq<State>, t: nat, j: nat, x: nat)
    requires g.Sound() && Stretch(g, moves, states) && j <= x <= |moves| && forall y :: j <= y <= x ==> t in states[y].threads
    requires forall y :: j <= y <= x ==> PhaseOf(states[y].threads[t].pc) in {Phase.Copying, ToRelock}
    ensures states[x].threads[t] == states[j].threads[t].(pc := states[x].threads[t].pc)
  {
    hide Inv, Step;
    if j < x {
      CopyKeepsCall(g, moves, states, t, j, x - 1);
      StretchKeepsInv(g, moves, states, x - 1);
      assert Step(g, states[x - 1], moves[x - 1].t, moves[x - 1].ch) == Next(states[x]);
      if Foreign(moves[x - 1], t) {
        ForeignMove(g, states[x - 1], moves[x - 1], t, states[x]);
      } else {
        PhaseStep(g, states[x - 1], t, moves[x - 1].ch, states[x]);
      }
    }
  }

  // ---- the whole call ----

  lemma {:induction false} WaitKeepsCall(g: Geometry, moves: seq<Move>, states: seq<State>, t: nat, k: nat, x: nat)
    requires g.Sound() && InCall(g, moves, states, t, k) && k <= x <= |moves|
    requires forall y :: k <= y <= x ==> PhaseOf(states[y].threads[t].pc) == PhaseOf(states[k].threads[t].pc)
    requires PhaseOf(states[k].threads[t].pc) in {ToLock, ToRelock}
    ensures states[x].threads[t] == states[k].threads[t]
  {
    hide Inv, Step;
    if k < x {
      WaitKeepsCall(g, moves, states, t, k, x - 1);
      StretchKeepsInv(g, moves, states, x - 1);
      assert Step(g, states[x - 1], moves[x - 1].t, moves[x - 1].ch) == Next(states[x]);
      if Foreign(moves[x - 1], t) {
        ForeignMove(g, states[x - 1], moves[x - 1], t, states[x]);
      } else {
        PhaseStep(g, states[x - 1], t, moves[x - 1].ch, states[x]);
      }
    }
  }

  // The states of one section, cut out of a longer stretch.
  lemma SubSection(g: Geometry, moves: seq<Move>, states: seq<State>, t: nat, i: nat, j: nat)
    requires g.Sound() && Stretch(g, moves, states) && i + 2 <= j <= |moves|
    requires forall x :: i <= x <= j ==> t in states[x].threads
    requires Holds(states[i].threads[t].pc).None? && Holds(states[j].threads[t].pc).None?
    requires forall x :: i < x < j ==> InSection(states[x].threads[t].pc)
    ensures Section(g, moves[i..j], states[i..j + 1], t)
  {
    hide Inv, Step, InSection, Holds;
    SubStretch(g, moves, states, i, j);
    var part := states[i..j + 1];
    assert part[0] == states[i] && part[j - i] == states[j];
    forall x | 1 <= x < j - i ensures t in part[x].threads && InSection(part[x].threads[t].pc) { assert part[x] == states[i + x]; }
  }

  // The moves from i to j were one locked allocation with result r.
  ghost predicate MallocPart(g: Geometry, moves: seq<Move>, states: seq<State>, t: nat, i: nat, j: nat, job: Job, r: Option<BlockId>)
    requires g.Sound() && |states| == |moves| + 1
  {
    && i < j <= |moves| && Section(g, moves[i..j], states[i..j + 1], t) && !job.Free?
    && RanAlloc(g, moves[i..j], states[i..j + 1], t, job.size, r)
    && t in states[j].threads && Delivered(states[i].w, states[j], t, job, r)
  }

  // The moves from k to the end were one locked free of the block of the call.
  ghost predicate FreePart(g: Geometry, moves: seq<Move>, states: seq<State>, t: nat, k: nat, job: Job, r: Option<BlockId>)
    requires g.Sound() && |states| == |moves| + 1 && !job.Malloc?
  {
    var n := |moves|;
    && k < n && Section(g, moves[k..], states[k..], t) && RanFree(g, states[k].w, states[n].w, job.id)
    && t in states[n].threads && Returned(g, states[n], t, job, r)
  }

  // The locked allocation of a call that waits for the mutex in state k.
  lemma FindMallocPart(g: Geometry, moves: seq<Move>, states: seq<State>, t: nat, k: nat) returns (i: nat, j: nat, r: Option<BlockId>)
    requires g.Sound() && InCall(g, moves, states, t, k) && states[k].threads[t].pc.LockAlloc?
    ensures k <= i && MallocPart(g, moves, states, t, i, j, states[k].threads[t].job, r)
    ensures forall x :: k <= x <= i ==> PhaseOf(states[x].threads[t].pc) == ToLock && !InSection(states[x].threads[t].pc)
    ensures var job := states[k].threads[t].job; r.None? && job.Realloc? ==> PayloadIs(g, states[j].w, job.id, job.before, |job.before|)
  {
    hide Inv, Step, RanAlloc, Delivered;
    i := PhaseEnds(states, t, k);
    WaitKeepsCall(g, moves, states, t, k, i);
    PhaseChange(g, moves, states, t, i);
    j := PhaseEnds(states, t, i + 1);
    AfterSection(g, moves, states, t, j);
    j := j + 1;
    SubSection(g, moves, states, t, i, j);
    assert states[i..j + 1][0] == states[i] && states[i..j + 1][1] == states[i + 1] && states[i..j + 1][j - i] == states[j];
    AllocSection(g, moves[i..j], states[i..j + 1], t);
    r := SectionResult(states[i..j + 1][j - i - 1].threads[t].pc).value;
    if r.None? && states[k].threads[t].job.Realloc? { GaveUp(g, moves[i..j], states[i..j + 1], t); }
  }

  // The old block after a refusal.
  lemma GaveUp(g: Geometry, moves: seq<Move>, states: seq<State>, t: nat)
    requires g.Sound() && Section(g, moves, states, t) && states[0].threads[t].job.Realloc?
    requires SectionResult(states[|moves| - 1].threads[t].pc) == Some(None)
    ensures var job := states[0].threads[t].job; PayloadIs(g, states[|moves|].w, job.id, job.before, |job.before|)
  {
    hide Inv, Step, PayloadIs;
    var n := |moves|;
    StartsWithAcquire(g, moves, states, t);
    SectionKeeps(g, moves, states, t, n - 1);
    EndsWithUnlock(g, moves, states, t);
    assert Step(g, states[n - 1], t, moves[n - 1].ch) == Next(states[n]);
    ReallocGivesUp(g, states[n - 1], t, moves[n - 1].ch, states[n]);
  }

  // A section is left by its unlock, after which no mutex is held.
  lemma AfterSection(g: Geometry, moves: seq<Move>, states: seq<State>, t: nat, i: nat)
    requires g.Sound() && Stretch(g, moves, states) && i < |moves| && t in states[i].threads && t in states[i + 1].threads
    requires InSection(states[i].threads[t].pc) && PhaseOf(states[i + 1].threads[t].pc) != PhaseOf(states[i].threads[t].pc)
    ensures Holds(states[i + 1].threads[t].pc).None?
  {
    hide Inv, Step;
    StretchKeepsInv(g, moves, states, i);
    var m, s, s' := moves[i], states[i], states[i + 1];
    assert Step(g, s, m.t, m.ch) == Next(s');
    if Foreign(m, t) {
      ForeignMove(g, s, m, t, s');
    } else {
      OwnThread(g, s, t, m.ch);
      UnlockEffect(g, s, t, m.ch, s');
    }
  }

  // From the first byte copied, if there is one, to the taking of the second mutex.
  ghost predicate CopyPart(g: Geometry, moves: seq<Move>, states: seq<State>, t: nat, j: nat, k: nat, job: Job, id: BlockId)
    requires |states| == |moves| + 1 && job.Realloc?
  {
    && j <= k <= |moves|
    && (forall x :: j <= x < k && !Foreign(moves[x], t) ==> t in states[x].threads && Private(g, states[x], t, states[x + 1]))
    && PayloadIs(g, states[k].w, id, job.before, |job.before|) && HeldBy(states[k].w, id, t) && HeldBy(states[k].w, job.id, t)
  }

  lemma FindCopyPart(g: Geometry, moves: seq<Move>, states: seq<State>, t: nat, j: nat) returns (k: nat)
    requires g.Sound() && InCall(g, moves, states, t, j)
    requires states[j].threads[t].pc.Copying? && states[j].threads[t].job.Realloc? && states[j].threads[t].target.Some?
    ensures j <= k < |moves| && CopyPart(g, moves, states, t, j, k, states[j].threads[t].job, states[j].threads[t].target.value)
    ensures states[k].threads[t] == states[j].threads[t].(pc := states[k].threads[t].pc)
    ensures states[k].threads[t].pc.LockFree? && PhaseOf(states[k + 1].threads[t].pc) == Freeing
    ensures forall x :: j <= x <= k ==>
              PhaseOf(states[x].threads[t].pc) in {Phase.Copying, ToRelock} && !InSection(states[x].threads[t].pc)
  {
    hide Inv, Step, Private, PayloadIs;
    var m := PhaseEnds(states, t, j);
    CopyKeepsCall(g, moves, states, t, j, m);
    PhaseChange(g, moves, states, t, m);
    k := PhaseEnds(states, t, m + 1);
    CopyKeepsCall(g, moves, states, t, j, k);
    PhaseChange(g, moves, states, t, k);
    StretchKeepsInv(g, moves, states, k);
    CopyIsComplete(g, states[k], t);
    forall x | j <= x < k && !Foreign(moves[x], t)
      ensures Private(g, states[x], t, states[x + 1])
    {
      CopyKeepsCall(g, moves, states, t, j, x);
      StretchKeepsInv(g, moves, states, x);
      PrivateMove(g, states[x], t, moves[x].ch, states[x + 1]);
    }
  }

  lemma CopyIsComplete(g: Geometry, s: State, t: nat)
    requires Inv(g, s) && t in s.threads && s.threads[t].pc.LockFree? && s.threads[t].job.Realloc?
    ensures var th := s.threads[t];
            && th.target.Some? && PayloadIs(g, s.w, th.target.value, th.job.before, |th.job.before|)
            && HeldBy(s.w, th.target.value, t) && HeldBy(s.w, th.job.id, t)
  {
    hide Inv, WorldOk, PayloadIs;
    InvThread(g, s, t);
  }

  lemma FindFreePart(g: Geometry, moves: seq<Move>, states: seq<State>, t: nat, k: nat)
    requires g.Sound() && InCall(g, moves, states, t, k)
    requires states[k].threads[t].pc.LockFree? && !states[k].threads[t].job.Malloc? && PhaseOf(states[k + 1].threads[t].pc) == Freeing
    ensures FreePart(g, moves, states, t, k, states[k].threads[t].job, states[k].threads[t].target)
  {
    hide Inv, Step, RanFree, Section, InSection;
    var j := PhaseEnds(states, t, k + 1);
    FreeingIsInside(states, t);
    AfterSection(g, moves, states, t, j);
    j := j + 1;
    SubSection(g, moves, states, t, k, j);
    var part := states[k..j + 1];
    assert part[0] == states[k] && part[1] == states[k + 1] && part[j - k] == states[j];
    FreeSection(g, moves[k..j], part, t);
    assert j == |moves|;
    assert moves[k..j] == moves[k..] && part == states[k..];
  }

  lemma FreeingIsInside(states: seq<State>, t: nat)
    ensures forall i :: 0 <= i < |states| && t in states[i].threads && PhaseOf(states[i].threads[t].pc) == Freeing ==>
              InSection(states[i].threads[t].pc) && (states[i].threads[t].pc.ZoneFree? || states[i].threads[t].pc.LargeFree?)
  {}

  // A realloc that has to move, from the point where it has found the old block too small, with
  // anything other threads do in between: a locked malloc; if that gets no block, the client has the
  // old one back with its bytes; else a private copy of every byte into a block that was nobody's, and
  // a locked free of the old block.  No other section of t is among the moves.
  lemma ReallocIsMallocCopyFree(g: Geometry, moves: seq<Move>, states: seq<State>, t: nat, s: nat)
    returns (i: nat, j: nat, k: nat, r: Option<BlockId>)
    requires g.Sound() && InCall(g, moves, states, t, s) && states[s].threads[t].pc.LockAlloc? && states[s].threads[t].job.Realloc?
    ensures var job := states[s].threads[t].job;
            && s <= i && MallocPart(g, moves, states, t, i, j, job, r)
            && (r.None? ==> j == |moves| && PayloadIs(g, states[j].w, job.id, job.before, |job.before|))
            && (r.Some? ==> CopyPart(g, moves, states, t, j, k, job, r.value) && FreePart(g, moves, states, t, k, job, r))
    ensures forall x :: s <= x < |states| && InSection(states[x].threads[t].pc) ==> i < x < j || (r.Some? && k < x)
  {
    hide Inv, Step, RanAlloc, CopyPart, FreePart, Section;
    i, j, r := FindMallocPart(g, moves, states, t, s);
    k := j;
    if r.Some? {
      k := FindCopyPart(g, moves, states, t, j);
      FindFreePart(g, moves, states, t, k);
    }
  }
}
