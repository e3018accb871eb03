/** Every step of every thread keeps the invariant, disturbs no other thread and never faults. */
module ThreadSteps {
  import opened Sequences
  import opened Memory
  import opened Layout
  import opened Spaces
  import opened Worlds
  import opened Sections
  import opened Threads
  import opened ThreadInvariant
  import Z = Zones
  import B = Blocks

  ghost predicate Fine(g: Geometry, s: State, t: nat, o: Outcome) {
    !o.Fault? && (o.Next? ==> Inv(g, o.s) && Gentle(g, s, o.s, t))
  }

  lemma BlockedIsFine(g: Geometry, s: State, t: nat)
    ensures Fine(g, s, t, Blocked)
  {}

  // ---- how the parts make a whole ----

  // Mapped bytes stay, and what u holds it keeps: then its blocks are left alone.
  lemma CalmKeepsFor(g: Geometry, w: World, w': World, u: nat)
    requires g.Sound() && WorldOk(g, w) && WorldOk(g, w') && BytesKept(w.mem, w'.mem)
    requires forall id :: HeldBy(w, id, u) ==> HeldBy(w', id, u)
    requires forall b :: b in w.large.sizes && b in w'.large.sizes ==> w'.large.sizes[b] == w.large.sizes[b]
    ensures KeptFor(g, w, w', u)
  {
    hide WorldOk;
    forall id | HeldBy(w, id, u)
      ensures HeldBy(w', id, u) && PayloadKept(g, w, w', id)
    {
      BytesKeptIsKept(g, w, w', id);
    }
  }

  lemma CalmIsKept(g: Geometry, w: World, w': World, t: nat)
    requires g.Sound() && WorldOk(g, w) && WorldOk(g, w') && BytesKept(w.mem, w'.mem)
    requires forall id, u :: u != t && HeldBy(w, id, u) ==> HeldBy(w', id, u)
    requires forall b :: b in w.large.sizes && b in w'.large.sizes ==> w'.large.sizes[b] == w.large.sizes[b]
    ensures OthersKept(g, w, w', t)
  {
    hide WorldOk, KeptFor;
    forall u | u != t ensures KeptFor(g, w, w', u) { CalmKeepsFor(g, w, w', u); }
  }

  lemma InvFromParts(g: Geometry, s: State, s': State, t: nat)
    requires Inv(g, s) && t in s.threads && t in s'.threads
    requires s'.threads == s.threads[t := s'.threads[t]]
    requires WorldOk(g, s'.w) && LocksOk(s') && UnlockedClassesOk(g, s') && QuietStart(s')
    requires Gentle(g, s, s', t) && ThreadOk(g, s', t, s'.threads[t])
    ensures Fine(g, s, t, Next(s'))
  {
    hide WorldOk, ThreadOk, Gentle, UnlockedClassesOk;
    forall u | u in s'.threads
      ensures ThreadOk(g, s', u, s'.threads[u])
    {
      if u != t { RelyOnOthers(g, s, s', t, u); }
    }
  }

  // A step that changes no lock: outside a section it leaves the classes alone, inside one it changes
  // only the class of the lock it holds.
  lemma JumpFine(g: Geometry, s: State, t: nat, w': World, th': Thread)
    requires Inv(g, s) && t in s.threads && Holds(th'.pc) == Holds(s.threads[t].pc)
    requires WorldOk(g, w') && OthersKept(g, s.w, w', t)
    requires Holds(s.threads[t].pc) != Some(ClassMutex(Tiny)) ==> w'.tiny == s.w.tiny
    requires Holds(s.threads[t].pc) != Some(ClassMutex(Small)) ==> w'.small == s.w.small
    requires Holds(s.threads[t].pc) != Some(ClassMutex(Large)) ==> w'.large == s.w.large
    requires s.initialized || w'.own == map[]
    requires ThreadOk(g, s.(w := w', threads := s.threads[t := th']), t, th')
    ensures Fine(g, s, t, Next(s.(w := w', threads := s.threads[t := th'])))
  {
    hide WorldOk, ThreadOk, OthersKept;
    var s' := s.(w := w', threads := s.threads[t := th']);
    LocksKept(s, s', t);
    assert Gentle(g, s, s', t) by { SectionIsGentle(g, s, s', t); }
    InvFromParts(g, s, s', t);
  }

  lemma LocksKept(s: State, s': State, t: nat)
    requires LocksOk(s) && t in s.threads && t in s'.threads && s'.threads == s.threads[t := s'.threads[t]]
    requires Holds(s'.threads[t].pc) == Holds(s.threads[t].pc)
    requires forall m :: LockOf(s', m) == LockOf(s, m)
    ensures LocksOk(s')
    ensures forall m: Mutex :: Holds(s.threads[t].pc) == Some(m) <==> LockOf(s, m) == Some(t)
  {
    forall m, u ensures LockOf(s', m) == Some(u) <==> u in s'.threads && Holds(s'.threads[u].pc) == Some(m) {
      assert LockOf(s, m) == Some(u) <==> u in s.threads && Holds(s.threads[u].pc) == Some(m);
    }
  }

  lemma SectionIsGentle(g: Geometry, s: State, s': State, t: nat)
    requires LocksOk(s) && t in s.threads && OthersKept(g, s.w, s'.w, t) && s'.initialized == s.initialized
    requires Holds(s.threads[t].pc) != Some(ClassMutex(Tiny)) ==> s'.w.tiny == s.w.tiny
    requires Holds(s.threads[t].pc) != Some(ClassMutex(Small)) ==> s'.w.small == s.w.small
    requires Holds(s.threads[t].pc) != Some(ClassMutex(Large)) ==> s'.w.large == s.w.large
    ensures Gentle(g, s, s', t)
  {
    hide OthersKept;
    assert forall m: Mutex :: LockOf(s, m) == Some(t) <==> Holds(s.threads[t].pc) == Some(m);
    assert LockOf(s, ClassMutex(Tiny)) == s.tinyLock && LockOf(s, ClassMutex(Small)) == s.smallLock
           && LockOf(s, ClassMutex(Large)) == s.largeLock;
  }

  // The world does not change, or only the owner of a block of t does.
  lemma SameWorldKept(g: Geometry, w: World, t: nat)
    requires g.Sound() && WorldOk(g, w)
    ensures OthersKept(g, w, w, t)
  {
    CalmIsKept(g, w, w, t);
  }

  lemma OwnerStepKept(g: Geometry, w: World, id: BlockId, t: nat, o: Owner)
    requires g.Sound() && WorldOk(g, w) && id in w.own && !(w.own[id].Held? && w.own[id].thread != t)
    ensures WorldOk(g, w.(own := w.own[id := o])) && OthersKept(g, w, w.(own := w.own[id := o]), t)
    ensures SpaceOf(w.(own := w.own[id := o])) == SpaceOf(w)
  {
    OwnerChangeKeepsWorld(g, w, id, o);
    CalmIsKept(g, w, w.(own := w.own[id := o]), t);
  }

  lemma AcquireFine(g: Geometry, s: State, t: nat, m: Mutex, pc: Pc)
    requires g.Sound() && Inv(g, s) && t in s.threads && Holds(s.threads[t].pc).None? && Holds(pc) == Some(m)
    requires m.ClassMutex? ==> s.initialized
    requires LockOf(s, m).None? ==> ThreadOk(g, SetLock(s, m, Some(t)), t, s.threads[t].(pc := pc))
    ensures Fine(g, s, t, Acquire(s, t, m, pc))
  {
    hide WorldOk, ThreadOk, OthersKept;
    if LockOf(s, m).None? {
      var th' := s.threads[t].(pc := pc);
      var s' := SetLock(s, m, Some(t)).(threads := s.threads[t := th']);
      LocksAcquired(s, t, m, pc);
      SameWorldKept(g, s.w, t);
      SectionIsGentle(g, s, s', t);
      ThreadOkIgnoresLocks(g, SetLock(s, m, Some(t)), s', t, th');
      InvFromParts(g, s, s', t);
    }
  }

  lemma LocksAcquired(s: State, t: nat, m: Mutex, pc: Pc)
    requires LocksOk(s) && t in s.threads && Holds(s.threads[t].pc).None? && Holds(pc) == Some(m) && LockOf(s, m).None?
    ensures LocksOk(SetLock(s, m, Some(t)).(threads := s.threads[t := s.threads[t].(pc := pc)]))
  {
    var s' := SetLock(s, m, Some(t)).(threads := s.threads[t := s.threads[t].(pc := pc)]);
    forall m', u ensures LockOf(s', m') == Some(u) <==> u in s'.threads && Holds(s'.threads[u].pc) == Some(m') {
      assert LockOf(s, m') == Some(u) <==> u in s.threads && Holds(s.threads[u].pc) == Some(m');
    }
  }

  lemma ThreadOkIgnoresLocks(g: Geometry, s: State, s': State, t: nat, th: Thread)
    requires ThreadOk(g, s, t, th) && s'.w == s.w && s'.initialized == s.initialized
    ensures ThreadOk(g, s', t, th)
  {}

  // Unlocking at the end of a section, with the class in order and the result given away.
  lemma ReleaseFine(g: Geometry, s: State, t: nat, m: Mutex, w': World, th': Thread)
    requires Inv(g, s) && t in s.threads && Holds(s.threads[t].pc) == Some(m) && Holds(th'.pc).None?
    requires WorldOk(g, w') && OthersKept(g, s.w, w', t)
    requires w'.tiny == s.w.tiny && w'.small == s.w.small && w'.large == s.w.large
    requires s.initialized || w'.own == map[]
    requires match m
             case HeapMutex => true
             case ClassMutex(Tiny) => PoolOk(g, w', Tiny)
             case ClassMutex(Small) => PoolOk(g, w', Small)
             case ClassMutex(Large) => B.Valid(w'.large)
    requires ThreadOk(g, s.(w := w'), t, th')
    ensures Fine(g, s, t, Release(s.(w := w'), t, m, th'))
  {
    hide WorldOk, ThreadOk, OthersKept;
    var s' := SetLock(s.(w := w'), m, None).(threads := s.threads[t := th']);
    LocksReleased(s, t, m, th', w');
    SectionIsGentle(g, s, s', t);
    ThreadOkIgnoresLocks(g, s.(w := w'), s', t, th');
    InvFromParts(g, s, s', t);
  }

  lemma LocksReleased(s: State, t: nat, m: Mutex, th': Thread, w': World)
    requires LocksOk(s) && t in s.threads && Holds(s.threads[t].pc) == Some(m) && Holds(th'.pc).None?
    ensures LockOf(s, m) == Some(t)
    ensures LocksOk(SetLock(s.(w := w'), m, None).(threads := s.threads[t := th']))
  {
    assert LockOf(s, m) == Some(t);
    var s' := SetLock(s.(w := w'), m, None).(threads := s.threads[t := th']);
    forall m', u ensures LockOf(s', m') == Some(u) <==> u in s'.threads && Holds(s'.threads[u].pc) == Some(m') {
      assert LockOf(s, m') == Some(u) <==> u in s.threads && Holds(s.threads[u].pc) == Some(m');
    }
  }
}
