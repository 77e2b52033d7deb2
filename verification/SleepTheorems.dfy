/** No wakeup is lost, sleep-locks exclude, and whoever sleeps in begin_op waits for somebody. */
module SleepTheorems {
  import opened Params
  import opened SleepMachine

  // ------------------------------------------------------ monitors

  ghost predicate MonitorsOk(mons: seq<Monitor>) {
    forall c :: 0 <= c < |mons| ==> MonitorOk(mons[c])
  }

  lemma {:induction false} TakeOk(m: Monitor, p: nat)
    requires MonitorOk(m) && !Busy(m) && !Inside(m, p)
    ensures MonitorOk(Take(m, p))
  {
  }

  /** A change after which a waiter could go on wakes the waiters. */
  lemma {:induction false} ChangeOk(m: Monitor, p: nat, act: Act)
    requires MonitorOk(m) && MayChange(m, p, act)
    ensures MonitorOk(Changed(m, p, act))
    ensures Busy(m) && act != Exit && !Wakes(m, act) ==> Busy(Changed(m, p, act))
  {
  }

  /** Whoever waits in begin_op waits for a commit or for an operation in progress, which will wake it. */
  lemma {:induction false} GateWaits(m: Monitor)
    requires MonitorOk(m) && m.Gate? && Busy(m)
    ensures m.committing || m.outstanding >= 1
  {
  }

  // ------------------------------------------------------ locks

  /** Only p moves, except for sleepers that are woken; monitors keep their kind. */
  ghost predicate Moves(s: State, s': State, p: nat) {
    && |s'.pc| == |s.pc| && p < |s.pc| && |s'.mons| == |s.mons|
    && (forall c :: 0 <= c < |s.mons| ==> s'.mons[c].Family? == s.mons[c].Family?)
    && (forall q :: 0 <= q < |s.pc| && q != p ==> s'.pc[q] == s.pc[q] || (s.pc[q].Asleep? && s'.pc[q] == Woken(s.pc[q].c)))
  }

  lemma {:induction false} SameHeld(s: State, s': State, pc: Pc)
    requires |s'.mons| == |s.mons| && forall c :: 0 <= c < |s.mons| ==> s'.mons[c].Family? == s.mons[c].Family?
    ensures Held(s', pc) == Held(s, pc)
  {
  }

  /** The step takes lock k, or gives it back, or does neither. */
  ghost predicate OwnerStep(s: State, s': State, p: nat, k: nat) {
    && p < |s.pc| == |s'.pc|
    && var before, after := Held(s, s.pc[p]), Held(s', s'.pc[p]);
      || (s'.owner == s.owner && after == before)
      || (k !in s.owner && s'.owner == s.owner[k := p] && after == before + {k})
      || (k in before && s'.owner == s.owner - {k} && after == before - {k})
  }

  lemma {:induction false} OwnsStep(owner: map<nat, nat>, owner': map<nat, nat>, held: seq<set<nat>>, p: nat, after: set<nat>, k: nat)
    requires Owns(owner, held) && p < |held|
    requires || (owner' == owner && after == held[p])
             || (k !in owner && owner' == owner[k := p] && after == held[p] + {k})
             || (k in held[p] && owner' == owner - {k} && after == held[p] - {k})
    ensures Owns(owner', held[p := after])
  {
  }

  lemma {:induction false} KeepLocks(s: State, s': State, p: nat, k: nat)
    requires LocksOk(s) && Moves(s, s', p) && OwnerStep(s, s', p, k)
    ensures LocksOk(s')
  {
    hide Owns;
    forall q | 0 <= q < |s.pc| && q != p ensures Held(s', s'.pc[q]) == Held(s, s.pc[q]) {
      SameHeld(s, s', s.pc[q]);
    }
    assert HeldAll(s') == HeldAll(s)[p := Held(s', s'.pc[p])];
    OwnsStep(s.owner, s'.owner, HeldAll(s), p, Held(s', s'.pc[p]), k);
  }

  /** The lock that a step is about. */
  function Lock(s: State, l: Label): nat {
    match l
    case Enter(_, c) => LockOf(s, c)
    case Change(_, c, _) => LockOf(s, c)
    case Resume(p) => if p < |s.pc| && s.pc[p] != Out then LockOf(s, s.pc[p].c) else 0
    case ReleaseLock(p) => if p < |s.pc| && s.pc[p] != Out then LockOf(s, s.pc[p].c) else 0
    case Leave(p) => if p < |s.pc| && s.pc[p] != Out then LockOf(s, s.pc[p].c) else 0
    case _ => 0
  }

  lemma {:induction false} StepMoves(s: State, l: Label)
    requires Step(s, l).Went? && !l.Install?
    ensures Moves(s, Step(s, l).s, l.p)
  {
  }

  lemma {:induction false} StepOwner(s: State, l: Label)
    requires PcOk(s) && Step(s, l).Went? && !l.Install?
    ensures OwnerStep(s, Step(s, l).s, l.p, Lock(s, l))
  {
    StepMoves(s, l);
    var s' := Step(s, l).s;
    assert forall c: nat :: LockOf(s', c) == LockOf(s, c);
  }

  // ------------------------------------------------------ waiting

  /** Nobody but the process that moves goes in or out of a gate. */
  lemma {:induction false} SameInside(s: State, l: Label, q: nat, c: nat)
    requires Step(s, l).Went? && c < |s.mons| && (l.Install? || q != l.p)
    ensures c < |Step(s, l).s.mons| && Inside(Step(s, l).s.mons[c], q) == Inside(s.mons[c], q)
  {
  }

  lemma {:induction false} KeepOtherPc(s: State, l: Label, q: nat)
    requires PcOk(s) && Step(s, l).Went? && !l.Install? && q < |s.pc| && q != l.p
    ensures var s' := Step(s, l).s; q < |s'.pc| && PcAt(s', q, s'.pc[q])
  {
    hide Inside, Busy, Take, Changed, MayChange, Wakes;
    StepMoves(s, l);
    if s.pc[q] != Out {
      SameInside(s, l, q, s.pc[q].c);
    }
  }

  lemma {:induction false} KeepOwnPc(s: State, l: Label)
    requires PcOk(s) && Step(s, l).Went? && !l.Install?
    ensures var s' := Step(s, l).s; l.p < |s'.pc| && PcAt(s', l.p, s'.pc[l.p])
  {
    hide Busy, Take, Changed;
    StepMoves(s, l);
    assert PcAt(s, l.p, s.pc[l.p]);
  }

  lemma {:induction false} KeepPc(s: State, l: Label)
    requires PcOk(s) && Step(s, l).Went? && !l.Install?
    ensures PcOk(Step(s, l).s)
  {
    hide Step, PcAt;
    var s' := Step(s, l).s;
    StepMoves(s, l);
    forall q | 0 <= q < |s'.pc| ensures PcAt(s', q, s'.pc[q]) {
      if q == l.p {
        KeepOwnPc(s, l);
      } else {
        KeepOtherPc(s, l, q);
      }
    }
  }

  lemma {:induction false} KeepMonitors(s: State, l: Label)
    requires MonitorsOk(s.mons) && PcOk(s) && Step(s, l).Went?
    ensures MonitorsOk(Step(s, l).s.mons)
  {
    hide MonitorOk, Take, Changed;
    match l
    case Test(p) =>
      if !Busy(s.mons[s.pc[p].c]) {
        TakeOk(s.mons[s.pc[p].c], p);
      }
    case Change(p, c, act) => ChangeOk(s.mons[c], p, act);
    case WakeScan(p) => FamilyOk(s.mons[s.pc[p].c]);
    case Install(c) => InstallOk(s.mons[c]);
    case _ =>
  }

  lemma {:induction false} FamilyOk(m: Monitor)
    ensures m.Family? ==> MonitorOk(Family(m.zombies + 1))
  {
  }

  lemma {:induction false} InstallOk(m: Monitor)
    requires MonitorOk(m) && m.Gate? && m.committing
    ensures MonitorOk(m.(n := 0)) && Busy(m.(n := 0)) && Busy(m)
  {
  }

  lemma {:induction false} OwnerIs(s: State, p: nat, k: nat)
    requires LocksOk(s) && p < |s.pc| && k in Held(s, s.pc[p])
    ensures k in s.owner && s.owner[k] == p
  {
    assert HeldAll(s)[p] == Held(s, s.pc[p]);
  }

  /** Somebody else's lock stays theirs, and so does what they are about to do. */
  lemma {:induction false} StaysSignalled(s: State, s': State, p: nat, k: nat, c: nat)
    requires LocksOk(s) && Moves(s, s', p) && OwnerStep(s, s', p, k) && c < |s.mons| && Signalled(s, c)
    requires s.owner[LockOf(s, c)] != p
    ensures Signalled(s', c)
  {
    hide Owns;
    if k in Held(s, s.pc[p]) {
      OwnerIs(s, p, k);
    }
  }

  /** While p is in wakeup1 for c, nobody else is on the way to sleep there. */
  lemma {:induction false} ScanAlone(s: State, p: nat, q: nat, c: nat)
    requires LocksOk(s) && PcOk(s) && p < |s.pc| && q < |s.pc| && p != q && s.pc[p] == Scan(c)
    requires s.pc[q] != Out && s.pc[q].c == c && Sleeps(s.pc[q])
    ensures s.pc[q].Asleep?
  {
    hide Owns;
    OwnerIs(s, p, 0);
    OwnerIs(s, p, LockOf(s, c));
    if !s.pc[q].Asleep? {
      OwnerIs(s, q, if s.pc[q].Marking? then 0 else LockOf(s, c));
    }
  }

  /** What a sleeper waits for has not come, or its coming is signalled. */
  lemma {:induction false} BusyStays(s: State, l: Label, c: nat)
    requires MonitorsOk(s.mons) && PcOk(s) && Step(s, l).Went? && !l.Install? && c < |s.mons| && Busy(s.mons[c])
    requires s.pc[l.p] != Scan(c)
    ensures var s' := Step(s, l).s; c < |s'.mons| && (Busy(s'.mons[c]) || Signalled(s', c))
  {
    hide MonitorOk, Busy, Take, Changed, PcAt;
    StepMoves(s, l);
    match l
    case Test(p) =>
      assert l.p < |s.pc| && PcAt(s, p, s.pc[p]);
      InNotInside(s, p);
      if !Busy(s.mons[s.pc[p].c]) {
        TakeOk(s.mons[s.pc[p].c], p);
      }
    case Change(p, d, act) => ChangeOk(s.mons[d], p, act);
    case _ =>
  }

  lemma {:induction false} InNotInside(s: State, p: nat)
    requires p < |s.pc| && PcAt(s, p, s.pc[p]) && s.pc[p].In?
    ensures s.pc[p].c < |s.mons| && !Inside(s.mons[s.pc[p].c], p)
  {
  }

  /** A sleeper other than the process that moves. */
  lemma {:induction false} OtherSleeper(s: State, l: Label, q: nat)
    requires Inv(s) && MonitorsOk(s.mons) && Step(s, l).Went? && !l.Install?
    requires q < |s.pc| && q != l.p && Sleeps(Step(s, l).s.pc[q])
    ensures var s' := Step(s, l).s; var c := s'.pc[q].c; c < |s'.mons| && (Busy(s'.mons[c]) || Signalled(s', c))
  {
    hide Owns, MonitorOk, OwnerStep, Busy, Take, Changed, Wakes, MayChange;
    var s' := Step(s, l).s;
    StepMoves(s, l);
    StepOwner(s, l);
    assert PcAt(s, q, s.pc[q]);
    var c := s.pc[q].c;
    if s.pc[l.p] == Scan(c) {
      ScanAlone(s, l.p, q, c);
    } else if Signalled(s, c) && s.owner[LockOf(s, c)] != l.p {
      StaysSignalled(s, s', l.p, Lock(s, l), c);
    } else if !Signalled(s, c) {
      BusyStays(s, l, c);
    }
  }

  /** The process that moves, if it sleeps. */
  lemma {:induction false} OwnSleeper(s: State, l: Label)
    requires Inv(s) && MonitorsOk(s.mons) && Step(s, l).Went? && !l.Install? && Sleeps(Step(s, l).s.pc[l.p])
    ensures var s' := Step(s, l).s; var c := s'.pc[l.p].c; c < |s'.mons| && (Busy(s'.mons[c]) || Signalled(s', c))
  {
    hide Owns, MonitorOk, OwnerStep, Busy, Take, Changed;
    var s' := Step(s, l).s;
    StepMoves(s, l);
    StepOwner(s, l);
    var c := s'.pc[l.p].c;
    if !l.Test? && Signalled(s, c) {
      StaysSignalled(s, s', l.p, Lock(s, l), c);
    }
  }

  lemma {:induction false} KeepInstall(s: State, c: nat)
    requires Inv(s) && Step(s, Install(c)).Went?
    ensures Inv(Step(s, Install(c)).s)
  {
    hide Owns;
    var s' := Step(s, Install(c)).s;
    InstallOk(s.mons[c]);
    forall p | 0 <= p < |s.pc| ensures Held(s', s.pc[p]) == Held(s, s.pc[p]) {
      SameHeld(s, s', s.pc[p]);
    }
    assert HeldAll(s') == HeldAll(s);
  }

  lemma {:induction false} KeepStep(s: State, l: Label)
    requires Inv(s) && Step(s, l).Went?
    ensures Inv(Step(s, l).s)
  {
    hide LocksOk, PcOk, MonitorOk, Step, Busy, Signalled;
    var s' := Step(s, l).s;
    if l.Install? {
      KeepInstall(s, l.c);
    } else {
      KeepPc(s, l);
      assert MonitorsOk(s.mons);
      KeepMonitors(s, l);
      StepMoves(s, l);
      StepOwner(s, l);
      KeepLocks(s, s', l.p, Lock(s, l));
      forall q | 0 <= q < |s'.pc| && Sleeps(s'.pc[q]) && s'.pc[q].c < |s'.mons|
        ensures Busy(s'.mons[s'.pc[q].c]) || Signalled(s', s'.pc[q].c)
      {
        if q == l.p {
          OwnSleeper(s, l);
        } else {
          OtherSleeper(s, l, q);
        }
      }
    }
  }

  lemma {:induction false} RunInv(s: State, ls: seq<Label>)
    requires Inv(s) && Run(s, ls).Went?
    ensures Inv(Run(s, ls).s)
    decreases |ls|
  {
    hide Inv, Step;
    if ls != [] {
      KeepStep(s, ls[0]);
      RunInv(Step(s, ls[0]).s, ls[1..]);
    }
  }

  lemma {:induction false} InitInv(s: State)
    requires Init(s)
    ensures Inv(s)
  {
    assert forall p :: 0 <= p < |s.pc| ==> HeldAll(s)[p] == {};
  }

  // ------------------------------------------------------ results

  /**
   Main result: in every interleaving, whoever has gone to sleep on a monitor
   whose lock is free would find, testing again, that it must still wait.
   */
  lemma {:induction false} NoLostWakeup(boot: State, ls: seq<Label>, p: nat)
    requires Init(boot) && Run(boot, ls).Went?
    requires var s := Run(boot, ls).s; p < |s.pc| && Sleeps(s.pc[p]) && LockOf(s, s.pc[p].c) !in s.owner
    ensures var s := Run(boot, ls).s; s.pc[p].c < |s.mons| && Busy(s.mons[s.pc[p].c])
  {
    InitInv(boot);
    RunInv(boot, ls);
    assert PcAt(Run(boot, ls).s, p, Run(boot, ls).s.pc[p]);
  }

  /** Asleep in begin_op with log.lock free: a commit runs or an operation is outstanding, and the reservation does not fit. */
  lemma {:induction false} AsleepInBeginOp(boot: State, ls: seq<Label>, p: nat)
    requires Init(boot) && Run(boot, ls).Went?
    requires var s := Run(boot, ls).s; p < |s.pc| && Sleeps(s.pc[p]) && LockOf(s, s.pc[p].c) !in s.owner
    requires var s := Run(boot, ls).s; s.pc[p].c < |s.mons| && s.mons[s.pc[p].c].Gate?
    ensures var s := Run(boot, ls).s; var m := s.mons[s.pc[p].c];
      && (m.committing || m.outstanding >= 1)
      && (m.committing || m.n + (m.outstanding + 1) * MAXOPBLOCKS > LOGSIZE)
  {
    InitInv(boot);
    RunInv(boot, ls);
    NoLostWakeup(boot, ls, p);
    GateWaits(Run(boot, ls).s.mons[Run(boot, ls).s.pc[p].c]);
  }

  /** wakeup under the monitor's lock reaches everybody who has tested the condition: nobody is left asleep or on the way. */
  lemma {:induction false} WakeupReachesAll(s: State, p: nat, q: nat)
    requires Inv(s) && Step(s, WakeScan(p)).Went? && q < |s.pc| && s.pc[q] != Out && s.pc[q].c == s.pc[p].c
    ensures !Sleeps(Step(s, WakeScan(p)).s.pc[q])
    ensures s.pc[q].Asleep? ==> Step(s, WakeScan(p)).s.pc[q].Woken?
  {
    hide LocksOk, PcOk, MonitorOk;
    if q != p && Sleeps(s.pc[q]) {
      ScanAlone(s, p, q, s.pc[p].c);
    }
  }

  /** At most one process is between acquiresleep and releasesleep. */
  lemma {:induction false} SleepLocksExclude(boot: State, ls: seq<Label>, c: nat, p: nat, q: nat)
    requires Init(boot) && Run(boot, ls).Went?
    requires var s := Run(boot, ls).s; c < |s.mons| && s.mons[c].Mutex? && p in s.mons[c].inside && q in s.mons[c].inside
    ensures p == q && Run(boot, ls).s.mons[c].locked
  {
    InitInv(boot);
    RunInv(boot, ls);
    var inside := Run(boot, ls).s.mons[c].inside;
    assert MonitorOk(Run(boot, ls).s.mons[c]);
    assert |inside - {p}| == |inside| - 1;
    assert inside - {p} == {};
  }

  /** end_op never finds a commit in progress, so its panic is unreachable. */
  lemma {:induction false} EndOpNeverPanics(boot: State, ls: seq<Label>, c: nat, p: nat)
    requires Init(boot) && Run(boot, ls).Went?
    requires var s := Run(boot, ls).s; c < |s.mons| && s.mons[c].Gate? && p in s.mons[c].inside
    ensures var m := Run(boot, ls).s.mons[c]; !m.committing && m.outstanding == |m.inside| > 0
  {
    InitInv(boot);
    RunInv(boot, ls);
    assert MonitorOk(Run(boot, ls).s.mons[c]);
  }
}
