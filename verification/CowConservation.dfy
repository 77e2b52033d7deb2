/**
 When pages are conserved. A frame is out of account when it is not free, no
 page table maps it, the kernel does not own it and no operation holds it: nobody
 will ever free it. That happens exactly when a fault is overtaken, or when
 allocuvm ignores a failure of mappages.
 */
module CowConservation {
  import opened CowMachine
  import opened CowInvariant
  import opened CowKeep
  import opened CowRefinement
  import opened CowTheorems

  // ------------------------------------------------------ overtaken faults

  /** A fault that has seen frame f shared and has not yet moved its count. */
  predicate Pending(c: Pc, f: nat) {
    (c.FaultShared? || c.FaultHeld? || c.FaultCopied?) && c.f == f
  }

  /** The step takes a reference to f away from directory l.dir: the end of its own fault, or deallocuvm. */
  predicate Takes(s: State, l: Label, f: nat) {
    || (l.FaultDrop? && l.dir in s.pc && s.pc[l.dir].FaultCopied? && s.pc[l.dir].f == f)
    || (l.Unmap? && Key(l.dir, l.v) in s.ptes && s.ptes[Key(l.dir, l.v)].frame == f)
  }

  /** The last reference but one to f goes while directory e is in the middle of a fault on f. */
  predicate Overtakes(s: State, l: Label, e: nat, f: nat) {
    Takes(s, l, f) && l.dir != e && e in s.pc && Pending(s.pc[e], f) && f < |s.rc| && s.rc[f] == 2
  }

  /** e will copy a frame that nobody else refers to any more. */
  predicate Doomed(s: State, e: nat, f: nat) {
    e in s.pc && Pending(s.pc[e], f) && f < |s.rc| && s.rc[f] == 1
  }

  /** The fault of e is over: it moves its count, or is killed for lack of memory. */
  predicate Ends(s: State, l: Label, e: nat) {
    l == FaultDrop(e) || (l == FaultAlloc(e) && s.free == [])
  }

  /** A pending fault refers to its frame, and a second reference makes the count at least two. */
  lemma {:induction false} PendingCount(s: State, e: nat, f: nat)
    requires Inv(s) && e in s.pc && Pending(s.pc[e], f)
    ensures f < NFRAMES == |s.rc| == |s.use| && s.use[f] == User && 1 <= s.rc[f] <= NPROC
    ensures Key(e, s.pc[e].v) in s.counted && s.counted[Key(e, s.pc[e].v)] == f
    ensures forall k :: k in s.counted && s.counted[k] == f && k != Key(e, s.pc[e].v) ==> s.rc[f] >= 2
  {
    hide Inv;
    PendingFacts(s, e);
    var k0 := Key(e, s.pc[e].v);
    CountFacts(s, k0);
    CountsFacts(s, f);
    forall k | k in s.counted && s.counted[k] == f && k != k0 ensures s.rc[f] >= 2 {
      TwoRefs(s.counted, f, k0, k);
    }
  }

  lemma {:induction false} TwoRefs(counted: map<Key, nat>, f: nat, k: Key, k': Key)
    requires k in counted && k' in counted && counted[k] == f == counted[k'] && k != k'
    ensures |RefsOf(counted, f)| >= 2
  {
    var refs := RefsOf(counted, f);
    assert |refs - {k}| == |refs| - 1;
    assert k' in refs - {k};
  }

  // ------------------------------------------------------ what a step does to counts and faults

  /** The step gives a child a reference to f. */
  predicate Shares(s: State, l: Label, f: nat) {
    l.ForkPage? && l.dir in s.under && Key(s.under[l.dir], l.v) in s.ptes && s.ptes[Key(s.under[l.dir], l.v)].frame == f
  }

  /** The count of a user frame moves with its references, and with nothing else. */
  ghost predicate CountMoves(s: State, s': State, l: Label, f: nat) {
    && f < |s.rc| == |s'.rc|
    && s'.rc[f] == s.rc[f] - (if Takes(s, l, f) then 1 else 0) + if Shares(s, l, f) then 1 else 0
  }

  lemma {:induction false} FaultCount(s: State, l: Label, f: nat)
    requires Inv(s) && FaultStep(s, l).Went? && f < NFRAMES && s.use[f] == User
    ensures CountMoves(s, FaultStep(s, l).s, l, f)
  {
    hide Inv, DoFaultEnter, DoFaultEnable, DoFaultAlloc, DoFaultCopy, DoFaultSet;
    if l.FaultDrop? {
      PendingFacts(s, l.dir);
      CountsFacts(s, f);
    } else {
      QuietFault(s, l);
      LengthFacts(s);
    }
  }

  lemma {:induction false} QuietFault(s: State, l: Label)
    requires FaultStep(s, l).Went? && !l.FaultDrop?
    ensures FaultStep(s, l).s.rc == s.rc
  {
    hide DoFaultDrop, DoFaultEnter, DoFaultAlloc;
    match l
    case FaultEnter(p, v) => EnterPending(s, p, v, 0, 0);
    case FaultAlloc(d) => AllocPending(s, d, 0, 0);
    case _ =>
  }

  lemma {:induction false} GrowCount(s: State, d: nat, f: nat)
    requires Inv(s) && CanGrowMap(s, d) && f < NFRAMES && s.use[f] == User
    ensures f < |s.rc| && forall u :: f < |DoGrowMap(s, d, u).rc| && DoGrowMap(s, d, u).rc[f] == s.rc[f]
    ensures f < |DoGrowMiss(s, d).rc| && DoGrowMiss(s, d).rc[f] == s.rc[f]
    ensures |DoGrowMiss(s, d).rc| == |s.rc| && forall u :: |DoGrowMap(s, d, u).rc| == |s.rc|
  {
    hide Inv;
    LengthFacts(s);
    PendingFacts(s, d);
  }

  lemma {:induction false} UnmapCount(s: State, d: nat, v: nat, f: nat)
    requires Inv(s) && CanUnmap(s, d, v) && f < NFRAMES && s.use[f] == User
    ensures CountMoves(s, DoUnmap(s, d, v), Unmap(d, v), f)
  {
    hide Inv;
    CountsFacts(s, f);
    EntryFacts(s, Key(d, v));
  }

  lemma {:induction false} PageCount(s: State, l: Label, f: nat)
    requires Inv(s) && PageStep(s, l).Went? && f < NFRAMES && s.use[f] == User
    ensures CountMoves(s, PageStep(s, l).s, l, f)
  {
    hide Inv, DoGrowMap, DoGrowMiss, DoUnmap;
    LengthFacts(s);
    if l.GrowMap? || l.GrowMiss? {
      GrowCount(s, l.dir, f);
    } else if l.Unmap? {
      UnmapCount(s, l.dir, l.v, f);
    }
  }

  lemma {:induction false} ForkCount(s: State, l: Label, f: nat)
    requires Inv(s) && ForkStep(s, l).Went? && f < NFRAMES && s.use[f] == User
    ensures CountMoves(s, ForkStep(s, l).s, l, f)
  {
    hide Inv;
    LengthFacts(s);
    CountsFacts(s, f);
  }

  lemma {:induction false} SpaceCount(s: State, l: Label, f: nat)
    requires Inv(s) && SpaceStep(s, l).Went? && f < NFRAMES && s.use[f] == User
    ensures CountMoves(s, SpaceStep(s, l).s, l, f)
  {
    hide Inv;
    LengthFacts(s);
  }

  lemma {:induction false} StepCount(s: State, l: Label, f: nat)
    requires Inv(s) && Step(s, l).Went? && f < NFRAMES && s.use[f] == User
    ensures CountMoves(s, Step(s, l).s, l, f)
  {
    hide Inv, FaultStep, PageStep, ForkStep, SpaceStep, CountMoves, IsFault, IsPage, IsFork;
    if IsFault(l) {
      FaultCount(s, l, f);
    } else if IsPage(l) {
      PageCount(s, l, f);
    } else if IsFork(l) {
      ForkCount(s, l, f);
    } else {
      SpaceCount(s, l, f);
    }
  }

  /** The processor faults on f and finds it shared. */
  predicate Sees(s: State, l: Label, e: nat, f: nat) {
    && l.FaultEnter? && l.slot in s.procs && s.procs[l.slot] == e && Key(e, l.v) in s.ptes
    && s.ptes[Key(e, l.v)] == Pte(f, false, true) && f < |s.rc| && s.rc[f] > 1
  }

  ghost predicate FaultMoves(s: State, s': State, l: Label, e: nat, f: nat) {
    (e in s'.pc && Pending(s'.pc[e], f)) <==>
    (e in s.pc && Pending(s.pc[e], f) && !Ends(s, l, e)) || Sees(s, l, e, f)
  }

  lemma {:induction false} EnterPending(s: State, p: nat, v: nat, e: nat, f: nat)
    requires CanFaultEnter(s, p, v)
    ensures FaultMoves(s, DoFaultEnter(s, p, v), FaultEnter(p, v), e, f) && DoFaultEnter(s, p, v).rc == s.rc
  {
  }

  lemma {:induction false} AllocPending(s: State, d: nat, e: nat, f: nat)
    requires CanFaultAlloc(s, d)
    ensures FaultMoves(s, DoFaultAlloc(s, d), FaultAlloc(d), e, f) && DoFaultAlloc(s, d).rc == s.rc
  {
  }

  lemma {:induction false} FaultPending(s: State, l: Label, e: nat, f: nat)
    requires FaultStep(s, l).Went?
    ensures FaultMoves(s, FaultStep(s, l).s, l, e, f)
  {
    hide DoFaultEnter, DoFaultAlloc, ToChar;
    match l
    case FaultEnter(p, v) => EnterPending(s, p, v, e, f);
    case FaultAlloc(d) => AllocPending(s, d, e, f);
    case _ =>
  }

  lemma {:induction false} PagePending(s: State, l: Label, e: nat, f: nat)
    requires PageStep(s, l).Went?
    ensures FaultMoves(s, PageStep(s, l).s, l, e, f)
  {
    hide ToChar;
  }

  lemma {:induction false} ForkPending(s: State, l: Label, e: nat, f: nat)
    requires Inv(s) && ForkStep(s, l).Went?
    ensures FaultMoves(s, ForkStep(s, l).s, l, e, f)
  {
    hide Inv, ToChar;
    if l.ForkEnd? || l.ForkFail? {
      UnderFacts(s, l.dir);
    }
  }

  lemma {:induction false} SpacePending(s: State, l: Label, e: nat, f: nat)
    requires Inv(s) && SpaceStep(s, l).Went?
    ensures FaultMoves(s, SpaceStep(s, l).s, l, e, f)
  {
    hide Inv, ToChar;
    if l.ExecCommit? || l.ExecFail? {
      UnderFacts(s, l.dir);
    }
  }

  lemma {:induction false} StepPending(s: State, l: Label, e: nat, f: nat)
    requires Inv(s) && Step(s, l).Went?
    ensures FaultMoves(s, Step(s, l).s, l, e, f)
  {
    hide Inv, FaultStep, PageStep, ForkStep, SpaceStep, FaultMoves, IsFault, IsPage, IsFork;
    if IsFault(l) {
      FaultPending(s, l, e, f);
    } else if IsPage(l) {
      PagePending(s, l, e, f);
    } else if IsFork(l) {
      ForkPending(s, l, e, f);
    } else {
      SpacePending(s, l, e, f);
    }
  }

  /** A fault becomes doomed exactly by being overtaken, and stays so until it ends. */
  lemma {:induction false} DoomExactly(s: State, l: Label, e: nat, f: nat)
    requires Inv(s) && Step(s, l).Went? && f < NFRAMES
    ensures Doomed(Step(s, l).s, e, f) <==> (Doomed(s, e, f) && !Ends(s, l, e)) || Overtakes(s, l, e, f)
  {
    hide Inv, Step;
    var s' := Step(s, l).s;
    StepPending(s, l, e, f);
    if e in s.pc && Pending(s.pc[e], f) {
      PendingCount(s, e, f);
      StepCount(s, l, f);
      OnlyReference(s, l, e, f);
    } else if Sees(s, l, e, f) {
      SeenUser(s, l, e, f);
      StepCount(s, l, f);
    }
  }

  /** Another directory that takes or shares f has a reference of its own. */
  lemma {:induction false} OnlyReference(s: State, l: Label, e: nat, f: nat)
    requires Inv(s) && Step(s, l).Went? && e in s.pc && Pending(s.pc[e], f)
    ensures f < |s.rc|
    ensures Takes(s, l, f) && l != FaultDrop(e) ==> l.dir != e && s.rc[f] >= 2
    ensures Shares(s, l, f) ==> s.rc[f] >= 2
  {
    hide Inv;
    PendingCount(s, e, f);
    if Takes(s, l, f) && l.FaultDrop? {
      PendingFacts(s, l.dir);
    } else if Takes(s, l, f) {
      EntryFacts(s, Key(l.dir, l.v));
    } else if Shares(s, l, f) {
      UnderFacts(s, l.dir);
      EntryFacts(s, Key(s.under[l.dir], l.v));
    }
  }

  lemma {:induction false} SeenUser(s: State, l: Label, e: nat, f: nat)
    requires Inv(s) && Step(s, l).Went? && Sees(s, l, e, f)
    ensures f < NFRAMES && |s.use| == NFRAMES && s.use[f] == User && !Takes(s, l, f) && !Shares(s, l, f)
  {
    hide Inv;
    ProcFacts(s, l.slot);
    EntryFacts(s, Key(e, l.v));
  }

  // ------------------------------------------------------ whole runs

  /** The fault of e that is in progress goes on to move its count. */
  predicate Finishes(s: State, ls: seq<Label>, e: nat)
    decreases |ls|
  {
    ls != [] &&
    (ls[0] == FaultDrop(e) || (!Ends(s, ls[0], e) && Step(s, ls[0]).Went? && Finishes(Step(s, ls[0]).s, ls[1..], e)))
  }

  /** At some point of the run a fault on f is overtaken, and it finishes nevertheless. */
  ghost predicate Overtaken(s: State, ls: seq<Label>, f: nat)
    decreases |ls|
  {
    ls != [] && Step(s, ls[0]).Went? &&
    ((exists e: nat :: Overtakes(s, ls[0], e, f) && Finishes(Step(s, ls[0]).s, ls[1..], e))
     || Overtaken(Step(s, ls[0]).s, ls[1..], f))
  }

  /** A step leaks f exactly when it ends a doomed fault on f. */
  lemma {:induction false} LeakIsDoom(s: State, l: Label, f: nat)
    requires Inv(s) && Step(s, l).Went? && f < NFRAMES
    ensures |s.use| == |Step(s, l).s.use| == NFRAMES
    ensures Step(s, l).s.use[f] == Leaked <==> s.use[f] == Leaked || (l.FaultDrop? && Doomed(s, l.dir, f))
  {
    hide Inv;
    LeakExactly(s, l, f);
    LengthFacts(s);
  }

  lemma {:induction false} StaysLeaked(s: State, ls: seq<Label>, f: nat)
    requires Inv(s) && Run(s, ls).Went? && f < NFRAMES && |s.use| == NFRAMES && s.use[f] == Leaked
    ensures |Run(s, ls).s.use| == NFRAMES && Run(s, ls).s.use[f] == Leaked
    decreases |ls|
  {
    hide Inv, Step;
    if ls != [] {
      LeakIsDoom(s, ls[0], f);
      StepRefines(s, ls[0]);
      StaysLeaked(Step(s, ls[0]).s, ls[1..], f);
    }
  }

  /** A doomed fault that finishes leaks its frame, whatever others do meanwhile. */
  lemma {:induction false} DoomedLeaks(s: State, ls: seq<Label>, e: nat, f: nat)
    requires Inv(s) && Run(s, ls).Went? && f < NFRAMES && Doomed(s, e, f) && Finishes(s, ls, e)
    ensures |Run(s, ls).s.use| == NFRAMES && Run(s, ls).s.use[f] == Leaked
    decreases |ls|
  {
    hide Inv, Step, Doomed, Overtakes;
    LeakIsDoom(s, ls[0], f);
    StepRefines(s, ls[0]);
    if ls[0] == FaultDrop(e) {
      StaysLeaked(Step(s, ls[0]).s, ls[1..], f);
    } else {
      DoomExactly(s, ls[0], e, f);
      DoomedLeaks(Step(s, ls[0]).s, ls[1..], e, f);
    }
  }

  lemma {:induction false} OvertakenLeaks(s: State, ls: seq<Label>, f: nat)
    requires Inv(s) && Run(s, ls).Went? && f < NFRAMES && Overtaken(s, ls, f)
    ensures |Run(s, ls).s.use| == NFRAMES && Run(s, ls).s.use[f] == Leaked
    decreases |ls|
  {
    hide Inv, Step, Doomed, Overtakes, Finishes;
    var s' := Step(s, ls[0]).s;
    StepRefines(s, ls[0]);
    if Overtaken(s', ls[1..], f) {
      OvertakenLeaks(s', ls[1..], f);
    } else {
      var e: nat :| Overtakes(s, ls[0], e, f) && Finishes(s', ls[1..], e);
      DoomExactly(s, ls[0], e, f);
      DoomedLeaks(s', ls[1..], e, f);
    }
  }

  /** A leak has a doomed fault at its start, or an overtaken one on its way. */
  lemma {:induction false} LeakHasCause(s: State, ls: seq<Label>, f: nat)
    requires Inv(s) && Run(s, ls).Went? && f < NFRAMES && |s.use| == NFRAMES && s.use[f] != Leaked
    requires |Run(s, ls).s.use| == NFRAMES && Run(s, ls).s.use[f] == Leaked
    ensures (exists e: nat :: Doomed(s, e, f) && Finishes(s, ls, e)) || Overtaken(s, ls, f)
    decreases |ls|
  {
    hide Inv, Step, Doomed, Overtakes;
    var l, s' := ls[0], Step(s, ls[0]).s;
    LeakIsDoom(s, l, f);
    StepRefines(s, l);
    if s'.use[f] == Leaked {
      assert Doomed(s, l.dir, f) && Finishes(s, ls, l.dir);
    } else {
      LeakHasCause(s', ls[1..], f);
      if !Overtaken(s', ls[1..], f) {
        var e: nat :| Doomed(s', e, f) && Finishes(s', ls[1..], e);
        DoomExactly(s, l, e, f);
        assert Overtakes(s, l, e, f) || (Doomed(s, e, f) && Finishes(s, ls, e));
      }
    }
  }

  // ------------------------------------------------------ frames out of account

  /** Nobody will free the frame: it is not free, not mapped, not the kernel's, and in nobody's hands. */
  ghost predicate OutOfAccount(s: State, f: nat) {
    && f < |s.use| && f !in s.free && RefsOf(s.counted, f) == {} && s.use[f] != Kernel
    && forall d :: d in s.pc ==> PcFrame(s.pc[d]) != f
  }

  lemma {:induction false} OutExactly(s: State, f: nat)
    requires Inv(s) && f < NFRAMES
    ensures |s.use| == NFRAMES && (OutOfAccount(s, f) <==> s.use[f] == Leaked || s.use[f] == Lost)
  {
    hide CountOk, Sharing, TwinOk, CopyOk, Staff, Flight, KernelOk;
    AccountFacts(s, f);
  }

  predicate NoMiss(ls: seq<Label>) {
    forall i :: 0 <= i < |ls| ==> !ls[i].GrowMiss?
  }

  lemma {:induction false} LostStep(s: State, l: Label, f: nat)
    requires Inv(s) && Step(s, l).Went? && f < NFRAMES
    ensures |s.use| == |Step(s, l).s.use| == NFRAMES
    ensures Step(s, l).s.use[f] == Lost <==> s.use[f] == Lost || (l.GrowMiss? && l.dir in s.pc && s.pc[l.dir].GrowHeld? && s.pc[l.dir].mem == f)
  {
    hide Inv;
    LeakExactly(s, l, f);
    LengthFacts(s);
  }

  ghost predicate SomeLost(s: State) {
    exists f: nat :: f < |s.use| && s.use[f] == Lost
  }

  lemma {:induction false} SomeLostStep(s: State, l: Label)
    requires Inv(s) && Step(s, l).Went?
    ensures SomeLost(Step(s, l).s) <==> SomeLost(s) || l.GrowMiss?
  {
    hide Inv, Step;
    var s' := Step(s, l).s;
    LengthFacts(s);
    MissLoses(s, l);
    LostStep(s, l, 0);
    if SomeLost(s') {
      var f: nat :| f < |s'.use| && s'.use[f] == Lost;
      LostStep(s, l, f);
    }
    if SomeLost(s) {
      var f: nat :| f < |s.use| && s.use[f] == Lost;
      LostStep(s, l, f);
    } else if l.GrowMiss? {
      LostStep(s, l, s.pc[l.dir].mem);
    }
  }

  /** Every ignored failure of mappages loses a frame for good. */
  lemma {:induction false} LostExactly(s: State, ls: seq<Label>)
    requires Inv(s) && Run(s, ls).Went?
    ensures SomeLost(Run(s, ls).s) <==> SomeLost(s) || !NoMiss(ls)
    decreases |ls|
  {
    hide Inv, Step, SomeLost;
    if ls != [] {
      SomeLostStep(s, ls[0]);
      StepRefines(s, ls[0]);
      LostExactly(Step(s, ls[0]).s, ls[1..]);
      assert forall i :: 0 < i < |ls| ==> ls[i] == ls[1..][i - 1];
    }
  }

  lemma {:induction false} MissLoses(s: State, l: Label)
    requires Inv(s) && Step(s, l).Went?
    ensures l.GrowMiss? ==> l.dir in s.pc && s.pc[l.dir].GrowHeld? && s.pc[l.dir].mem < NFRAMES
  {
    hide Inv;
    LengthFacts(s);
    if l.GrowMiss? {
      PendingFacts(s, l.dir);
    }
  }

  ghost predicate NoneOvertaken(s: State, ls: seq<Label>) {
    forall f: nat :: f < NFRAMES ==> !Overtaken(s, ls, f)
  }

  ghost predicate Conserved(s: State) {
    forall f: nat :: f < NFRAMES ==> !OutOfAccount(s, f)
  }

  /**
   Main result: over any run from power-up every frame stays in account if and
   only if no fault that another directory overtakes goes on to finish, and
   mappages never fails in allocuvm.
   */
  lemma {:induction false} ConservedExactly(boot: State, ls: seq<Label>)
    requires Init(boot) && Run(boot, ls).Went?
    ensures Conserved(Run(boot, ls).s) <==> NoMiss(ls) && NoneOvertaken(boot, ls)
  {
    hide Inv, Run, Overtaken, OutOfAccount, NoMiss;
    var s := Run(boot, ls).s;
    InitInv(boot);
    RunRefines(boot, ls);
    LengthFacts(s);
    LostExactly(boot, ls);
    NothingAmiss(boot);
    forall f: nat | f < NFRAMES ensures OutOfAccount(s, f) <==> s.use[f] == Lost || Overtaken(boot, ls, f) {
      OutExactly(s, f);
      if Overtaken(boot, ls, f) {
        OvertakenLeaks(boot, ls, f);
      } else if s.use[f] == Leaked {
        LeakHasCause(boot, ls, f);
      }
    }
    if SomeLost(s) {
      var f: nat :| f < |s.use| && s.use[f] == Lost;
      assert OutOfAccount(s, f);
    } else {
      forall f: nat | f < NFRAMES ensures OutOfAccount(s, f) <==> Overtaken(boot, ls, f) {
        assert s.use[f] != Lost;
      }
    }
  }

  lemma {:induction false} NothingAmiss(boot: State)
    requires Init(boot)
    ensures |boot.use| == NFRAMES && !SomeLost(boot) && forall f :: 0 <= f < NFRAMES ==> boot.use[f] != Leaked
    ensures forall e: nat, f: nat :: !Doomed(boot, e, f)
  {
  }

  /** What a frame in account is, with its count: exactly one of four. */
  lemma {:induction false} InAccount(s: State, f: nat)
    requires Inv(s) && f < NFRAMES && !OutOfAccount(s, f)
    ensures |s.rc| == |s.use| == NFRAMES
    ensures if f in s.free then s.use[f] == Free && s.rc[f] == 0 && RefsOf(s.counted, f) == {}
      else if RefsOf(s.counted, f) != {} then s.use[f] == User && s.rc[f] == |RefsOf(s.counted, f)| >= 1
      else if s.use[f] == Kernel then s.rc[f] == 0
      else s.rc[f] == 0 && s.use[f].Held? && s.use[f].dir in s.pc && PcFrame(s.pc[s.use[f].dir]) == f
  {
    hide Inv, OutOfAccount;
    OutExactly(s, f);
    AccountFacts(s, f);
    CountsFacts(s, f);
    HolderFacts(s, f);
  }

  lemma {:induction false} HolderFacts(s: State, f: nat)
    requires Inv(s) && f < NFRAMES
    ensures |s.use| == NFRAMES && (s.use[f].Held? ==> s.use[f].dir in s.pc && PcFrame(s.pc[s.use[f].dir]) == f)
  {
    hide CountOk, Sharing, TwinOk, CopyOk, Staff, Flight, KernelOk, FreeOk, UserOk;
    assert s.use[f].Held? ==> s.use[f] == Held(s.use[f].dir);
  }

  // ------------------------------------------------------ faults that do not overlap

  /** No reference to a frame is taken while another directory is in the middle of a fault on it. */
  ghost predicate Serial(s: State, ls: seq<Label>)
    decreases |ls|
  {
    ls == [] ||
    ((forall e: nat, f: nat :: Takes(s, ls[0], f) && e != ls[0].dir && e in s.pc ==> !Pending(s.pc[e], f))
     && (Step(s, ls[0]).Went? ==> Serial(Step(s, ls[0]).s, ls[1..])))
  }

  lemma {:induction false} SerialNotOvertaken(s: State, ls: seq<Label>, f: nat)
    requires Serial(s, ls)
    ensures !Overtaken(s, ls, f)
    decreases |ls|
  {
    hide Step, Takes;
    if ls != [] && Step(s, ls[0]).Went? {
      SerialNotOvertaken(Step(s, ls[0]).s, ls[1..], f);
    }
  }

  /**
   Pages are conserved in every run whose faults on a frame overlap neither each
   other nor deallocuvm, when mappages does not fail: at its end, and with no
   operation in flight, a frame is free, or the kernel's, or mapped with a count
   that is the number of entries mapping it.
   */
  lemma {:induction false} SerialConserves(boot: State, ls: seq<Label>, f: nat)
    requires Init(boot) && Run(boot, ls).Went? && Serial(boot, ls) && NoMiss(ls) && f < NFRAMES
    requires forall d :: d in Run(boot, ls).s.pc ==> Run(boot, ls).s.pc[d] == Idle
    ensures var s := Run(boot, ls).s;
      var entries := set k | k in s.ptes && s.ptes[k].frame == f;
      && |s.rc| == |s.use| == NFRAMES && s.rc[f] == |entries|
      && (f in s.free ==> entries == {} && s.use[f] != Kernel)
      && (f !in s.free && entries == {} ==> s.use[f] == Kernel)
      && (entries != {} ==> f !in s.free && s.use[f] != Kernel)
  {
    hide Inv, Run, Serial, Overtaken, NoMiss, OutOfAccount;
    var s := Run(boot, ls).s;
    InitInv(boot);
    RunRefines(boot, ls);
    forall g: nat | g < NFRAMES ensures !Overtaken(boot, ls, g) {
      SerialNotOvertaken(boot, ls, g);
    }
    ConservedExactly(boot, ls);
    InAccount(s, f);
    CountsFacts(s, f);
  }

  // ------------------------------------------------------ the leak happens

  /** A doomed fault can finish as soon as a page is free, and then the frame is out of account. */
  lemma {:induction false} DoomedCanLeak(s: State, e: nat, f: nat) returns (ls: seq<Label>)
    requires Inv(s) && Doomed(s, e, f) && f < NFRAMES && s.free != []
    ensures Run(s, ls).Went? && NoMiss(ls) && Finishes(s, ls, e) && OutOfAccount(Run(s, ls).s, f)
  {
    hide Inv, Overtakes, OutOfAccount, DoFaultAlloc, DoFaultCopy, DoFaultDrop;
    ls := ToTheDrop(s, e, f);
    RunRefines(s, ls);
    DoomedLeaks(s, ls, e, f);
    OutExactly(Run(s, ls).s, f);
  }

  /** A doomed fault takes its next step and stays doomed. */
  lemma {:induction false} StaysDoomed(s: State, e: nat, f: nat) returns (l: Label)
    requires Inv(s) && Doomed(s, e, f) && !s.pc[e].FaultCopied? && (s.pc[e].FaultShared? ==> s.free != [])
    ensures Step(s, l).Went? && !l.GrowMiss? && !Ends(s, l, e) && l != FaultDrop(e) && Doomed(Step(s, l).s, e, f)
    ensures if s.pc[e].FaultShared? then Step(s, l).s.pc[e].FaultHeld? else Step(s, l).s.pc[e].FaultCopied?
  {
    hide Inv;
    LengthFacts(s);
    PendingFacts(s, e);
    PendingCount(s, e, f);
    l := if s.pc[e].FaultShared? then FaultAlloc(e) else FaultCopy(e);
  }

  /** The steps left until the count moves. */
  lemma {:induction false} ToTheDrop(s: State, e: nat, f: nat) returns (ls: seq<Label>)
    requires Inv(s) && Doomed(s, e, f) && (s.pc[e].FaultShared? ==> s.free != [])
    ensures Run(s, ls).Went? && NoMiss(ls) && Finishes(s, ls, e)
    decreases if s.pc[e].FaultShared? then 2 else if s.pc[e].FaultHeld? then 1 else 0
  {
    hide Inv, Ends, PageStep, ForkStep, SpaceStep, DoFaultAlloc, DoFaultCopy, DoFaultDrop;
    if s.pc[e].FaultCopied? {
      LengthFacts(s);
      PendingFacts(s, e);
      ls := [FaultDrop(e)];
      RunNone(Step(s, FaultDrop(e)).s, ls[1..]);
    } else {
      var l := StaysDoomed(s, e, f);
      StepRefines(s, l);
      var rest := ToTheDrop(Step(s, l).s, e, f);
      ls := [l] + rest;
      assert ls[0] == l && ls[1..] == rest;
    }
  }

  /** Processes p and q run in user mode and share the frame of their page v with nobody else. */
  predicate Sharers(s: State, p: nat, q: nat, v: nat) {
    InUser(s, p) && InUser(s, q) && p != q &&
    var k, k' := Key(s.procs[p], v), Key(s.procs[q], v);
    && k in s.ptes && k' in s.ptes && s.ptes[k] == s.ptes[k'] && s.ptes[k].u
    && s.ptes[k].frame < |s.rc| && s.rc[s.ptes[k].frame] == 2
  }

  /** The first process grows by a page and forks. */
  function GrowAndFork(p: nat, d: nat, c: nat, e: nat): seq<Label> {
    [GrowAlloc(d, 0), GrowMap(d, true), KernTake, ForkStart(p, c, e), ForkPage(e, 0), ForkEnd(e)]
  }

  /** One process, with one writable page. */
  predicate OnePage(s: State, p: nat, d: nat, f: nat) {
    && s.procs == map[p := d] && s.slot == map[d := p] && s.role == map[d := Live(p)] && s.pc == map[d := Idle]
    && s.ptes == map[Key(d, 0) := Pte(f, true, true)] && f < |s.rc| == |s.use| && s.rc[f] == 1
  }

  lemma {:induction false} GrowOne(boot: State, p: nat, d: nat, ls: seq<Label>) returns (s: State)
    requires Init(boot) && IsFirst(boot, p, d) && |boot.free| >= 2 && |ls| >= 3
    requires ls[0] == GrowAlloc(d, 0) && ls[1] == GrowMap(d, true) && ls[2] == KernTake
    ensures Run(boot, ls) == Run(s, ls[3..]) && OnePage(s, p, d, boot.free[0]) && s.free == boot.free[2..]
    ensures IsSpare(s, boot.free[1])
  {
    hide Run, Inv, Filled;
    var f, e := boot.free[0], boot.free[1];
    InitInv(boot);
    FreshFacts(boot, f);
    FreshFacts(boot, e);
    DistinctFree(boot);
    var s1 := DoGrowAlloc(boot, d, 0);
    var s2 := DoGrowMap(s1, d, true);
    s := Take(s2, Kernel);
    RunStep(boot, s1, ls);
    RunStep(s1, s2, ls[1..]);
    RunStep(s2, s, ls[1..][1..]);
    assert ls[1..][1..][1..] == ls[3..];
  }

  /** Directory d is being copied to e, for slot c; its one page is at frame f. */
  predicate Forking(s: State, p: nat, d: nat, c: nat, e: nat, f: nat) {
    && p in s.procs && s.procs[p] == d && d in s.slot && d in s.role && d in s.pc && d != e
    && InHand(s, e, Child) && s.slot[e] == c && s.under[e] == d
    && Key(d, 0) in s.ptes && s.ptes[Key(d, 0)].frame == f && s.ptes[Key(d, 0)].u
    && f < |s.rc|
  }

  lemma {:induction false} ForkMayStart(s: State, p: nat, d: nat, f: nat, c: nat, e: nat)
    requires OnePage(s, p, d, f) && c < NPROC && c != p && IsSpare(s, e)
    ensures CanForkStart(s, p, c, e) && Step(s, ForkStart(p, c, e)) == Went(DoForkStart(s, p, c, e))
    ensures s.procs[p] == d && d != e
    ensures Key(d, 0) in s.ptes && s.ptes[Key(d, 0)].frame == f && s.ptes[Key(d, 0)].u && f < |s.rc| && s.rc[f] == 1
    ensures forall k :: k in s.ptes ==> k == Key(d, 0)
  {
    hide DoForkStart;
  }

  lemma {:induction false} ForkOneStart(s: State, p: nat, d: nat, f: nat, c: nat, e: nat)
    requires CanForkStart(s, p, c, e) && s.procs[p] == d && d != e
    requires Key(d, 0) in s.ptes && s.ptes[Key(d, 0)].frame == f && s.ptes[Key(d, 0)].u && f < |s.rc| && s.rc[f] == 1
    requires forall k :: k in s.ptes ==> k == Key(d, 0)
    ensures var s' := DoForkStart(s, p, c, e);
      && Forking(s', p, d, c, e, f) && s'.rc[f] == 1 && s'.free == s.free
      && Key(e, 0) !in s'.ptes && forall k :: k in s'.ptes ==> k == Key(d, 0)
  {
  }

  lemma {:induction false} ForkOnePage(s: State, p: nat, d: nat, f: nat, c: nat, e: nat)
    requires Forking(s, p, d, c, e, f) && Key(e, 0) !in s.ptes && s.rc[f] == 1 && forall k :: k in s.ptes ==> k == Key(d, 0)
    ensures CanForkPage(s, e, 0) && Step(s, ForkPage(e, 0)) == Went(DoForkPage(s, e, 0))
    ensures var s' := DoForkPage(s, e, 0);
      && Forking(s', p, d, c, e, f) && CanForkEnd(s', e) && s'.rc[f] == 2 && s'.free == s.free
      && Key(e, 0) in s'.ptes && s'.ptes[Key(e, 0)] == s'.ptes[Key(d, 0)]
  {
  }

  lemma {:induction false} ForkOneEnd(s: State, p: nat, d: nat, f: nat, c: nat, e: nat)
    requires Forking(s, p, d, c, e, f) && CanForkEnd(s, e) && s.rc[f] == 2 && c != p
    requires Key(e, 0) in s.ptes && s.ptes[Key(e, 0)] == s.ptes[Key(d, 0)]
    ensures Step(s, ForkEnd(e)) == Went(DoForkEnd(s, e))
    ensures Sharers(DoForkEnd(s, e), p, c, 0) && DoForkEnd(s, e).free == s.free
  {
  }

  lemma {:induction false} ForkOne(s: State, p: nat, d: nat, f: nat, c: nat, e: nat)
    requires OnePage(s, p, d, f) && c < NPROC && c != p && IsSpare(s, e)
    ensures var end := Run(s, [ForkStart(p, c, e), ForkPage(e, 0), ForkEnd(e)]);
      end.Went? && Sharers(end.s, p, c, 0) && end.s.free == s.free
  {
    hide Run, OnePage, Forking, Sharers, Step, IsSpare,
      DoForkStart, DoForkPage, DoForkEnd, CanForkStart, CanForkPage, CanForkEnd;
    var ls := [ForkStart(p, c, e), ForkPage(e, 0), ForkEnd(e)];
    ForkMayStart(s, p, d, f, c, e);
    ForkOneStart(s, p, d, f, c, e);
    var s1 := DoForkStart(s, p, c, e);
    ForkOnePage(s1, p, d, f, c, e);
    var s2 := DoForkPage(s1, e, 0);
    ForkOneEnd(s2, p, d, f, c, e);
    var s3 := DoForkEnd(s2, e);
    RunStep(s, s1, ls);
    RunStep(s1, s2, ls[1..]);
    RunStep(s2, s3, ls[1..][1..]);
    RunNone(s3, ls[1..][1..][1..]);
  }

  /** After growing by a page and forking, the first process shares that page with its child. */
  lemma {:induction false} ForkShares(boot: State, p: nat, d: nat, c: nat)
    requires Init(boot) && IsFirst(boot, p, d) && c < NPROC && c != p && |boot.free| >= 2
    ensures var end := Run(boot, GrowAndFork(p, d, c, boot.free[1]));
      end.Went? && Sharers(end.s, p, c, 0) && end.s.free == boot.free[2..]
  {
    hide Run, Init, OnePage, Sharers;
    var ls := GrowAndFork(p, d, c, boot.free[1]);
    var s := GrowOne(boot, p, d, ls);
    ForkOne(s, p, d, boot.free[0], c, boot.free[1]);
    assert ls[3..] == [ForkStart(p, c, boot.free[1]), ForkPage(boot.free[1], 0), ForkEnd(boot.free[1])];
  }

  lemma {:induction false} RunConcat(s: State, ls: seq<Label>, ms: seq<Label>)
    requires Run(s, ls).Went?
    ensures Run(s, ls + ms) == Run(Run(s, ls).s, ms)
    decreases |ls|
  {
    hide Step;
    if ls == [] {
      assert ls + ms == ms;
    } else {
      assert (ls + ms)[0] == ls[0] && (ls + ms)[1..] == ls[1..] + ms;
      RunConcat(Step(s, ls[0]).s, ls[1..], ms);
    }
  }

  /** From power-up, two processes can come to share a page. */
  lemma {:induction false} SharingIsReachable(boot: State) returns (ls: seq<Label>, p: nat, q: nat)
    requires Init(boot) && |boot.free| >= 2
    ensures Run(boot, ls).Went? && NoMiss(ls) && Sharers(Run(boot, ls).s, p, q, 0)
    ensures Run(boot, ls).s.free == boot.free[2..]
  {
    hide Run, Sharers;
    var d: nat;
    p, d :| IsFirst(boot, p, d);
    q := if p == 0 then 1 else 0;
    ls := GrowAndFork(p, d, q, boot.free[1]);
    ForkShares(boot, p, d, q);
  }

  /** From every power-up state with four free pages there is a run in which two overlapping faults leak a frame. */
  lemma {:induction false} FaultsCanLeak(boot: State) returns (ls: seq<Label>, f: nat)
    requires Init(boot) && |boot.free| >= 4
    ensures Run(boot, ls).Went? && NoMiss(ls) && f < NFRAMES && OutOfAccount(Run(boot, ls).s, f)
  {
    hide Run, Inv, Init, OutOfAccount;
    var pre, p, q := SharingIsReachable(boot);
    var s := Run(boot, pre).s;
    InitInv(boot);
    RunRefines(boot, pre);
    LengthFacts(s);
    var d, d' := s.procs[p], s.procs[q];
    var ms := [FaultEnter(p, 0), FaultEnter(q, 0), FaultAlloc(d), FaultAlloc(d'),
               FaultCopy(d), FaultCopy(d'), FaultDrop(d), FaultDrop(d')];
    f := s.ptes[Key(d, 0)].frame;
    OverlappingFaultsLeak(s, p, q, 0);
    ls := pre + ms;
    RunConcat(boot, pre, ms);
    RunRefines(s, ms);
    OutExactly(Run(s, ms).s, f);
  }

  /** One of the two sharers of a frame faults on it, and meanwhile the other gives the page up. */
  lemma {:induction false} ShrinkDooms(s: State, p: nat, q: nat, v: nat) returns (s': State)
    requires Inv(s) && Sharers(s, p, q, v)
    ensures Run(s, [FaultEnter(p, v), Unmap(s.procs[q], v)]) == Went(s') && s'.free == s.free
    ensures Doomed(s', s.procs[p], s.ptes[Key(s.procs[p], v)].frame)
  {
    hide Run, Inv, Overtakes;
    var d, d' := s.procs[p], s.procs[q];
    var k, k' := Key(d, v), Key(d', v);
    ProcFacts(s, p);
    ProcFacts(s, q);
    EntryFacts(s, k);
    LengthFacts(s);
    SharedReadOnly(s, k, k');
    var ls := [FaultEnter(p, v), Unmap(d', v)];
    var s1 := SetPc(s, d, FaultShared(v, s.ptes[k].frame));
    s' := DoUnmap(s1, d', v);
    RunStep(s, s1, ls);
    RunStep(s1, s', ls[1..]);
    RunNone(s', ls[1..][1..]);
  }

  /** The same with a process that shrinks while the other is in its fault. */
  lemma {:induction false} ShrinkCanLeak(boot: State) returns (ls: seq<Label>, f: nat)
    requires Init(boot) && |boot.free| >= 3
    ensures Run(boot, ls).Went? && NoMiss(ls) && f < NFRAMES && OutOfAccount(Run(boot, ls).s, f)
  {
    hide Run, Inv, Init, OutOfAccount, Doomed;
    var pre, p, q := SharingIsReachable(boot);
    var s := Run(boot, pre).s;
    InitInv(boot);
    RunRefines(boot, pre);
    LengthFacts(s);
    var s' := ShrinkDooms(s, p, q, 0);
    var e := s.procs[p];
    f := s.ptes[Key(e, 0)].frame;
    var ms := [FaultEnter(p, 0), Unmap(s.procs[q], 0)];
    RunRefines(s, ms);
    var ns := DoomedCanLeak(s', e, f);
    ls := pre + (ms + ns);
    RunConcat(s, ms, ns);
    RunConcat(boot, pre, ms + ns);
  }
}
