/**
 What copy-on-write promises, over every run from power-up.
 */
module CowTheorems {
  import opened CowMachine
  import opened CowInvariant
  import opened CowKeep
  import opened CowRefinement

  /**
   Main result: after any run, a process in user mode reads through its page
   table exactly the bytes it would read had every fork copied every page.
   */
  lemma {:induction false} ReadsAsIfCopied(boot: State, ls: seq<Label>, p: nat, v: nat)
    requires Init(boot) && Run(boot, ls).Went?
    requires InUser(Run(boot, ls).s, p)
    ensures var s := Run(boot, ls).s;
      var r := RefRun(Ref(map[], boot.procs), Events(boot, ls));
      var k := Key(s.procs[p], v);
      && r.procs == s.procs
      && (k in s.ptes <==> k in r.pages)
      && (k in s.ptes ==> s.ptes[k].frame < |s.frames| && s.frames[s.ptes[k].frame] == r.pages[k])
  {
    hide Inv, Run, RefRun, Events;
    var s := Run(boot, ls).s;
    var k := Key(s.procs[p], v);
    InitInv(boot);
    RunRefines(boot, ls);
    assert Abs(boot).pages == map[];
    ProcFacts(s, p);
    AbsentFacts(s, k);
    CopyFacts(s, s.procs[p]);
    if k in s.ptes {
      LinkFacts(s, k);
    }
  }

  /** No fault that the processor raises ends in a panic, and every count stays within a signed char. */
  lemma {:induction false} CountsAreExact(s: State, f: nat)
    requires Reachable(s) && f < NFRAMES
    ensures !s.panicked && |s.rc| == |s.use| == NFRAMES
    ensures 0 <= s.rc[f] <= NPROC
    ensures s.rc[f] == |RefsOf(s.counted, f)| + (if s.use[f] == Lost then 1 else 0)
    ensures (forall d :: d in s.pc ==> !s.pc[d].FaultDropped?) ==>
              RefsOf(s.counted, f) == set k | k in s.ptes && s.ptes[k].frame == f
  {
    ReachableInv(s);
    CountsFacts(s, f);
  }

  lemma {:induction false} CountsFacts(s: State, f: nat)
    requires Inv(s) && f < NFRAMES
    ensures !s.panicked && |s.rc| == |s.use| == NFRAMES
    ensures 0 <= s.rc[f] <= NPROC
    ensures s.rc[f] == |RefsOf(s.counted, f)| + (if s.use[f] == Lost then 1 else 0)
    ensures (forall d :: d in s.pc ==> !s.pc[d].FaultDropped?) ==>
              RefsOf(s.counted, f) == set k | k in s.ptes && s.ptes[k].frame == f
  {
    hide HeldOk, Sharing, TwinOk, CopyOk, DutyOk, OwnerOk, KernelOk, FreeOk, PcOk, AloneOk;
    BoundFacts(s, f);
    if s.use[f] == Lost {
      RefsEmpty(s.counted, s.use, f);
    }
  }

  /** Each frame has exactly one use, and its use tells its count and whether it is on the free list. */
  lemma {:induction false} FramesAreAccounted(s: State, f: nat)
    requires Reachable(s) && f < NFRAMES
    ensures |s.rc| == |s.use| == NFRAMES
    ensures f in s.free <==> s.use[f] == Free
    ensures s.use[f] == User <==> RefsOf(s.counted, f) != {}
    ensures s.use[f] == User ==> s.rc[f] >= 1
    ensures s.use[f] == Lost ==> s.rc[f] == 1
    ensures s.use[f] != User && s.use[f] != Lost ==> s.rc[f] == 0
    ensures f in s.slot ==> s.use[f] == Kernel
  {
    ReachableInv(s);
    AccountFacts(s, f);
  }

  lemma {:induction false} AccountFacts(s: State, f: nat)
    requires Inv(s) && f < NFRAMES
    ensures |s.rc| == |s.use| == NFRAMES
    ensures f in s.free <==> s.use[f] == Free
    ensures s.use[f] == User <==> RefsOf(s.counted, f) != {}
    ensures s.use[f] == User ==> s.rc[f] >= 1
    ensures s.use[f] == Lost ==> s.rc[f] == 1
    ensures s.use[f] != User && s.use[f] != Lost ==> s.rc[f] == 0
    ensures f in s.slot ==> s.use[f] == Kernel
  {
    hide HeldOk, Sharing, TwinOk, CopyOk, Staff, Flight;
    if s.use[f] != User {
      RefsEmpty(s.counted, s.use, f);
    }
  }

  // ------------------------------------------------------ frames that are never freed

  /** Between s and s' frame f goes out of account exactly when the given conditions hold, and never comes back. */
  ghost predicate Leaks(s: State, s': State, f: nat, leaks: bool, loses: bool) {
    && f < |s.use| == |s'.use|
    && (s'.use[f] == Leaked <==> s.use[f] == Leaked || leaks)
    && (s'.use[f] == Lost <==> s.use[f] == Lost || loses)
  }

  lemma {:induction false} DropLeaks(s: State, d: nat, f: nat)
    requires Inv(s) && CanFaultDrop(s, d) && f < NFRAMES
    ensures Leaks(s, DoFaultDrop(s, d), f, s.pc[d].f == f && s.rc[f] == 1, false)
  {
    hide Inv;
    PendingFacts(s, d);
    EntryFacts(s, Key(d, s.pc[d].v));
  }

  lemma {:induction false} AllocLeaks(s: State, d: nat, f: nat)
    requires Inv(s) && CanFaultAlloc(s, d) && f < NFRAMES
    ensures Leaks(s, DoFaultAlloc(s, d), f, false, false)
  {
    hide FreeOk, CountOk, HeldOk, Sharing, TwinOk, CopyOk, Staff, KernelOk, Flight, UserOk;
    FreshFacts(s, if |s.free| > 0 then s.free[0] else 0);
  }

  lemma {:induction false} OtherFaultsKeepUse(s: State, l: Label)
    requires FaultStep(s, l).Went? && !l.FaultAlloc? && !l.FaultDrop?
    ensures FaultStep(s, l).s.use == s.use
  {
    hide DoFaultAlloc, DoFaultDrop;
  }

  lemma {:induction false} FaultLeaks(s: State, l: Label, f: nat)
    requires Inv(s) && FaultStep(s, l).Went? && f < NFRAMES
    ensures Leaks(s, FaultStep(s, l).s, f, l.FaultDrop? && s.pc[l.dir].f == f && s.rc[f] == 1, false)
  {
    hide Inv, DoFaultEnter, DoFaultEnable, DoFaultAlloc, DoFaultCopy, DoFaultDrop, DoFaultSet;
    CountsFacts(s, f);
    if l.FaultDrop? {
      DropLeaks(s, l.dir, f);
    } else if l.FaultAlloc? {
      AllocLeaks(s, l.dir, f);
    } else {
      OtherFaultsKeepUse(s, l);
    }
  }

  lemma {:induction false} PageLeaks(s: State, l: Label, f: nat)
    requires Inv(s) && PageStep(s, l).Went? && f < NFRAMES
    ensures Leaks(s, PageStep(s, l).s, f, false, l.GrowMiss? && s.pc[l.dir].mem == f)
  {
    hide FreeOk, CountOk, HeldOk, Sharing, TwinOk, CopyOk, Staff, KernelOk, Flight, UserOk;
    if l.Unmap? {
      EntryFacts(s, Key(l.dir, l.v));
    } else if l.GrowMap? || l.GrowMiss? {
      PendingFacts(s, l.dir);
    }
    FreshFacts(s, if |s.free| > 0 then s.free[0] else 0);
  }

  /**
   A step drops a frame from the accounts in exactly two cases: a fault lowers
   the count of a frame to zero (its other users went away since the fault saw
   more than one), or allocuvm ignores a failure of mappages. Neither frame
   comes back.
   */
  lemma {:induction false} LeakExactly(s: State, l: Label, f: nat)
    requires Inv(s) && Step(s, l).Went? && f < NFRAMES
    ensures Leaks(s, Step(s, l).s, f,
                  l.FaultDrop? && l.dir in s.pc && s.pc[l.dir].FaultCopied? && s.pc[l.dir].f == f && s.rc[f] == 1,
                  l.GrowMiss? && l.dir in s.pc && s.pc[l.dir].GrowHeld? && s.pc[l.dir].mem == f)
  {
    hide FreeOk, CountOk, UserOk, HeldOk, Sharing, TwinOk, CopyOk, Staff, KernelOk, Flight;
    if IsFault(l) {
      FaultLeaks(s, l, f);
    } else if IsPage(l) {
      PageLeaks(s, l, f);
    }
  }

  lemma {:induction false} RunStep(s: State, s': State, ls: seq<Label>)
    requires ls != [] && Step(s, ls[0]) == Went(s')
    ensures Run(s, ls) == Run(s', ls[1..])
  {
    hide Step;
  }

  /** Two faults that both saw the count above one both take a frame. */
  lemma {:induction false} OverlapTakes(s: State, d: nat, d': nat, v: nat, f: nat, ls: seq<Label>) returns (s': State)
    requires d != d' && d in s.pc && d' in s.pc && s.pc[d] == s.pc[d'] == FaultShared(v, f) && d in s.slot && d' in s.slot
    requires |s.free| >= 2 && s.free[0] < |s.use| && s.free[1] < |s.use| && s.free[0] != s.free[1]
    requires |ls| == 6 && ls[0] == FaultAlloc(d) && ls[1] == FaultAlloc(d')
    ensures Run(s, ls) == Run(s', ls[2..])
    ensures d in s'.pc && d' in s'.pc && s'.rc == s.rc && |s'.use| == |s.use| && s'.frames == s.frames
    ensures s'.pc[d] == FaultHeld(v, f, s.free[0]) && s'.pc[d'] == FaultHeld(v, f, s.free[1])
  {
    hide Run;
    var s1 := DoFaultAlloc(s, d);
    s' := DoFaultAlloc(s1, d');
    RunStep(s, s1, ls);
    RunStep(s1, s', ls[1..]);
    assert ls[1..][1..] == ls[2..];
  }

  /** And both copy. */
  lemma {:induction false} OverlapCopies(s: State, d: nat, d': nat, v: nat, f: nat, ls: seq<Label>) returns (s': State)
    requires d != d' && d in s.pc && d' in s.pc && s.pc[d] == s.pc[d'] == FaultShared(v, f) && d in s.slot && d' in s.slot
    requires |s.free| >= 2 && |s.frames| == |s.rc| == |s.use| && f < |s.rc|
    requires s.free[0] < |s.rc| && s.free[1] < |s.rc| && s.free[0] != s.free[1]
    requires |ls| == 6 && ls[0] == FaultAlloc(d) && ls[1] == FaultAlloc(d') && ls[2] == FaultCopy(d) && ls[3] == FaultCopy(d')
    ensures Run(s, ls) == Run(s', ls[4..])
    ensures d in s'.pc && d' in s'.pc && s'.rc == s.rc && |s'.use| == |s.use|
    ensures s'.pc[d] == FaultCopied(v, f, s.free[0]) && s'.pc[d'] == FaultCopied(v, f, s.free[1])
  {
    hide Run, DoFaultAlloc;
    var s2 := OverlapTakes(s, d, d', v, f, ls);
    var s3 := DoFaultCopy(s2, d);
    s' := DoFaultCopy(s3, d');
    RunStep(s2, s3, ls[2..]);
    RunStep(s3, s', ls[2..][1..]);
    assert ls[2..][1..][1..] == ls[4..];
  }

  lemma {:induction false} OverlapDrops(s: State, d: nat, d': nat, v: nat, f: nat, m: nat, m': nat, ls: seq<Label>)
    requires d != d' && d in s.pc && d' in s.pc && |s.rc| == |s.use|
    requires s.pc[d] == FaultCopied(v, f, m) && s.pc[d'] == FaultCopied(v, f, m')
    requires f < |s.rc| && m < |s.rc| && m' < |s.rc| && f != m && f != m' && m != m' && s.rc[f] == 2
    requires ls == [FaultDrop(d), FaultDrop(d')]
    ensures var end := Run(s, ls);
      end.Went? && f < |end.s.rc| == |end.s.use| && end.s.rc[f] == 0 && end.s.use[f] == Leaked
  {
    hide Run;
    var s1 := DoFaultDrop(s, d);
    assert s1.rc[f] == 1;
    var s2 := DoFaultDrop(s1, d');
    RunStep(s, s1, ls);
    RunStep(s1, s2, ls[1..]);
    RunNone(s2, ls[1..][1..]);
  }

  lemma {:induction false} RunNone(s: State, ls: seq<Label>)
    requires |ls| == 0
    ensures Run(s, ls) == Went(s)
  {
  }

  lemma {:induction false} DistinctFree(s: State)
    requires Inv(s) && |s.free| >= 2
    ensures s.free[0] != s.free[1]
  {
    hide CountOk, UserOk, HeldOk, Sharing, TwinOk, CopyOk, Staff, KernelOk, Flight;
  }

  /** Two processes that share a frame and fault on it at the same time leave it with count 0 and never freed. */
  lemma {:induction false} OverlappingFaultsLeak(s: State, p: nat, q: nat, v: nat)
    requires Inv(s) && InUser(s, p) && InUser(s, q) && p != q
    requires var k, k' := Key(s.procs[p], v), Key(s.procs[q], v);
      && k in s.ptes && k' in s.ptes && s.ptes[k] == s.ptes[k'] && s.ptes[k].u
      && s.ptes[k].frame < |s.rc| && s.rc[s.ptes[k].frame] == 2
    requires |s.free| >= 2
    ensures var d, d' := s.procs[p], s.procs[q];
      var f := s.ptes[Key(d, v)].frame;
      var end := Run(s, [FaultEnter(p, v), FaultEnter(q, v), FaultAlloc(d), FaultAlloc(d'),
                         FaultCopy(d), FaultCopy(d'), FaultDrop(d), FaultDrop(d')]);
      end.Went? && f < |end.s.rc| == |end.s.use| && end.s.rc[f] == 0 && end.s.use[f] == Leaked
  {
    hide Inv, Run;
    var d, d' := s.procs[p], s.procs[q];
    var k, k' := Key(d, v), Key(d', v);
    var f := s.ptes[k].frame;
    ProcFacts(s, p);
    ProcFacts(s, q);
    EntryFacts(s, k);
    EntryFacts(s, k');
    CopyFacts(s, d);
    SharedReadOnly(s, k, k');
    FreshFacts(s, s.free[0]);
    FreshFacts(s, s.free[1]);
    DistinctFree(s);
    var s1 := SetPc(s, d, FaultShared(v, f));
    var s2 := SetPc(s1, d', FaultShared(v, f));
    var ls := [FaultEnter(p, v), FaultEnter(q, v), FaultAlloc(d), FaultAlloc(d'),
               FaultCopy(d), FaultCopy(d'), FaultDrop(d), FaultDrop(d')];
    RunStep(s, s1, ls);
    RunStep(s1, s2, ls[1..]);
    var s3 := OverlapCopies(s2, d, d', v, f, ls[1..][1..]);
    OverlapDrops(s3, d, d', v, f, s.free[0], s.free[1], ls[1..][1..][4..]);
  }

  lemma {:induction false} SharedReadOnly(s: State, k: Key, k': Key)
    requires Inv(s) && k in s.ptes && k' in s.ptes && s.ptes[k] == s.ptes[k'] && k != k'
    requires s.pc[k.dir].Idle? && s.pc[k'.dir].Idle?
    ensures !s.ptes[k].w
  {
    hide Account, HeldOk, KinOk, TwinOk, CopyOk, Staff, KernelOk, PcOk, AloneOk;
  }

  // ------------------------------------------------------ a write faults at most once

  /** The step reads or writes entries, program counter or role of directory d. */
  predicate ActsOn(s: State, l: Label, d: nat) {
    match l
    case Write(_, _, _, _) => false
    case FaultEnter(p, _) => p in s.procs && s.procs[p] == d
    case ForkStart(p, _, _) => p in s.procs && s.procs[p] == d
    case ExecStart(p, _) => p in s.procs && s.procs[p] == d
    case Exit(p) => p in s.procs && s.procs[p] == d
    case ForkClear(c, _) => c in s.under && s.under[c] == d
    case ForkPage(c, _) => c == d || (c in s.under && s.under[c] == d)
    case ForkEnd(c) => c in s.under && s.under[c] == d
    case ForkFail(c) => c in s.under && s.under[c] == d
    case ExecCommit(e) => e in s.under && s.under[e] == d
    case ExecFail(e) => e in s.under && s.under[e] == d
    case KernTake => false
    case KernGive(_) => false
    case Load(_, _, _) => false
    case GrowAlloc(d', _) => d' == d
    case Unmap(d', _) => d' == d
    case DirFree(d') => d' == d
    case _ => l.dir == d
  }

  /** Process p still runs in directory d, in user mode, and its entry at v is unchanged. */
  ghost predicate SameView(s: State, s': State, p: nat, d: nat, v: nat) {
    && p in s'.procs && s'.procs[p] == d && At(s', d, Idle)
    && (Key(d, v) in s'.ptes <==> Key(d, v) in s.ptes)
    && (Key(d, v) in s.ptes ==> s'.ptes[Key(d, v)] == s.ptes[Key(d, v)])
    && |s'.frames| == |s.frames|
  }

  lemma {:induction false} ForkKeepsView(s: State, l: Label, p: nat, v: nat)
    requires Inv(s) && InUser(s, p) && ForkStep(s, l).Went? && !ActsOn(s, l, s.procs[p])
    ensures SameView(s, ForkStep(s, l).s, p, s.procs[p], v)
  {
    hide Inv;
    if l.ForkClear? || l.ForkPage? || l.ForkEnd? || l.ForkFail? {
      UnderFacts(s, l.dir);
    }
  }

  lemma {:induction false} CommitKeepsView(s: State, e: nat, p: nat, v: nat)
    requires Inv(s) && InUser(s, p) && InHand(s, e, Staged) && s.under[e] != s.procs[p]
    ensures SameView(s, DoExecCommit(s, e), p, s.procs[p], v)
  {
    hide Inv;
    ProcFacts(s, p);
    UnderFacts(s, e);
    OwnFacts(s, s.under[e]);
    LiveFacts(s, s.under[e]);
  }

  lemma {:induction false} SpaceKeepsView(s: State, l: Label, p: nat, v: nat)
    requires Inv(s) && InUser(s, p) && SpaceStep(s, l).Went? && !ActsOn(s, l, s.procs[p])
    ensures SameView(s, SpaceStep(s, l).s, p, s.procs[p], v)
  {
    hide Inv, DoExecCommit;
    ProcFacts(s, p);
    match l
    case ExecCommit(e) => CommitKeepsView(s, e, p, v);
    case ExecFail(e) => UnderFacts(s, e);
    case Exit(q) => ProcFacts(s, q);
    case _ =>
  }

  /** Only directory e has changed. */
  ghost predicate OnlyDir(s: State, s': State, e: nat) {
    && s'.procs == s.procs && s'.role == s.role && s'.slot == s.slot && |s'.frames| == |s.frames|
    && (forall d :: d in s.pc && d != e ==> d in s'.pc && s'.pc[d] == s.pc[d])
    && (forall k: Key {:trigger k in s'.ptes} {:trigger k in s.ptes} ::
          k.dir != e ==> (k in s'.ptes <==> k in s.ptes) && (k in s.ptes ==> s'.ptes[k] == s.ptes[k]))
  }

  /** The directory that a fault works on. */
  function FaultDir(s: State, l: Label): nat {
    if l.FaultEnter? then (if l.slot in s.procs then s.procs[l.slot] else 0)
    else if l.FaultEnable? || l.FaultAlloc? || l.FaultCopy? || l.FaultDrop? || l.FaultSet? then l.dir else 0
  }

  lemma {:induction false} EnterOnlyDir(s: State, p: nat, v: nat)
    requires CanFaultEnter(s, p, v)
    ensures OnlyDir(s, DoFaultEnter(s, p, v), s.procs[p])
  {
  }

  lemma {:induction false} EnableOnlyDir(s: State, d: nat)
    requires CanFaultEnable(s, d)
    ensures OnlyDir(s, DoFaultEnable(s, d), d)
  {
  }

  lemma {:induction false} AllocOnlyDir(s: State, d: nat)
    requires CanFaultAlloc(s, d)
    ensures OnlyDir(s, DoFaultAlloc(s, d), d)
  {
  }

  lemma {:induction false} CopyOnlyDir(s: State, d: nat)
    requires CanFaultCopy(s, d)
    ensures OnlyDir(s, DoFaultCopy(s, d), d)
  {
  }

  lemma {:induction false} DropOnlyDir(s: State, d: nat)
    requires CanFaultDrop(s, d)
    ensures OnlyDir(s, DoFaultDrop(s, d), d)
  {
  }

  lemma {:induction false} SetOnlyDir(s: State, d: nat)
    requires CanFaultSet(s, d)
    ensures OnlyDir(s, DoFaultSet(s, d), d)
  {
  }

  lemma {:induction false} FaultOnlyDir(s: State, l: Label)
    requires FaultStep(s, l).Went?
    ensures OnlyDir(s, FaultStep(s, l).s, FaultDir(s, l))
  {
    hide OnlyDir, DoFaultEnter, DoFaultEnable, DoFaultAlloc, DoFaultCopy, DoFaultDrop, DoFaultSet;
    match l
    case FaultEnter(p, v) => EnterOnlyDir(s, p, v);
    case FaultEnable(d) => EnableOnlyDir(s, d);
    case FaultAlloc(d) => AllocOnlyDir(s, d);
    case FaultCopy(d) => CopyOnlyDir(s, d);
    case FaultDrop(d) => DropOnlyDir(s, d);
    case FaultSet(d) => SetOnlyDir(s, d);
  }

  lemma {:induction false} FaultKeepsView(s: State, l: Label, p: nat, v: nat)
    requires InUser(s, p) && FaultStep(s, l).Went? && !ActsOn(s, l, s.procs[p])
    ensures SameView(s, FaultStep(s, l).s, p, s.procs[p], v)
  {
    hide DoFaultEnter, DoFaultEnable, DoFaultAlloc, DoFaultCopy, DoFaultDrop, DoFaultSet;
    FaultOnlyDir(s, l);
    assert s.procs[p] != FaultDir(s, l);
  }

  lemma {:induction false} PageKeepsView(s: State, l: Label, p: nat, v: nat)
    requires InUser(s, p) && PageStep(s, l).Went? && !ActsOn(s, l, s.procs[p])
    ensures SameView(s, PageStep(s, l).s, p, s.procs[p], v)
  {
  }

  /** No step of another process changes what this one's entries say. */
  lemma {:induction false} OthersKeepView(s: State, l: Label, p: nat, v: nat)
    requires Inv(s) && InUser(s, p) && Step(s, l).Went? && !ActsOn(s, l, s.procs[p])
    ensures SameView(s, Step(s, l).s, p, s.procs[p], v)
  {
    hide Inv, FaultStep, PageStep, ForkStep, SpaceStep, SameView, ActsOn, IsFault, IsPage, IsFork;
    if IsFault(l) {
      FaultKeepsView(s, l, p, v);
    } else if IsPage(l) {
      PageKeepsView(s, l, p, v);
    } else if IsFork(l) {
      ForkKeepsView(s, l, p, v);
    } else {
      SpaceKeepsView(s, l, p, v);
    }
  }

  ghost predicate NoneActsOn(s: State, ls: seq<Label>, d: nat)
    decreases |ls|
  {
    ls == [] || (!ActsOn(s, ls[0], d)
                 && match Step(s, ls[0]) case Blocked => true case Went(s') => NoneActsOn(s', ls[1..], d))
  }

  /** A fault that finishes makes the page writable for users: the same write would not fault again. */
  lemma {:induction false} FaultEnds(s: State, l: Label)
    requires Inv(s) && (l.FaultSet? || l.FaultEnable?) && Step(s, l).Went?
    ensures l.dir in s.pc && l.dir in s.slot && (s.pc[l.dir].FaultAlone? || s.pc[l.dir].FaultDropped?)
    ensures CanWrite(Step(s, l).s, s.slot[l.dir], s.pc[l.dir].v, 0)
    ensures !CanFaultEnter(Step(s, l).s, s.slot[l.dir], s.pc[l.dir].v)
  {
    hide Inv;
    var d := l.dir;
    AloneFacts(s, d);
    OwnFacts(s, d);
    LiveFacts(s, d);
    CopyFacts(s, d);
    PendingFacts(s, d);
    if l.FaultEnable? {
      LinkFacts(s, Key(d, s.pc[d].v));
    }
  }

  /** A page that is writable stays so while other processes run, and a write to it does not fault. */
  lemma {:induction false} WriteFaultsOnce(s: State, ls: seq<Label>, p: nat, v: nat, o: nat)
    requires Inv(s) && CanWrite(s, p, v, o) && Run(s, ls).Went? && NoneActsOn(s, ls, s.procs[p])
    ensures CanWrite(Run(s, ls).s, p, v, o) && !CanFaultEnter(Run(s, ls).s, p, v)
    decreases |ls|
  {
    hide Inv, Step, ActsOn;
    if ls != [] {
      OthersKeepView(s, ls[0], p, v);
      StepRefines(s, ls[0]);
      WriteFaultsOnce(Step(s, ls[0]).s, ls[1..], p, v, o);
    }
  }

  /** End to end: the fault of a write ends, any run of other processes follows, and the retried write goes through. */
  lemma {:induction false} RetryGoesThrough(s: State, l: Label, ls: seq<Label>, o: nat)
    requires Inv(s) && (l.FaultSet? || l.FaultEnable?) && Run(s, [l] + ls).Went? && o < PGSIZE
    requires Step(s, l).Went? && NoneActsOn(Step(s, l).s, ls, l.dir)
    ensures l.dir in s.pc && l.dir in s.slot && (s.pc[l.dir].FaultAlone? || s.pc[l.dir].FaultDropped?)
    ensures var s', p, v := Run(s, [l] + ls).s, s.slot[l.dir], s.pc[l.dir].v;
      CanWrite(s', p, v, o) && !CanFaultEnter(s', p, v)
  {
    hide Inv, Step, ActsOn, Run, NoneActsOn, CanFaultEnter;
    var s1 := Step(s, l).s;
    FaultEnds(s, l);
    StepRefines(s, l);
    assert ([l] + ls)[0] == l && ([l] + ls)[1..] == ls;
    RunStep(s, s1, [l] + ls);
    ProcFacts(s1, s.slot[l.dir]);
    FaultOwner(s, l);
    WriteFaultsOnce(s1, ls, s.slot[l.dir], s.pc[l.dir].v, o);
  }

  lemma {:induction false} FaultOwner(s: State, l: Label)
    requires Inv(s) && (l.FaultSet? || l.FaultEnable?) && Step(s, l).Went?
    ensures l.dir in s.slot && s.slot[l.dir] in Step(s, l).s.procs && Step(s, l).s.procs[s.slot[l.dir]] == l.dir
  {
    hide Inv;
    OwnFacts(s, l.dir);
    LiveFacts(s, l.dir);
  }
}
