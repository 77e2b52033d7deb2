/**
 The copy-on-write machine refines one in which nothing is shared: there every
 address space has its own copy of every page, and fork copies them all at once.
 */
module CowRefinement {
  import opened Bytes
  import opened CowMachine
  import opened CowInvariant
  import opened CowKeep

  /** Private pages of every address space, and the address space of every process. */
  datatype Ref = Ref(pages: map<Key, Page>, procs: map<nat, nat>)

  datatype Event =
    | Tau
    | Store(slot: nat, v: nat, o: nat, b: Byte)
    | Fill(dir: nat, v: nat, page: Page)
    | MapZero(dir: nat, v: nat)
    | Drop(dir: nat, v: nat)
    | CopyAll(parent: nat, child: nat, slot: nat)
    | Switch(dir: nat, slot: nat)
    | Close(dir: nat)
    | Leave(slot: nat)

  function Without(pages: map<Key, Page>, d: nat): map<Key, Page> {
    map k | k in pages && k.dir != d :: pages[k]
  }

  /** Every page of `from` gets a copy at the same place in `to`. */
  function Copied(pages: map<Key, Page>, from: nat, to: nat): map<Key, Page> {
    pages + map k | k in pages && k.dir == from :: Key(to, k.vpn) := pages[k]
  }

  function RefNext(r: Ref, e: Event): Ref {
    match e
    case Tau => r
    case Store(p, v, o, b) =>
      if p in r.procs && Key(r.procs[p], v) in r.pages && o < PGSIZE then
        var k := Key(r.procs[p], v);
        r.(pages := r.pages[k := r.pages[k][o := b]])
      else r
    case Fill(d, v, page) => r.(pages := r.pages[Key(d, v) := page])
    case MapZero(d, v) => r.(pages := r.pages[Key(d, v) := Filled(0)])
    case Drop(d, v) => r.(pages := r.pages - {Key(d, v)})
    case CopyAll(d, c, p) => Ref(Copied(r.pages, d, c), r.procs[p := c])
    case Switch(d, p) => Ref(if p in r.procs then Without(r.pages, r.procs[p]) else r.pages, r.procs[p := d])
    case Close(d) => r.(pages := Without(r.pages, d))
    case Leave(p) => Ref(if p in r.procs then Without(r.pages, r.procs[p]) else r.pages, r.procs - {p})
  }

  function RefRun(r: Ref, es: seq<Event>): Ref
    decreases |es|
  {
    if es == [] then r else RefRun(RefNext(r, es[0]), es[1..])
  }

  /** What a step of the kernel means on the reference machine. */
  function EventOf(s: State, l: Label): Event {
    match l
    case Write(p, v, o, b) => Store(p, v, o, b)
    case Load(d, v, page) => Fill(d, v, page)
    case GrowMap(d, _) => if CanGrowMap(s, d) then MapZero(d, s.pc[d].v) else Tau
    case Unmap(d, v) => if d in s.role && Visible(s.role[d]) then Drop(d, v) else Tau
    case ForkEnd(c) => if CanForkEnd(s, c) then CopyAll(s.under[c], c, s.slot[c]) else Tau
    case ExecCommit(e) => if e in s.slot then Switch(e, s.slot[e]) else Tau
    case ExecFail(e) => Close(e)
    case Exit(p) => Leave(p)
    case _ => Tau
  }

  /** Address spaces a process runs in or exec is preparing; half-built children and remains are not. */
  predicate Visible(r: Role) {
    r.Live? || r.Staged?
  }

  ghost function PagesOf(frames: seq<Page>, counted: map<Key, nat>, role: map<nat, Role>): map<Key, Page> {
    map k | k in counted && k.dir in role && Visible(role[k.dir]) && counted[k] < |frames| :: frames[counted[k]]
  }

  ghost function Abs(s: State): Ref {
    Ref(PagesOf(s.frames, s.counted, s.role), s.procs)
  }

  // ------------------------------------------------------ contents of pages

  /** Changing a frame without references changes no page. */
  lemma {:induction false} PagesUnused(frames: seq<Page>, counted: map<Key, nat>, role: map<nat, Role>, f: nat, page: Page)
    requires f < |frames| && forall k :: k in counted ==> counted[k] != f
    ensures PagesOf(frames[f := page], counted, role) == PagesOf(frames, counted, role)
  {
  }

  lemma {:induction false} PagesOne(frames: seq<Page>, counted: map<Key, nat>, role: map<nat, Role>, k: Key, page: Page)
    requires k in counted && counted[k] < |frames| && k.dir in role && Visible(role[k.dir])
    requires forall k' :: k' in counted && counted[k'] == counted[k] ==> k' == k
    ensures PagesOf(frames[counted[k] := page], counted, role) == PagesOf(frames, counted, role)[k := page]
  {
  }

  lemma {:induction false} PagesMove(frames: seq<Page>, counted: map<Key, nat>, role: map<nat, Role>, k: Key, g: nat)
    requires k in counted && counted[k] < |frames| && g < |frames| && frames[g] == frames[counted[k]]
    ensures PagesOf(frames, counted[k := g], role) == PagesOf(frames, counted, role)
  {
  }

  lemma {:induction false} PagesAdd(frames: seq<Page>, counted: map<Key, nat>, role: map<nat, Role>, k: Key, g: nat)
    requires k !in counted && g < |frames| && k.dir in role
    ensures PagesOf(frames, counted[k := g], role) ==
            if Visible(role[k.dir]) then PagesOf(frames, counted, role)[k := frames[g]] else PagesOf(frames, counted, role)
  {
  }

  lemma {:induction false} PagesRemove(frames: seq<Page>, counted: map<Key, nat>, role: map<nat, Role>, k: Key)
    requires k.dir in role
    ensures PagesOf(frames, counted - {k}, role) ==
            if Visible(role[k.dir]) then PagesOf(frames, counted, role) - {k} else PagesOf(frames, counted, role)
  {
  }

  lemma {:induction false} PagesHide(frames: seq<Page>, counted: map<Key, nat>, role: map<nat, Role>, d: nat, r: Role)
    requires !Visible(r)
    ensures PagesOf(frames, counted, role[d := r]) == Without(PagesOf(frames, counted, role), d)
  {
  }

  lemma {:induction false} PagesSame(frames: seq<Page>, counted: map<Key, nat>, role: map<nat, Role>, d: nat, r: Role)
    requires (d in role && Visible(r) == Visible(role[d])) || (forall k :: k in counted ==> k.dir != d)
    ensures PagesOf(frames, counted, role[d := r]) == PagesOf(frames, counted, role)
  {
  }

  lemma {:induction false} CopiedAt(pages: map<Key, Page>, d: nat, c: nat, k: Key)
    requires c != d && forall k' :: k' in pages ==> k'.dir != c
    ensures k in Copied(pages, d, c) <==> k in pages || (k.dir == c && Key(d, k.vpn) in pages)
    ensures k in pages ==> Copied(pages, d, c)[k] == pages[k]
    ensures k.dir == c && Key(d, k.vpn) in pages ==> Copied(pages, d, c)[k] == pages[Key(d, k.vpn)]
  {
    assert k == Key(k.dir, k.vpn);
    assert k.dir == c ==> (k in Copied(pages, d, c) <==> Key(d, k.vpn) in pages);
  }

  /** A finished child shows the pages of its parent. */
  lemma {:induction false} PagesFork(frames: seq<Page>, counted: map<Key, nat>, role: map<nat, Role>, d: nat, c: nat, r: Role)
    requires c in role && role[c] == Child && d in role && Visible(role[d]) && Visible(r) && c != d
    requires forall k :: k in counted ==> counted[k] < |frames|
    requires forall v :: Key(c, v) in counted ==> Key(d, v) in counted && counted[Key(d, v)] == counted[Key(c, v)]
    requires forall v :: Key(d, v) in counted ==> Key(c, v) in counted
    ensures PagesOf(frames, counted, role[c := r]) == Copied(PagesOf(frames, counted, role), d, c)
  {
    hide Copied;
    var pages := PagesOf(frames, counted, role);
    var pages' := PagesOf(frames, counted, role[c := r]);
    forall k: Key ensures (k in pages' <==> k in Copied(pages, d, c)) && (k in pages' ==> pages'[k] == Copied(pages, d, c)[k]) {
      CopiedAt(pages, d, c, k);
      assert k == Key(k.dir, k.vpn);
    }
  }

  lemma {:induction false} PagesGone(frames: seq<Page>, counted: map<Key, nat>, role: map<nat, Role>, d: nat)
    requires forall k :: k in counted ==> k.dir != d
    ensures PagesOf(frames, counted, role - {d}) == PagesOf(frames, counted, role)
  {
  }

  // ------------------------------------------------------ steps refine events

  lemma {:induction false} RefinesPoke(s: State, d: nat, v: nat, page: Page)
    requires Inv(s) && CanLoad(s, d, v)
    ensures Key(d, v) in Abs(s).pages && Abs(s).pages[Key(d, v)] == s.frames[s.ptes[Key(d, v)].frame]
    ensures Abs(DoLoad(s, d, v, page)) == Abs(s).(pages := Abs(s).pages[Key(d, v) := page])
  {
    hide Inv;
    WritableFacts(s, Key(d, v));
    PagesOne(s.frames, s.counted, s.role, Key(d, v), page);
  }

  lemma {:induction false} RefinesFaultCopy(s: State, d: nat)
    requires Inv(s) && CanFaultCopy(s, d)
    ensures Abs(DoFaultCopy(s, d)) == Abs(s)
  {
    hide Inv;
    PendingFacts(s, d);
    PagesUnused(s.frames, s.counted, s.role, s.pc[d].mem, s.frames[s.pc[d].f]);
  }

  lemma {:induction false} RefinesFaultDrop(s: State, d: nat)
    requires Inv(s) && CanFaultDrop(s, d)
    ensures Abs(DoFaultDrop(s, d)) == Abs(s)
  {
    hide Inv;
    PendingFacts(s, d);
    CopyFacts(s, d);
    PagesMove(s.frames, s.counted, s.role, Key(d, s.pc[d].v), s.pc[d].mem);
  }

  lemma {:induction false} CopyFacts(s: State, d: nat)
    requires Inv(s) && d in s.pc
    ensures CopyAt(s.frames, s.pc[d]) && |s.frames| == |s.rc| == |s.use| == NFRAMES && d in s.role
  {
    hide FreeOk, CountOk, UserOk, HeldOk, Sharing, TwinOk, Flight, DutyOk, OwnerOk, KernelOk;
  }

  lemma {:induction false} RefinesGrowAlloc(s: State, d: nat, v: nat)
    requires Inv(s) && CanGrowAlloc(s, d, v)
    ensures Abs(DoGrowAlloc(s, d, v)) == Abs(s)
  {
    hide Inv;
    FreshFacts(s, s.free[0]);
    PagesUnused(s.frames, s.counted, s.role, s.free[0], Filled(0));
  }

  /** Only user frames have references. */
  lemma {:induction false} FreshFacts(s: State, f: nat)
    requires Inv(s)
    ensures f in s.free ==> f < NFRAMES && s.use[f] == Free
    ensures f < NFRAMES && s.use[f] != User ==> forall k :: k in s.counted ==> s.counted[k] != f
  {
    hide CountOk, HeldOk, Sharing, TwinOk, Flight, DutyOk, OwnerOk, KernelOk, CopyOk;
  }

  lemma {:induction false} RefinesGrowMap(s: State, d: nat, u: bool)
    requires Inv(s) && CanGrowMap(s, d)
    ensures Abs(DoGrowMap(s, d, u)) == RefNext(Abs(s), MapZero(d, s.pc[d].v))
  {
    hide Inv;
    PendingFacts(s, d);
    CopyFacts(s, d);
    OwnFacts(s, d);
    AbsentFacts(s, Key(d, s.pc[d].v));
    StagedFacts(s, d);
    PagesAdd(s.frames, s.counted, s.role, Key(d, s.pc[d].v), s.pc[d].mem);
  }

  lemma {:induction false} AbsentFacts(s: State, k: Key)
    requires Inv(s)
    ensures k in s.ptes <==> k in s.counted
    ensures k in s.counted ==> k.dir in s.role
  {
    hide Account, HeldOk, Sharing, TwinOk, PcOk, AloneOk, DutyOk, OwnerOk, KernelOk, CopyOk;
  }

  lemma {:induction false} StagedFacts(s: State, d: nat)
    requires Inv(s) && d in s.pc && !s.pc[d].Idle?
    ensures d in s.role && Visible(s.role[d])
  {
    hide Account, HeldOk, Sharing, TwinOk, Flight, OwnerOk, KernelOk, CopyOk;
  }

  lemma {:induction false} RefinesUnmap(s: State, d: nat, v: nat)
    requires Inv(s) && CanUnmap(s, d, v)
    ensures Abs(DoUnmap(s, d, v)) == RefNext(Abs(s), if Visible(s.role[d]) then Drop(d, v) else Tau)
  {
    hide Inv;
    var k := Key(d, v);
    var f := s.ptes[k].frame;
    EntryFacts(s, k);
    PagesRemove(s.frames, s.counted, s.role, k);
    if s.rc[f] == 1 {
      PagesUnused(s.frames, s.counted - {k}, s.role, f, Filled(1));
    }
  }

  lemma {:induction false} RefinesForkPage(s: State, c: nat, v: nat)
    requires Inv(s) && CanForkPage(s, c, v)
    ensures Abs(DoForkPage(s, c, v)) == Abs(s)
  {
    hide Inv;
    UnderFacts(s, c);
    EntryFacts(s, Key(s.under[c], v));
    CopyFacts(s, c);
    AbsentFacts(s, Key(c, v));
    PagesAdd(s.frames, s.counted, s.role, Key(c, v), s.ptes[Key(s.under[c], v)].frame);
  }

  lemma {:induction false} TwinFacts(s: State, c: nat)
    requires Inv(s) && c in s.under && c in s.role && s.role[c] == Child
    ensures forall v :: Key(c, v) in s.counted ==>
              Key(s.under[c], v) in s.counted && s.counted[Key(s.under[c], v)] == s.counted[Key(c, v)]
    ensures forall k :: k in s.counted ==> s.counted[k] < |s.frames|
  {
    hide FreeOk, CountOk, HeldOk, Sharing, Flight, OwnerOk, KernelOk, CopyOk;
  }

  lemma {:induction false} ForkTwins(s: State, c: nat)
    requires Inv(s) && CanForkEnd(s, c)
    ensures forall v :: Key(s.under[c], v) in s.counted ==> Key(c, v) in s.counted
  {
    hide Inv;
    UnderFacts(s, c);
    forall v | Key(s.under[c], v) in s.counted ensures Key(c, v) in s.counted {
      AbsentFacts(s, Key(s.under[c], v));
      AbsentFacts(s, Key(c, v));
    }
  }

  lemma {:induction false} RefinesForkEnd(s: State, c: nat)
    requires Inv(s) && CanForkEnd(s, c)
    ensures Abs(DoForkEnd(s, c)) == RefNext(Abs(s), CopyAll(s.under[c], c, s.slot[c]))
  {
    hide Inv, PagesOf;
    UnderFacts(s, c);
    TwinFacts(s, c);
    ForkTwins(s, c);
    PagesFork(s.frames, s.counted, s.role, s.under[c], c, Live(s.slot[c]));
  }

  lemma {:induction false} RefinesStart(s: State, e: nat, r: Role)
    requires Inv(s) && IsSpare(s, e)
    ensures PagesOf(s.frames, s.counted, s.role[e := r]) == PagesOf(s.frames, s.counted, s.role)
  {
    hide Inv;
    SpareFacts(s, e);
    PagesSame(s.frames, s.counted, s.role, e, r);
  }

  lemma {:induction false} RefinesExecCommit(s: State, e: nat)
    requires Inv(s) && InHand(s, e, Staged)
    ensures Abs(DoExecCommit(s, e)) == RefNext(Abs(s), Switch(e, s.slot[e]))
  {
    hide Inv;
    var d := s.under[e];
    UnderFacts(s, e);
    OwnFacts(s, d);
    LiveFacts(s, d);
    PagesHide(s.frames, s.counted, s.role, d, Dying);
    PagesSame(s.frames, s.counted, s.role[d := Dying], e, Live(s.slot[e]));
  }

  lemma {:induction false} RefinesDirFree(s: State, d: nat)
    requires Inv(s) && CanDirFree(s, d)
    ensures Abs(DoDirFree(s, d)) == Abs(s)
  {
    hide Inv;
    forall k | k in s.counted ensures k.dir != d {
      AbsentFacts(s, k);
    }
    PagesGone(s.frames, s.counted, s.role, d);
  }

  lemma {:induction false} RefinesKernGive(s: State, f: nat)
    requires Inv(s) && CanKernGive(s, f)
    ensures Abs(Give(s, f)) == Abs(s)
  {
    hide FreeOk, CountOk, HeldOk, Sharing, Flight, Staff, KernelOk, CopyOk;
    PagesUnused(s.frames, s.counted, s.role, f, Filled(1));
  }

  ghost predicate Refines(s: State, l: Label, s': State) {
    Inv(s') && Abs(s') == RefNext(Abs(s), EventOf(s, l))
  }

  lemma {:induction false} FaultStartRefines(s: State, l: Label)
    requires Inv(s) && FaultStep(s, l).Went? && (l.FaultEnter? || l.FaultEnable? || l.FaultAlloc?)
    ensures Refines(s, l, FaultStep(s, l).s)
  {
    hide Inv, PagesOf, DoFaultCopy, DoFaultDrop, DoFaultSet;
    match l
    case FaultEnter(p, v) => KeepFaultEnter(s, p, v);
    case FaultEnable(d) => KeepFaultEnable(s, d);
    case FaultAlloc(d) => KeepFaultAlloc(s, d);
  }

  lemma {:induction false} FaultRefines(s: State, l: Label)
    requires Inv(s) && FaultStep(s, l).Went?
    ensures Refines(s, l, FaultStep(s, l).s)
  {
    hide Inv, PagesOf, DoFaultEnter, DoFaultEnable, DoFaultAlloc;
    match l
    case FaultCopy(d) => KeepFaultCopy(s, d); RefinesFaultCopy(s, d);
    case FaultDrop(d) => KeepFaultDrop(s, d); RefinesFaultDrop(s, d);
    case FaultSet(d) => KeepFaultSet(s, d);
    case _ => FaultStartRefines(s, l);
  }

  lemma {:induction false} PageRefines(s: State, l: Label)
    requires Inv(s) && PageStep(s, l).Went?
    ensures Refines(s, l, PageStep(s, l).s)
  {
    hide Inv, PagesOf;
    match l
    case Write(p, v, o, b) =>
      var d := s.procs[p];
      var page := s.frames[s.ptes[Key(d, v)].frame][o := b];
      ProcFacts(s, p);
      KeepPoke(s, d, v, page);
      RefinesPoke(s, d, v, page);
    case Load(d, v, page) => KeepPoke(s, d, v, page); RefinesPoke(s, d, v, page);
    case GrowAlloc(d, v) => KeepGrowAlloc(s, d, v); RefinesGrowAlloc(s, d, v);
    case GrowMap(d, u) => KeepGrowMap(s, d, u); RefinesGrowMap(s, d, u);
    case GrowMiss(d) => KeepGrowMiss(s, d);
    case Unmap(d, v) => KeepUnmap(s, d, v); RefinesUnmap(s, d, v);
    case KernTake => KeepKernTake(s);
    case KernGive(f) => KeepKernGive(s, f); RefinesKernGive(s, f);
    case _ =>
  }

  lemma {:induction false} ForkRefines(s: State, l: Label)
    requires Inv(s) && ForkStep(s, l).Went?
    ensures Refines(s, l, ForkStep(s, l).s)
  {
    hide Inv, PagesOf;
    match l
    case ForkStart(p, c, d) => ProcFacts(s, p); KeepStart(s, s.procs[p], d, c, Child); RefinesStart(s, d, Child);
    case ForkClear(c, v) => KeepForkClear(s, c, v);
    case ForkPage(c, v) => KeepForkPage(s, c, v); RefinesForkPage(s, c, v);
    case ForkEnd(c) => KeepForkEnd(s, c); RefinesForkEnd(s, c);
    case ForkFail(c) => KeepAbandon(s, c); PagesSame(s.frames, s.counted, s.role, c, Dying);
    case _ =>
  }

  lemma {:induction false} SpaceRefines(s: State, l: Label)
    requires Inv(s) && SpaceStep(s, l).Went?
    ensures Refines(s, l, SpaceStep(s, l).s)
  {
    hide Inv, PagesOf;
    match l
    case ExecStart(p, d) => ProcFacts(s, p); KeepStart(s, s.procs[p], d, p, Staged); RefinesStart(s, d, Staged);
    case ExecCommit(e) => KeepExecCommit(s, e); RefinesExecCommit(s, e);
    case ExecFail(e) => KeepAbandon(s, e); PagesHide(s.frames, s.counted, s.role, e, Dying);
    case Exit(p) => KeepExit(s, p); PagesHide(s.frames, s.counted, s.role, s.procs[p], Dying);
    case DirFree(d) => KeepDirFree(s, d); RefinesDirFree(s, d);
    case _ =>
  }

  /** Every step keeps the invariant and does on private pages what its event does on the reference machine. */
  lemma {:induction false} StepRefines(s: State, l: Label)
    requires Inv(s) && Step(s, l).Went?
    ensures Inv(Step(s, l).s)
    ensures Abs(Step(s, l).s) == RefNext(Abs(s), EventOf(s, l))
  {
    hide Inv, FaultStep, PageStep, ForkStep, SpaceStep, Abs, RefNext, EventOf, IsFault, IsPage, IsFork;
    if IsFault(l) {
      FaultRefines(s, l);
    } else if IsPage(l) {
      PageRefines(s, l);
    } else if IsFork(l) {
      ForkRefines(s, l);
    } else {
      SpaceRefines(s, l);
    }
  }

  // ------------------------------------------------------ whole runs

  /** Power-up: free and kernel pages only, and one process with an empty address space. */
  ghost predicate Init(s: State) {
    && |s.frames| == |s.rc| == |s.use| == NFRAMES
    && FreeOk(s.free, s.use)
    && (forall f :: 0 <= f < NFRAMES ==> s.rc[f] == 0 && (s.use[f] == Free || s.use[f] == Kernel))
    && s.ptes == map[] && s.counted == map[] && s.under == map[] && !s.panicked
    && exists p, d :: IsFirst(s, p, d)
  }

  ghost predicate IsFirst(s: State, p: nat, d: nat) {
    && p < NPROC && d < |s.use| && s.use[d] == Kernel
    && s.slot == map[d := p] && s.role == map[d := Live(p)] && s.pc == map[d := Idle] && s.procs == map[p := d]
  }

  lemma {:induction false} InitAccount(free: seq<nat>, rc: seq<int>, use: seq<Use>)
    requires |rc| == |use| == NFRAMES && FreeOk(free, use)
    requires forall f :: 0 <= f < NFRAMES ==> rc[f] == 0 && (use[f] == Free || use[f] == Kernel)
    ensures Account(free, rc, map[], use)
  {
    forall f | 0 <= f < NFRAMES ensures RefsOf(map[], f) == {} {
    }
  }

  lemma {:induction false} InitStaff(s: State)
    requires Init(s)
    ensures Staff(s.slot, s.role, s.pc, s.under, s.procs) && KernelOk(s.slot, s.use) && HeldOk(s.use, s.pc)
    ensures CopyOk(s.frames, s.pc) && TwinOk(s.counted, s.role, s.under)
  {
    hide FreeOk;
  }

  lemma {:induction false} InitInv(s: State)
    requires Init(s)
    ensures Inv(s)
  {
    hide FreeOk, CountOk, UserOk, Staff, KernelOk, HeldOk, CopyOk, TwinOk;
    InitAccount(s.free, s.rc, s.use);
    InitStaff(s);
  }

  ghost function Events(s: State, ls: seq<Label>): seq<Event>
    decreases |ls|
  {
    if ls == [] then []
    else [EventOf(s, ls[0])] +
         match Step(s, ls[0]) case Blocked => [] case Went(s') => Events(s', ls[1..])
  }

  /** Along every run, however its steps interleave, private contents evolve as on the reference machine. */
  lemma {:induction false} RunRefines(s: State, ls: seq<Label>)
    requires Inv(s) && Run(s, ls).Went?
    ensures Inv(Run(s, ls).s)
    ensures Abs(Run(s, ls).s) == RefRun(Abs(s), Events(s, ls))
    decreases |ls|
  {
    hide Inv, Step, Abs, RefNext, EventOf;
    if ls != [] {
      var s' := Step(s, ls[0]).s;
      StepRefines(s, ls[0]);
      RunRefines(s', ls[1..]);
      assert Events(s, ls) == [EventOf(s, ls[0])] + Events(s', ls[1..]);
    }
  }

  ghost predicate Reachable(s: State) {
    exists boot, ls :: Init(boot) && Run(boot, ls) == Went(s)
  }

  lemma {:induction false} ReachableInv(s: State)
    requires Reachable(s)
    ensures Inv(s)
  {
    hide Inv, Init, Run;
    var boot, ls :| Init(boot) && Run(boot, ls) == Went(s);
    InitInv(boot);
    RunRefines(boot, ls);
  }
}
