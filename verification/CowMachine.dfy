/**
 Copy-on-write memory as a state machine whose steps are the stretches of code
 between lock operations: page faults, growth, unmapping, fork and exec of
 different processes interleave freely at those points.

 The entries of a page directory are read and written only by the operation that
 works on it, so such accesses are taken together with the lock section next to
 them; only inside pagefault are they steps of their own.

 Two components are auxiliary. `counted` records the references that
 pg_refcount has counted so far, which differs from the page tables only at the
 one page an unfinished operation is working on. `use` records what each
 physical frame is used for.
 */
module CowMachine {
  import opened Bytes

  const PGSIZE: nat := 4096
  const NFRAMES: nat := 57344 // PHYSTOP >> PGSHIFT
  const NPROC: nat := 64

  type Page = p: seq<Byte> | |p| == PGSIZE witness seq(PGSIZE, _ => 0)

  function Filled(b: Byte): Page {
    seq(PGSIZE, _ => b)
  }

  /** Conversion to the signed 8-bit `char` that pg_refcount is made of. */
  function ToChar(x: int): int {
    (x + 128) % 256 - 128
  }

  /** A page-table slot: page directory (named by its frame) and virtual page. */
  datatype Key = Key(dir: nat, vpn: nat)
  datatype Pte = Pte(frame: nat, w: bool, u: bool)

  /** Where the operation running on a page directory has got to. */
  datatype Pc =
    | Idle
    | FaultAlone(v: nat, f: nat)             // saw count 1, lock released
    | FaultShared(v: nat, f: nat)            // saw count above 1, lock released
    | FaultHeld(v: nat, f: nat, mem: nat)    // new frame in hand
    | FaultCopied(v: nat, f: nat, mem: nat)  // contents copied
    | FaultDropped(v: nat, f: nat, mem: nat) // counts moved, entry not yet rewritten
    | GrowHeld(v: nat, mem: nat)             // zeroed frame in hand
    | Building                               // in fork or exec, which fill another directory

  datatype Role = Live(owner: nat) | Child | Staged | Dying

  datatype Use = Free | Kernel | Held(dir: nat) | User | Lost | Leaked

  datatype State = State(
    free: seq<nat>,
    frames: seq<Page>,
    rc: seq<int>,
    ptes: map<Key, Pte>,
    slot: map<nat, nat>,  // of each page directory: its process slot,
    role: map<nat, Role>, // what it is for,
    pc: map<nat, Pc>,     // where its operation is,
    under: map<nat, nat>, // and while it is under construction, the directory whose process builds it
    procs: map<nat, nat>,
    killed: set<nat>,
    panicked: bool,
    counted: map<Key, nat>,
    use: seq<Use>)

  /** The references to frame f among the counted ones. */
  function RefsOf(counted: map<Key, nat>, f: nat): set<Key> {
    set k | k in counted && counted[k] == f
  }

  /** The frame an operation has taken and not yet given a reference, if any. */
  function PcFrame(pc: Pc): (r: int) {
    if pc.FaultHeld? || pc.FaultCopied? || pc.GrowHeld? then pc.mem else -1
  }

  function SetPc(s: State, d: nat, pc: Pc): State
  {
    s.(pc := s.pc[d := pc])
  }

  function SetRole(s: State, d: nat, role: Role): State
  {
    s.(role := s.role[d := role])
  }

  function AddDir(s: State, d: nat, slot: nat, role: Role): State {
    s.(slot := s.slot[d := slot], role := s.role[d := role], pc := s.pc[d := Idle])
  }

  predicate At(s: State, d: nat, pc: Pc) {
    d in s.pc && d in s.role && d in s.slot && s.pc[d] == pc
  }

  // ---------------------------------------------------------------- labels

  datatype Label =
    | Write(slot: nat, v: nat, o: nat, b: Byte)
    | Load(dir: nat, v: nat, page: Page)
    | FaultEnter(slot: nat, v: nat)
    | FaultEnable(dir: nat)
    | FaultAlloc(dir: nat)
    | FaultCopy(dir: nat)
    | FaultDrop(dir: nat)
    | FaultSet(dir: nat)
    | GrowAlloc(dir: nat, v: nat)
    | GrowMap(dir: nat, u: bool)
    | GrowMiss(dir: nat)
    | Unmap(dir: nat, v: nat)
    | ForkStart(slot: nat, childSlot: nat, dir: nat)
    | ForkClear(dir: nat, v: nat)
    | ForkPage(dir: nat, v: nat)
    | ForkEnd(dir: nat)
    | ForkFail(dir: nat)
    | ExecStart(slot: nat, dir: nat)
    | ExecCommit(dir: nat)
    | ExecFail(dir: nat)
    | Exit(slot: nat)
    | DirFree(dir: nat)
    | KernTake
    | KernGive(f: nat)

  // ------------------------------------------------- allocator (kalloc, kfree)

  /** Pop the free list and give the frame the use u. */
  function Take(s: State, u: Use): State
    requires |s.free| > 0 && s.free[0] < |s.use|
  {
    s.(free := s.free[1..], use := s.use[s.free[0] := u])
  }

  /** Fill with junk and push on the free list. */
  function Give(s: State, f: nat): State
    requires f < |s.use| && f < |s.frames|
  {
    s.(free := [f] + s.free, frames := s.frames[f := Filled(1)], use := s.use[f := Free])
  }

  // ---------------------------------------------------------------- steps

  /** A process that runs user code: nothing of it is in flight. */
  predicate InUser(s: State, p: nat) {
    p in s.procs && At(s, s.procs[p], Idle)
  }

  /** The processor lets a write through: the entry is present, writable and for users. */
  predicate CanWrite(s: State, p: nat, v: nat, o: nat) {
    && InUser(s, p) && Key(s.procs[p], v) in s.ptes && s.ptes[Key(s.procs[p], v)].w && s.ptes[Key(s.procs[p], v)].u
    && o < PGSIZE && s.ptes[Key(s.procs[p], v)].frame < |s.frames|
  }

  function DoWrite(s: State, p: nat, v: nat, o: nat, b: Byte): State
    requires CanWrite(s, p, v, o)
  {
    var f := s.ptes[Key(s.procs[p], v)].frame;
    var page: Page := s.frames[f][o := b];
    s.(frames := s.frames[f := page])
  }

  /** The kernel fills a page of an address space that only it can see (loaduvm, copyout, inituvm). */
  predicate CanLoad(s: State, d: nat, v: nat) {
    && At(s, d, Idle) && (s.role[d].Staged? || s.role[d].Live?)
    && Key(d, v) in s.ptes && s.ptes[Key(d, v)].w && s.ptes[Key(d, v)].frame < |s.frames|
  }

  function DoLoad(s: State, d: nat, v: nat, page: Page): State
    requires CanLoad(s, d, v)
  {
    s.(frames := s.frames[s.ptes[Key(d, v)].frame := page])
  }

  /** The processor faults: the entry is absent, read-only or not for users. */
  predicate CanFaultEnter(s: State, p: nat, v: nat) {
    InUser(s, p) &&
    var k := Key(s.procs[p], v);
    k in s.ptes ==> !(s.ptes[k].w && s.ptes[k].u) && s.ptes[k].frame < |s.rc|
  }

  function DoFaultEnter(s: State, p: nat, v: nat): State
    requires CanFaultEnter(s, p, v)
  {
    var d := s.procs[p];
    var k := Key(d, v);
    if k !in s.ptes || !s.ptes[k].u then s.(killed := s.killed + {p})
    else if s.ptes[k].w then s.(panicked := true)
    else
      var f := s.ptes[k].frame;
      if s.rc[f] == 1 then SetPc(s, d, FaultAlone(v, f))
      else if s.rc[f] > 1 then SetPc(s, d, FaultShared(v, f))
      else s.(panicked := true)
  }

  predicate CanFaultEnable(s: State, d: nat) {
    d in s.pc && s.pc[d].FaultAlone? && Key(d, s.pc[d].v) in s.ptes
  }

  function DoFaultEnable(s: State, d: nat): State
    requires CanFaultEnable(s, d)
  {
    var k := Key(d, s.pc[d].v);
    SetPc(s.(ptes := s.ptes[k := s.ptes[k].(w := true)]), d, Idle)
  }

  predicate CanFaultAlloc(s: State, d: nat) {
    d in s.pc && d in s.slot && s.pc[d].FaultShared? && (|s.free| > 0 ==> s.free[0] < |s.use|)
  }

  /** kalloc; without memory the process is killed. */
  function DoFaultAlloc(s: State, d: nat): State
    requires CanFaultAlloc(s, d)
  {
    var pc := s.pc[d];
    if |s.free| == 0 then SetPc(s, d, Idle).(killed := s.killed + {s.slot[d]})
    else SetPc(Take(s, Held(d)), d, FaultHeld(pc.v, pc.f, s.free[0]))
  }

  predicate CanFaultCopy(s: State, d: nat) {
    && d in s.pc && s.pc[d].FaultHeld?
    && s.pc[d].mem < |s.frames| && s.pc[d].f < |s.frames|
  }

  function DoFaultCopy(s: State, d: nat): State
    requires CanFaultCopy(s, d)
  {
    var pc := s.pc[d];
    SetPc(s.(frames := s.frames[pc.mem := s.frames[pc.f]]), d, FaultCopied(pc.v, pc.f, pc.mem))
  }

  predicate CanFaultDrop(s: State, d: nat) {
    && d in s.pc && s.pc[d].FaultCopied?
    && s.pc[d].mem < |s.rc| && s.pc[d].f < |s.rc| && |s.rc| == |s.use|
  }

  /** Under the lock: one count down, the other up. Count 0 is not noticed: the frame leaks. */
  function DoFaultDrop(s: State, d: nat): State
    requires CanFaultDrop(s, d)
  {
    var pc := s.pc[d];
    var rc1 := s.rc[pc.f := ToChar(s.rc[pc.f] - 1)];
    var rc2 := rc1[pc.mem := ToChar(rc1[pc.mem] + 1)];
    var use1 := if rc1[pc.f] == 0 then s.use[pc.f := Leaked] else s.use;
    SetPc(s.(rc := rc2, counted := s.counted[Key(d, pc.v) := pc.mem], use := use1[pc.mem := User]),
          d, FaultDropped(pc.v, pc.f, pc.mem))
  }

  predicate CanFaultSet(s: State, d: nat) {
    d in s.pc && s.pc[d].FaultDropped?
  }

  function DoFaultSet(s: State, d: nat): State
    requires CanFaultSet(s, d)
  {
    var pc := s.pc[d];
    SetPc(s.(ptes := s.ptes[Key(d, pc.v) := Pte(pc.mem, true, true)]), d, Idle)
  }

  /** allocuvm, first half of an iteration: kalloc and memset. */
  predicate CanGrowAlloc(s: State, d: nat, v: nat) {
    && At(s, d, Idle) && (s.role[d].Live? || s.role[d].Staged?)
    && Key(d, v) !in s.ptes && |s.free| > 0 && s.free[0] < |s.use| && |s.use| == |s.frames|
  }

  function DoGrowAlloc(s: State, d: nat, v: nat): State
    requires CanGrowAlloc(s, d, v)
  {
    var mem := s.free[0];
    SetPc(Take(s, Held(d)).(frames := s.frames[mem := Filled(0)]), d, GrowHeld(v, mem))
  }

  predicate CanGrowMap(s: State, d: nat) {
    d in s.pc && s.pc[d].GrowHeld? && s.pc[d].mem < |s.rc| && |s.rc| == |s.use|
  }

  /** allocuvm, second half: mappages and the count. Clearing PTE_U on a guard page is part of it. */
  function DoGrowMap(s: State, d: nat, u: bool): State
    requires CanGrowMap(s, d)
  {
    var k, mem := Key(d, s.pc[d].v), s.pc[d].mem;
    SetPc(s.(ptes := s.ptes[k := Pte(mem, true, u)],
             rc := s.rc[mem := ToChar(s.rc[mem] + 1)],
             counted := s.counted[k := mem],
             use := s.use[mem := User]), d, Idle)
  }

  /** mappages found no memory for a page table; allocuvm ignores that and counts the frame. */
  function DoGrowMiss(s: State, d: nat): State
    requires CanGrowMap(s, d)
  {
    var mem := s.pc[d].mem;
    SetPc(s.(rc := s.rc[mem := ToChar(s.rc[mem] + 1)], use := s.use[mem := Lost]), d, Idle)
  }

  /** One page of deallocuvm: drop the count, free the frame on its last reference, clear the entry. */
  predicate CanUnmap(s: State, d: nat, v: nat) {
    && At(s, d, Idle) && !s.role[d].Child?
    && Key(d, v) in s.ptes && s.ptes[Key(d, v)].frame < |s.rc|
    && |s.rc| == |s.use| == |s.frames|
  }

  function DoUnmap(s: State, d: nat, v: nat): State
    requires CanUnmap(s, d, v)
  {
    var k := Key(d, v);
    var f := s.ptes[k].frame;
    var s1 := s.(rc := s.rc[f := ToChar(s.rc[f] - 1)], counted := s.counted - {k}, ptes := s.ptes - {k});
    if s1.rc[f] == 0 then Give(s1, f) else s1
  }

  /** A kernel page that is not yet a page directory. */
  predicate IsSpare(s: State, d: nat) {
    d < |s.use| && s.use[d] == Kernel && d !in s.pc
  }

  predicate SlotUnused(s: State, c: nat) {
    c < NPROC && c !in s.procs && forall d :: d in s.slot ==> s.slot[d] != c
  }

  predicate CanForkStart(s: State, p: nat, c: nat, d: nat) {
    InUser(s, p) && IsSpare(s, d) && SlotUnused(s, c)
  }

  function DoForkStart(s: State, p: nat, c: nat, d: nat): State
    requires CanForkStart(s, p, c, d)
  {
    AddDir(SetPc(s, s.procs[p], Building), d, c, Child).(under := s.under[d := s.procs[p]])
  }

  /** Directory c is under construction in the given role, and nothing else of it is in flight. */
  predicate InHand(s: State, c: nat, role: Role) {
    At(s, c, Idle) && s.role[c] == role && c in s.under
  }

  /** copyuvm clears PTE_W in the parent's entry before it asks for memory. */
  predicate CanForkClear(s: State, c: nat, v: nat) {
    InHand(s, c, Child) && Key(s.under[c], v) in s.ptes
  }

  function DoForkClear(s: State, c: nat, v: nat): State
    requires CanForkClear(s, c, v)
  {
    var k := Key(s.under[c], v);
    s.(ptes := s.ptes[k := s.ptes[k].(w := false)])
  }

  /** One page of copyuvm: the parent's entry loses PTE_W, the child gets the same entry, the frame its count. */
  predicate CanForkPage(s: State, c: nat, v: nat) {
    && InHand(s, c, Child)
    && Key(s.under[c], v) in s.ptes && Key(c, v) !in s.ptes && s.ptes[Key(s.under[c], v)].frame < |s.rc|
  }

  function DoForkPage(s: State, c: nat, v: nat): State
    requires CanForkPage(s, c, v)
  {
    var k, k' := Key(s.under[c], v), Key(c, v);
    var pte := s.ptes[k].(w := false);
    s.(ptes := s.ptes[k := pte][k' := pte],
       rc := s.rc[pte.frame := ToChar(s.rc[pte.frame] + 1)],
       counted := s.counted[k' := pte.frame])
  }

  /** The loop over 0..sz is done: every page of the parent has its twin. */
  predicate CanForkEnd(s: State, c: nat) {
    InHand(s, c, Child) && forall k :: k in s.ptes && k.dir == s.under[c] ==> Key(c, k.vpn) in s.ptes
  }

  function DoForkEnd(s: State, c: nat): State
    requires CanForkEnd(s, c)
  {
    var slot := s.slot[c];
    SetRole(SetPc(s, s.under[c], Idle), c, Live(slot))
      .(under := s.under - {c}, procs := s.procs[slot := c], killed := s.killed - {slot})
  }

  /** mappages ran out of memory, or exec failed: the new directory is torn down by freevm. */
  function DoAbandon(s: State, c: nat): State
    requires c in s.under
  {
    SetRole(SetPc(s, s.under[c], Idle), c, Dying).(under := s.under - {c})
  }

  predicate CanExecStart(s: State, p: nat, d: nat) {
    InUser(s, p) && IsSpare(s, d)
  }

  function DoExecStart(s: State, p: nat, d: nat): State
    requires CanExecStart(s, p, d)
  {
    AddDir(SetPc(s, s.procs[p], Building), d, p, Staged).(under := s.under[d := s.procs[p]])
  }

  /** The process switches to the new directory; the old one is left to freevm. */
  function DoExecCommit(s: State, e: nat): State
    requires InHand(s, e, Staged)
  {
    var d, p := s.under[e], s.slot[e];
    SetRole(SetRole(SetPc(s, d, Idle), d, Dying), e, Live(p)).(under := s.under - {e}, procs := s.procs[p := e])
  }

  function DoExit(s: State, p: nat): State
    requires InUser(s, p)
  {
    SetRole(s, s.procs[p], Dying).(procs := s.procs - {p})
  }

  /** freevm has cleared every user entry; the directory page itself goes back to the kernel pool. */
  predicate CanDirFree(s: State, d: nat) {
    At(s, d, Idle) && s.role[d].Dying? && forall k :: k in s.ptes ==> k.dir != d
  }

  function DoDirFree(s: State, d: nat): State
    requires CanDirFree(s, d)
  {
    s.(slot := s.slot - {d}, role := s.role - {d}, pc := s.pc - {d})
  }

  /** kalloc and kfree for kernel stacks, page tables, page directories and pipes. */
  predicate CanKernTake(s: State) {
    |s.free| > 0 && s.free[0] < |s.use|
  }

  predicate CanKernGive(s: State, f: nat) {
    IsSpare(s, f) && f < |s.frames|
  }

  datatype Outcome = Blocked | Went(s: State)

  /** The steps of pagefault. */
  function FaultStep(s: State, l: Label): Outcome {
    match l
    case FaultEnter(p, v) => if CanFaultEnter(s, p, v) then Went(DoFaultEnter(s, p, v)) else Blocked
    case FaultEnable(d) => if CanFaultEnable(s, d) then Went(DoFaultEnable(s, d)) else Blocked
    case FaultAlloc(d) => if CanFaultAlloc(s, d) then Went(DoFaultAlloc(s, d)) else Blocked
    case FaultCopy(d) => if CanFaultCopy(s, d) then Went(DoFaultCopy(s, d)) else Blocked
    case FaultDrop(d) => if CanFaultDrop(s, d) then Went(DoFaultDrop(s, d)) else Blocked
    case FaultSet(d) => if CanFaultSet(s, d) then Went(DoFaultSet(s, d)) else Blocked
    case _ => Blocked
  }

  /** Memory accesses, and growth and shrinking by one page. */
  function PageStep(s: State, l: Label): Outcome {
    match l
    case Write(p, v, o, b) => if CanWrite(s, p, v, o) then Went(DoWrite(s, p, v, o, b)) else Blocked
    case Load(d, v, page) => if CanLoad(s, d, v) then Went(DoLoad(s, d, v, page)) else Blocked
    case GrowAlloc(d, v) => if CanGrowAlloc(s, d, v) then Went(DoGrowAlloc(s, d, v)) else Blocked
    case GrowMap(d, u) => if CanGrowMap(s, d) then Went(DoGrowMap(s, d, u)) else Blocked
    case GrowMiss(d) => if CanGrowMap(s, d) then Went(DoGrowMiss(s, d)) else Blocked
    case Unmap(d, v) => if CanUnmap(s, d, v) then Went(DoUnmap(s, d, v)) else Blocked
    case KernTake => if CanKernTake(s) then Went(Take(s, Kernel)) else Blocked
    case KernGive(f) => if CanKernGive(s, f) then Went(Give(s, f)) else Blocked
    case _ => Blocked
  }

  /** The steps of fork. */
  function ForkStep(s: State, l: Label): Outcome {
    match l
    case ForkStart(p, c, d) => if CanForkStart(s, p, c, d) then Went(DoForkStart(s, p, c, d)) else Blocked
    case ForkClear(c, v) => if CanForkClear(s, c, v) then Went(DoForkClear(s, c, v)) else Blocked
    case ForkPage(c, v) => if CanForkPage(s, c, v) then Went(DoForkPage(s, c, v)) else Blocked
    case ForkEnd(c) => if CanForkEnd(s, c) then Went(DoForkEnd(s, c)) else Blocked
    case ForkFail(c) => if InHand(s, c, Child) then Went(DoAbandon(s, c)) else Blocked
    case _ => Blocked
  }

  /** The steps of exec, exit and wait. */
  function SpaceStep(s: State, l: Label): Outcome {
    match l
    case ExecStart(p, d) => if CanExecStart(s, p, d) then Went(DoExecStart(s, p, d)) else Blocked
    case ExecCommit(e) => if InHand(s, e, Staged) then Went(DoExecCommit(s, e)) else Blocked
    case ExecFail(e) => if InHand(s, e, Staged) then Went(DoAbandon(s, e)) else Blocked
    case Exit(p) => if InUser(s, p) then Went(DoExit(s, p)) else Blocked
    case DirFree(d) => if CanDirFree(s, d) then Went(DoDirFree(s, d)) else Blocked
    case _ => Blocked
  }

  predicate IsFault(l: Label) {
    l.FaultEnter? || l.FaultEnable? || l.FaultAlloc? || l.FaultCopy? || l.FaultDrop? || l.FaultSet?
  }

  predicate IsPage(l: Label) {
    l.Write? || l.Load? || l.GrowAlloc? || l.GrowMap? || l.GrowMiss? || l.Unmap? || l.KernTake? || l.KernGive?
  }

  predicate IsFork(l: Label) {
    l.ForkStart? || l.ForkClear? || l.ForkPage? || l.ForkEnd? || l.ForkFail?
  }

  function Step(s: State, l: Label): Outcome {
    if IsFault(l) then FaultStep(s, l)
    else if IsPage(l) then PageStep(s, l)
    else if IsFork(l) then ForkStep(s, l)
    else SpaceStep(s, l)
  }

  /** The state after the steps of a run, if none of them is blocked. */
  function Run(s: State, ls: seq<Label>): Outcome
    decreases |ls|
  {
    if ls == [] then Went(s)
    else match Step(s, ls[0]) case Blocked => Blocked case Went(s') => Run(s', ls[1..])
  }
}
