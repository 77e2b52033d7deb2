/**
 sleep and wakeup of proc.c under their clients: sleep-locks, the gate of
 begin_op and end_op, and wait for an exited child. Each client is a monitor: a
 condition, a spin-lock that guards it, and a channel to sleep on. Processes take
 one step between two lock operations, so that they interleave in every way the
 locks allow. Lock 0 is ptable.lock, which also guards the monitors of wait.
 */
module SleepMachine {
  import opened Params


  datatype Monitor =
    | Mutex(locked: bool, inside: set<nat>)
    | Gate(committing: bool, outstanding: nat, n: nat, inside: set<nat>, committer: nat)
    | Family(zombies: nat)

  datatype Pc =
    | Out
    | In(c: nat)      // holds the monitor's lock, about to test its condition
    | ToSleep(c: nat) // in sleep, holds the lock, about to acquire ptable.lock
    | Both(c: nat)    // holds both
    | Marking(c: nat) // holds ptable.lock, about to become SLEEPING and to enter the scheduler
    | Asleep(c: nat)
    | Woken(c: nat)   // RUNNABLE again, about to acquire the lock
    | Sig(c: nat)     // holds the lock, has changed the monitor, about to call wakeup
    | Scan(c: nat)    // in wakeup1, holds both
    | Done(c: nat)    // holds the lock, about to release it

  datatype Act = Unlock | EndOp | EndCommit | LogBlock | Exit

  datatype Label =
    | Enter(p: nat, c: nat)         // acquiresleep, begin_op, wait
    | Test(p: nat)
    | AcquireTable(p: nat)
    | ReleaseLock(p: nat)
    | Mark(p: nat)
    | Resume(p: nat)
    | Change(p: nat, c: nat, act: Act) // releasesleep, end_op, log_write, exit
    | WakeAcquire(p: nat)
    | WakeScan(p: nat)
    | Leave(p: nat)
    | Kill(p: nat)
    | Install(c: nat)               // commit has emptied the log

  datatype State = State(mons: seq<Monitor>, owner: map<nat, nat>, pc: seq<Pc>)

  // ------------------------------------------------------ monitors

  function LockOf(s: State, c: nat): nat {
    if c < |s.mons| && s.mons[c].Family? then 0 else c + 1
  }

  /** The condition of the waiting loop. */
  predicate Busy(m: Monitor) {
    match m
    case Mutex(locked, _) => locked
    case Gate(committing, outstanding, n, _, _) => committing || n + (outstanding + 1) * MAXOPBLOCKS > LOGSIZE
    case Family(zombies) => zombies == 0
  }

  /** The waiter goes on. */
  function Take(m: Monitor, p: nat): Monitor {
    match m
    case Mutex(_, inside) => Mutex(true, inside + {p})
    case Gate(_, _, _, _, _) => m.(outstanding := m.outstanding + 1, inside := m.inside + {p})
    case Family(zombies) => Family(if zombies > 0 then zombies - 1 else 0)
  }

  /** Who may change the monitor: the holder of the lock or the operation, the committer, a child. */
  predicate MayChange(m: Monitor, p: nat, act: Act) {
    match act
    case Unlock => m.Mutex? && p in m.inside
    case EndOp => m.Gate? && p in m.inside && m.outstanding > 0
    case EndCommit => m.Gate? && m.committing && m.committer == p && m.n == 0
    case LogBlock => m.Gate? && p in m.inside
    case Exit => m.Family?
  }

  function Changed(m: Monitor, p: nat, act: Act): Monitor
    requires MayChange(m, p, act)
  {
    match act
    case Unlock => Mutex(false, m.inside - {p})
    case EndOp =>
      var last := m.outstanding == 1;
      Gate(m.committing || last, m.outstanding - 1, m.n, m.inside - {p}, if last then p else m.committer)
    case EndCommit => m.(committing := false)
    case LogBlock => m.(n := m.n + 1)
    case Exit => m
  }

  /** end_op by the last operation wakes nobody: it commits first. */
  predicate Wakes(m: Monitor, act: Act) {
    act == Unlock || act == EndCommit || act == Exit || (act == EndOp && m.Gate? && m.outstanding > 1)
  }

  // ------------------------------------------------------ steps

  predicate IsProc(s: State, p: nat) {
    p < |s.pc|
  }

  function Go(s: State, p: nat, pc: Pc): State
    requires IsProc(s, p)
  {
    s.(pc := s.pc[p := pc])
  }

  predicate CanEnter(s: State, p: nat, c: nat) {
    && IsProc(s, p) && s.pc[p] == Out && c < |s.mons| && LockOf(s, c) !in s.owner
    && (s.mons[c].Gate? ==> p !in s.mons[c].inside)
  }

  function DoEnter(s: State, p: nat, c: nat): State
    requires CanEnter(s, p, c)
  {
    Go(s, p, In(c)).(owner := s.owner[LockOf(s, c) := p])
  }

  predicate At(s: State, p: nat) {
    IsProc(s, p) && s.pc[p] != Out && s.pc[p].c < |s.mons|
  }

  function DoTest(s: State, p: nat): State
    requires At(s, p)
  {
    var c := s.pc[p].c;
    if Busy(s.mons[c]) then Go(s, p, if LockOf(s, c) == 0 then Marking(c) else ToSleep(c))
    else Go(s, p, Done(c)).(mons := s.mons[c := Take(s.mons[c], p)])
  }

  predicate CanChange(s: State, p: nat, c: nat, act: Act) {
    IsProc(s, p) && s.pc[p] == Out && c < |s.mons| && LockOf(s, c) !in s.owner && MayChange(s.mons[c], p, act)
  }

  /** The lock is taken and the monitor changed; exit calls wakeup1 before it becomes a zombie. */
  function DoChange(s: State, p: nat, c: nat, act: Act): State
    requires CanChange(s, p, c, act)
  {
    var s1 := s.(owner := s.owner[LockOf(s, c) := p], mons := s.mons[c := Changed(s.mons[c], p, act)]);
    Go(s1, p, if act == Exit then Scan(c) else if Wakes(s.mons[c], act) then Sig(c) else Done(c))
  }

  /** wakeup1: every process asleep on the channel becomes RUNNABLE. */
  function Roused(pc: seq<Pc>, c: nat): (r: seq<Pc>)
    ensures |r| == |pc|
  {
    seq(|pc|, i requires 0 <= i < |pc| => if pc[i] == Asleep(c) then Woken(c) else pc[i])
  }

  function DoScan(s: State, p: nat): State
    requires At(s, p)
  {
    var c := s.pc[p].c;
    var s1 := s.(pc := Roused(s.pc, c));
    if s.mons[c].Family? then Go(s1, p, Done(c)).(mons := s.mons[c := Family(s.mons[c].zombies + 1)])
    else Go(s1, p, Done(c)).(owner := s.owner - {0})
  }

  datatype Outcome = Blocked | Went(s: State)

  function Step(s: State, l: Label): Outcome {
    match l
    case Enter(p, c) => if CanEnter(s, p, c) then Went(DoEnter(s, p, c)) else Blocked
    case Test(p) => if At(s, p) && s.pc[p].In? then Went(DoTest(s, p)) else Blocked
    case AcquireTable(p) =>
      if At(s, p) && s.pc[p].ToSleep? && 0 !in s.owner then Went(Go(s, p, Both(s.pc[p].c)).(owner := s.owner[0 := p])) else Blocked
    case ReleaseLock(p) =>
      if At(s, p) && s.pc[p].Both? then Went(Go(s, p, Marking(s.pc[p].c)).(owner := s.owner - {LockOf(s, s.pc[p].c)})) else Blocked
    case Mark(p) =>
      if At(s, p) && s.pc[p].Marking? then Went(Go(s, p, Asleep(s.pc[p].c)).(owner := s.owner - {0})) else Blocked
    case Resume(p) =>
      if At(s, p) && s.pc[p].Woken? && LockOf(s, s.pc[p].c) !in s.owner
      then Went(Go(s, p, In(s.pc[p].c)).(owner := s.owner[LockOf(s, s.pc[p].c) := p])) else Blocked
    case Change(p, c, act) => if CanChange(s, p, c, act) then Went(DoChange(s, p, c, act)) else Blocked
    case WakeAcquire(p) =>
      if At(s, p) && s.pc[p].Sig? && 0 !in s.owner then Went(Go(s, p, Scan(s.pc[p].c)).(owner := s.owner[0 := p])) else Blocked
    case WakeScan(p) => if At(s, p) && s.pc[p].Scan? then Went(DoScan(s, p)) else Blocked
    case Leave(p) =>
      if At(s, p) && s.pc[p].Done? then Went(Go(s, p, Out).(owner := s.owner - {LockOf(s, s.pc[p].c)})) else Blocked
    case Kill(p) =>
      if At(s, p) && s.pc[p].Asleep? && 0 !in s.owner then Went(Go(s, p, Woken(s.pc[p].c))) else Blocked
    case Install(c) =>
      if c < |s.mons| && s.mons[c].Gate? && s.mons[c].committing then Went(s.(mons := s.mons[c := s.mons[c].(n := 0)])) else Blocked
  }

  function Run(s: State, ls: seq<Label>): Outcome
    decreases |ls|
  {
    if ls == [] then Went(s)
    else match Step(s, ls[0]) case Blocked => Blocked case Went(s') => Run(s', ls[1..])
  }

  // ------------------------------------------------------ invariant

  ghost predicate MonitorOk(m: Monitor) {
    match m
    case Mutex(locked, inside) => |inside| == if locked then 1 else 0
    case Gate(committing, outstanding, n, inside, _) =>
      && outstanding == |inside| && (committing ==> outstanding == 0)
      && (!committing && outstanding == 0 ==> n == 0)
    case Family(_) => true
  }

  /** The process has tested the condition and not been woken since. */
  predicate Sleeps(pc: Pc) {
    pc.ToSleep? || pc.Both? || pc.Marking? || pc.Asleep?
  }

  predicate Signals(pc: Pc, c: nat) {
    pc == Sig(c) || pc == Scan(c)
  }

  /** The process holds the lock of its monitor. */
  predicate HoldsOwn(s: State, pc: Pc) {
    pc.In? || pc.ToSleep? || pc.Both? || pc.Sig? || pc.Scan? || pc.Done? || (pc.Marking? && LockOf(s, pc.c) == 0)
  }

  predicate HoldsTable(pc: Pc) {
    pc.Both? || pc.Marking? || pc.Scan?
  }

  /** The locks that a process at pc holds. */
  function Held(s: State, pc: Pc): set<nat> {
    (if HoldsOwn(s, pc) then {LockOf(s, pc.c)} else {}) + if HoldsTable(pc) then {0} else {}
  }

  function HeldAll(s: State): seq<set<nat>> {
    seq(|s.pc|, i requires 0 <= i < |s.pc| => Held(s, s.pc[i]))
  }

  /** A lock has an owner exactly when that process, and no other, holds it. */
  ghost predicate Owns(owner: map<nat, nat>, held: seq<set<nat>>) {
    && (forall k :: k in owner ==> owner[k] < |held| && k in held[owner[k]])
    && (forall p, k :: 0 <= p < |held| && k in held[p] ==> k in owner && owner[k] == p)
  }

  ghost predicate LocksOk(s: State) {
    Owns(s.owner, HeldAll(s))
  }

  /** An operation in progress does not begin another one. */
  predicate Inside(m: Monitor, p: nat) {
    m.Gate? && p in m.inside
  }

  ghost predicate PcAt(s: State, p: nat, pc: Pc) {
    pc != Out ==>
      && pc.c < |s.mons|
      && (pc.ToSleep? || pc.Both? || pc.Sig? ==> LockOf(s, pc.c) != 0)
      && (pc.In? || Sleeps(pc) || pc.Woken? ==> !Inside(s.mons[pc.c], p))
  }

  ghost predicate PcOk(s: State) {
    forall p :: 0 <= p < |s.pc| ==> PcAt(s, p, s.pc[p])
  }

  /** The holder of the monitor's lock is about to wake the sleepers. */
  ghost predicate Signalled(s: State, c: nat) {
    LockOf(s, c) in s.owner && s.owner[LockOf(s, c)] < |s.pc| && Signals(s.pc[s.owner[LockOf(s, c)]], c)
  }

  /** Whoever sleeps still waits for something, or will be woken before the lock is released. */
  ghost predicate NoneLost(s: State) {
    forall p :: 0 <= p < |s.pc| && Sleeps(s.pc[p]) && s.pc[p].c < |s.mons| ==>
      Busy(s.mons[s.pc[p].c]) || Signalled(s, s.pc[p].c)
  }

  ghost predicate Inv(s: State) {
    && (forall c :: 0 <= c < |s.mons| ==> MonitorOk(s.mons[c]))
    && LocksOk(s) && PcOk(s) && NoneLost(s)
  }

  ghost predicate Init(s: State) {
    && s.owner == map[] && (forall p :: 0 <= p < |s.pc| ==> s.pc[p] == Out)
    && forall c :: 0 <= c < |s.mons| ==>
      s.mons[c] == Mutex(false, {}) || s.mons[c] == Gate(false, 0, 0, {}, 0) || s.mons[c] == Family(0)
  }
}
