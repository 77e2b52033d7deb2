/**
 The redo log of log.c over a disk that writes one block at a time. Every block
 write is a step of its own, and the machine may crash between any two of them,
 also while it recovers. A log_write is one step here; `LogFine` takes it apart
 and says when that makes a difference.

 `committed` lists the transactions whose header write has reached the disk; it
 is auxiliary, as is `base`, the disk the run began with.
 */
module LogMachine {
  import opened Params
  import opened Sets
  import opened Bytes

  const LOGSTART: nat := 2
  const NLOG: nat := 30 // log blocks on the disk, header included

  /** Blocks that file-system operations log: all but those of the log itself. */
  predicate Home(b: nat) {
    b < FSSIZE && !(LOGSTART <= b < LOGSTART + NLOG)
  }

  /** The header block: how many blocks are logged, and where each belongs. */
  datatype Header = Header(n: nat, block: seq<nat>)

  datatype Phase =
    | Ready
    | CopyLog(tail: nat)   // write_log
    | CommitHead           // write_head: the commit point
    | Install(tail: nat)   // install_trans
    | ClearHead            // write_head with n == 0
    | Booting              // after a crash, before read_head
    | Reinstall(tail: nat) // install_trans of recover_from_log
    | Reclear

  type Txn = map<nat, Block>

  datatype State = State(
    disk: seq<Block>,
    hdr: Header,
    lh: seq<nat>,         // blocks of the current transaction, in log order
    cache: Txn,           // the dirty buffers, pinned in the buffer cache
    ops: seq<set<nat>>,   // operations in progress: the distinct blocks each has logged
    phase: Phase,
    panicked: bool,
    committed: seq<Txn>,
    base: seq<Block>)

  datatype Label =
    | Begin
    | LogWrite(op: nat, b: nat, data: Block)
    | End(op: nat)
    | Write    // the next block write of commit or recovery
    | ReadHead // recovery reads the header
    | Crash

  // ------------------------------------------------------ reference

  /** All blocks of a transaction change at once. */
  function Apply(disk: seq<Block>, t: Txn): (r: seq<Block>)
    ensures |r| == |disk|
  {
    seq(|disk|, i requires 0 <= i < |disk| => if i in t then t[i] else disk[i])
  }

  function ApplyAll(disk: seq<Block>, ts: seq<Txn>): (r: seq<Block>)
    ensures |r| == |disk|
    decreases |ts|
  {
    if ts == [] then disk else Apply(ApplyAll(disk, ts[..|ts| - 1]), ts[|ts| - 1])
  }

  // ------------------------------------------------------ steps

  /** write_head overwrites n and the first n entries of the header block. */
  function PutHead(h: Header, lh: seq<nat>): Header {
    Header(|lh|, lh + if |lh| <= |h.block| then h.block[|lh|..] else [])
  }

  /** begin_op admits an operation when its reservation still fits. */
  predicate CanBegin(s: State) {
    s.phase == Ready && |s.lh| + (|s.ops| + 1) * MAXOPBLOCKS <= LOGSIZE
  }

  function DoBegin(s: State): State {
    s.(ops := s.ops + [{}])
  }

  predicate CanLogWrite(s: State, op: nat, b: nat) {
    s.phase == Ready && op < |s.ops| && Home(b)
  }

  /** The size test of log_write: true is the panic. */
  predicate TooBig(lh: seq<nat>) {
    |lh| >= LOGSIZE || |lh| >= NLOG - 1
  }

  /** log_write under its lock: absorption of a block that is already logged, and the pin. */
  function DoAppend(s: State, op: nat, b: nat, data: Block): State
    requires CanLogWrite(s, op, b)
  {
    s.(lh := if b in s.lh then s.lh else s.lh + [b],
       cache := s.cache[b := data],
       ops := s.ops[op := s.ops[op] + {b}])
  }

  /** log_write with nothing between its test and its lock. */
  function DoLogWrite(s: State, op: nat, b: nat, data: Block): State
    requires CanLogWrite(s, op, b)
  {
    if TooBig(s.lh) then s.(panicked := true) else DoAppend(s, op, b, data)
  }

  predicate CanEnd(s: State, op: nat) {
    s.phase == Ready && op < |s.ops|
  }

  /** end_op: the last operation to end commits; commit does nothing when nothing was logged. */
  function DoEnd(s: State, op: nat): State
    requires CanEnd(s, op)
  {
    var s1 := s.(ops := s.ops[..op] + s.ops[op + 1..]);
    if s1.ops == [] && s1.lh != [] then s1.(phase := CopyLog(0)) else s1
  }

  predicate CanWrite(s: State) {
    match s.phase
    case CopyLog(t) => t < |s.lh| && LOGSTART + 1 + t < |s.disk| && s.lh[t] in s.cache
    case CommitHead => s.lh != []
    case Install(t) => t < |s.lh| && LOGSTART + 1 + t < |s.disk| && s.lh[t] < |s.disk|
    case ClearHead => true
    case Reinstall(t) => t < |s.lh| && LOGSTART + 1 + t < |s.disk| && s.lh[t] < |s.disk|
    case Reclear => true
    case _ => false
  }

  function DoWrite(s: State): State
    requires CanWrite(s)
  {
    match s.phase
    case CopyLog(t) =>
      s.(disk := s.disk[LOGSTART + 1 + t := s.cache[s.lh[t]]],
         phase := if t + 1 == |s.lh| then CommitHead else CopyLog(t + 1))
    case CommitHead =>
      s.(hdr := PutHead(s.hdr, s.lh), committed := s.committed + [s.cache],
         phase := Install(0))
    case Install(t) =>
      s.(disk := s.disk[s.lh[t] := s.disk[LOGSTART + 1 + t]], cache := s.cache - {s.lh[t]},
         phase := if t + 1 == |s.lh| then ClearHead else Install(t + 1))
    case ClearHead => s.(hdr := PutHead(s.hdr, []), lh := [], phase := Ready)
    case Reinstall(t) =>
      s.(disk := s.disk[s.lh[t] := s.disk[LOGSTART + 1 + t]],
         phase := if t + 1 == |s.lh| then Reclear else Reinstall(t + 1))
    case Reclear => s.(hdr := PutHead(s.hdr, []), lh := [], phase := Ready)
  }

  predicate CanReadHead(s: State) {
    s.phase == Booting && s.hdr.n <= |s.hdr.block|
  }

  function DoReadHead(s: State): State
    requires CanReadHead(s)
  {
    s.(lh := s.hdr.block[..s.hdr.n], phase := if s.hdr.n == 0 then Reclear else Reinstall(0))
  }

  /** Memory is lost; the disk is not. */
  function DoCrash(s: State): State {
    s.(lh := [], cache := map[], ops := [], phase := Booting, panicked := false)
  }

  datatype Outcome = Blocked | Went(s: State)

  /** One step. After a panic only a reboot is possible. */
  function Step(s: State, l: Label): Outcome {
    if s.panicked && l != Crash then Blocked
    else match l
    case Begin => if CanBegin(s) then Went(DoBegin(s)) else Blocked
    case LogWrite(op, b, data) => if CanLogWrite(s, op, b) then Went(DoLogWrite(s, op, b, data)) else Blocked
    case End(op) => if CanEnd(s, op) then Went(DoEnd(s, op)) else Blocked
    case Write => if CanWrite(s) then Went(DoWrite(s)) else Blocked
    case ReadHead => if CanReadHead(s) then Went(DoReadHead(s)) else Blocked
    case Crash => Went(DoCrash(s))
  }

  function Run(s: State, ls: seq<Label>): Outcome
    decreases |ls|
  {
    if ls == [] then Went(s)
    else match Step(s, ls[0]) case Blocked => Blocked case Went(s') => Run(s', ls[1..])
  }

  // ------------------------------------------------------ invariant

  ghost predicate Distinct(bs: seq<nat>) {
    forall i, j :: 0 <= i < j < |bs| ==> bs[i] != bs[j]
  }

  ghost predicate AllHome(bs: seq<nat>) {
    forall i :: 0 <= i < |bs| ==> Home(bs[i])
  }

  /** The home blocks as a completed recovery would leave them are those of `spec`. */
  ghost predicate Recovers(disk: seq<Block>, bs: seq<nat>, spec: seq<Block>) {
    && |disk| == |spec| == FSSIZE && |bs| < NLOG
    && (forall i :: 0 <= i < |bs| && Home(bs[i]) ==> disk[LOGSTART + 1 + i] == spec[bs[i]])
    && (forall b: nat :: Home(b) && b !in bs ==> disk[b] == spec[b])
  }

  ghost function Spec(s: State): seq<Block> {
    ApplyAll(s.base, s.committed)
  }

  /** The blocks the header block on disk names. */
  function Named(h: Header): seq<nat> {
    if h.n <= |h.block| then h.block[..h.n] else []
  }

  ghost predicate HeadOk(h: Header) {
    h.n < NLOG && |h.block| == LOGSIZE && Distinct(Named(h)) && AllHome(Named(h))
  }

  /** What memory knows in each phase. */
  ghost predicate PhaseOk(s: State) {
    match s.phase
    case Ready => s.hdr.n == 0
    case CopyLog(t) => s.hdr.n == 0 && t < |s.lh| && LogCopied(s, t)
    case CommitHead => s.hdr.n == 0 && LogCopied(s, |s.lh|) && s.lh != []
    case Install(t) => t < |s.lh| && Named(s.hdr) == s.lh && Installed(s, t)
    case ClearHead => Named(s.hdr) == s.lh && Installed(s, |s.lh|)
    case Booting => s.lh == []
    case Reinstall(t) => t < |s.lh| && Named(s.hdr) == s.lh && Installed(s, t)
    case Reclear => Named(s.hdr) == s.lh && Installed(s, |s.lh|)
  }

  ghost predicate LogCopied(s: State, t: nat) {
    |s.disk| == FSSIZE && |s.lh| < NLOG && t <= |s.lh| &&
    forall i :: 0 <= i < t ==> s.lh[i] in s.cache && s.disk[LOGSTART + 1 + i] == s.cache[s.lh[i]]
  }

  ghost predicate Installed(s: State, t: nat) {
    |s.disk| == FSSIZE && |s.lh| < NLOG && t <= |s.lh| &&
    forall i :: 0 <= i < t ==> s.lh[i] < FSSIZE && s.disk[s.lh[i]] == s.disk[LOGSTART + 1 + i]
  }

  /** The blocks whose buffers differ from the disk. */
  ghost function Dirty(s: State): set<nat> {
    match s.phase
    case Ready => Elems(s.lh)
    case CopyLog(_) => Elems(s.lh)
    case CommitHead => Elems(s.lh)
    case Install(t) => if t <= |s.lh| then Elems(s.lh[t..]) else {}
    case _ => {}
  }

  ghost predicate CacheOk(s: State) {
    s.cache.Keys == Dirty(s) && (!s.phase.Ready? ==> s.ops == [] && !s.panicked)
  }

  ghost predicate Inv(s: State) {
    && |s.base| == FSSIZE && HeadOk(s.hdr)
    && Recovers(s.disk, Named(s.hdr), Spec(s))
    && |s.lh| < NLOG && Distinct(s.lh) && AllHome(s.lh)
    && PhaseOk(s) && CacheOk(s)
  }

  /** A disk fresh from mkfs: nothing logged. */
  ghost predicate Init(s: State) {
    && |s.disk| == FSSIZE && s.hdr.n == 0 && |s.hdr.block| == LOGSIZE && s.lh == [] && s.cache == map[] && s.ops == []
    && s.phase == Ready && !s.panicked && s.committed == [] && s.base == s.disk
  }
}
