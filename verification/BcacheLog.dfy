/**
 The buffer cache under the log. log_write pins the buffers it is given until
 commit writes them home, and a pinned buffer cannot be recycled. The product of
 the two machines says how many buffers may be in use at once before bget finds
 none for a new block.
 */
module BcacheLog {
  import opened Params
  import opened Sets
  import opened Bytes
  import opened LogMachine
  import opened LogTheorems
  import opened LogFine
  import C = BcacheMachine
  import BcacheTheorems
  import LogAtomic

  // ------------------------------------------------------ pinned blocks

  ghost function DirtyBufs(bufs: seq<C.Buf>): set<nat> {
    set b: nat | b < |bufs| && bufs[b].dirty
  }

  /** The blocks whose buffers are dirty. */
  ghost function DirtyBlocks(bufs: seq<C.Buf>): set<nat> {
    set b: nat | b < |bufs| && bufs[b].dirty :: bufs[b].blockno
  }

  /** The block of a use's buffer. */
  function BlockOf(c: C.State, u: nat): nat
    requires C.InUse(c, u)
  {
    c.bufs[c.uses[u].b].blockno
  }

  lemma {:induction false} RootDevice(c: C.State)
    requires C.Inv(c)
    ensures forall b :: 0 <= b < |c.bufs| && c.bufs[b].dirty ==> c.bufs[b].dev == C.ROOTDEV
    ensures forall u :: u in c.uses ==> c.uses[u].b < |c.bufs| && c.bufs[c.uses[u].b].dev == C.ROOTDEV
    ensures |c.bufs| == NBUF && C.Unique(c.bufs)
  {
    hide C.CountsOk, C.Permutes, C.Recent, C.DiskOk, C.Unique;
    forall b | 0 <= b < |c.bufs| && c.bufs[b].dirty ensures c.bufs[b].dev == C.ROOTDEV {
      assert C.BufOk(c.bufs[b], c.uses, c.disk, c.store);
    }
  }

  /** What becomes of the dirty blocks. */
  ghost function DirtyAfter(c: C.State, l: C.Label): set<nat> {
    match l
    case Log(u) => if C.InUse(c, u) then DirtyBlocks(c.bufs) + {BlockOf(c, u)} else {}
    case Bwrite(u) => if C.InUse(c, u) then DirtyBlocks(c.bufs) - {BlockOf(c, u)} else {}
    case _ => DirtyBlocks(c.bufs)
  }

  /** log_write makes the buffer of its block dirty, bwrite makes it clean, and nothing else touches the flag. */
  lemma {:induction false} DirtyStep(c: C.State, l: C.Label)
    requires C.Inv(c) && C.Step(c, l).Went?
    ensures DirtyBlocks(C.Step(c, l).s.bufs) == DirtyAfter(c, l)
  {
    hide C.Inv, C.Unique, DirtyBlocks;
    RootDevice(c);
    match l
    case Log(u) => DirtyAdd(c.bufs, c.uses[u].b);
    case Bwrite(u) => DirtyRemove(c.bufs, C.Step(c, l).s.bufs, c.uses[u].b);
    case _ => DirtySame(c.bufs, C.Step(c, l).s.bufs);
  }

  lemma {:induction false} DirtySame(bufs: seq<C.Buf>, bufs': seq<C.Buf>)
    requires |bufs'| == |bufs|
    requires forall b :: 0 <= b < |bufs| ==> bufs'[b].dirty == bufs[b].dirty && (bufs[b].dirty ==> bufs'[b].blockno == bufs[b].blockno)
    ensures DirtyBlocks(bufs') == DirtyBlocks(bufs)
  {
    forall x ensures x in DirtyBlocks(bufs') <==> x in DirtyBlocks(bufs) {
      if x in DirtyBlocks(bufs) {
        var b: nat :| b < |bufs| && bufs[b].dirty && bufs[b].blockno == x;
        assert bufs'[b].blockno == x;
      }
      if x in DirtyBlocks(bufs') {
        var b: nat :| b < |bufs'| && bufs'[b].dirty && bufs'[b].blockno == x;
        assert bufs[b].blockno == x;
      }
    }
  }

  lemma {:induction false} DirtyAdd(bufs: seq<C.Buf>, i: nat)
    requires i < |bufs|
    ensures DirtyBlocks(bufs[i := bufs[i].(dirty := true)]) == DirtyBlocks(bufs) + {bufs[i].blockno}
  {
    var bufs' := bufs[i := bufs[i].(dirty := true)];
    forall x | x in DirtyBlocks(bufs) + {bufs[i].blockno} ensures x in DirtyBlocks(bufs') {
      if x in DirtyBlocks(bufs) {
        var b: nat :| b < |bufs| && bufs[b].dirty && bufs[b].blockno == x;
        assert bufs'[b].dirty && bufs'[b].blockno == x;
      } else {
        assert bufs'[i].dirty && bufs'[i].blockno == x;
      }
    }
  }

  lemma {:induction false} DirtyRemove(bufs: seq<C.Buf>, bufs': seq<C.Buf>, i: nat)
    requires C.Unique(bufs) && i < |bufs| == |bufs'| && bufs' == bufs[i := bufs'[i]] && !bufs'[i].dirty
    requires forall b :: 0 <= b < |bufs| && (bufs[b].dirty || b == i) ==> bufs[b].dev == C.ROOTDEV
    ensures DirtyBlocks(bufs') == DirtyBlocks(bufs) - {bufs[i].blockno}
  {
    forall x ensures x in DirtyBlocks(bufs') <==> x in DirtyBlocks(bufs) && x != bufs[i].blockno {
      if x in DirtyBlocks(bufs) && x != bufs[i].blockno {
        var b: nat :| b < |bufs| && bufs[b].dirty && bufs[b].blockno == x;
        assert bufs'[b].dirty && bufs'[b].blockno == x;
      }
      if x in DirtyBlocks(bufs') {
        var b: nat :| b < |bufs'| && bufs'[b].dirty && bufs'[b].blockno == x;
        assert bufs[b].dirty && bufs[b].blockno == x;
      }
    }
  }

  // ------------------------------------------------------ when bget finds no buffer

  /** The buffers in use. */
  ghost function Held(uses: map<nat, C.Use>): set<nat> {
    set u | u in uses :: uses[u].b
  }

  lemma {:induction false} HeldCount(uses: map<nat, C.Use>)
    ensures |Held(uses)| <= |uses|
    decreases |uses|
  {
    if uses == map[] {
      assert Held(uses) == {};
    } else {
      var u :| u in uses;
      var rest := uses - {u};
      assert uses.Keys == rest.Keys + {u};
      assert |rest.Keys| == |uses.Keys| - 1;
      HeldCount(rest);
      HeldLess(uses, u);
    }
  }

  lemma {:induction false} HeldLess(uses: map<nat, C.Use>, u: nat)
    requires u in uses
    ensures |Held(uses)| <= |Held(uses - {u})| + 1
  {
    var rest := uses - {u};
    assert Held(uses) == Held(rest) + {uses[u].b} by {
      forall x | x in Held(uses) ensures x in Held(rest) + {uses[u].b} {
        var v :| v in uses && uses[v].b == x;
        assert v == u || v in rest;
      }
    }
  }

  /** As many dirty buffers as dirty blocks. */
  lemma {:induction false} DirtyCount(bufs: seq<C.Buf>, n: nat)
    requires n <= |bufs| && C.Unique(bufs) && forall b :: 0 <= b < |bufs| && bufs[b].dirty ==> bufs[b].dev == C.ROOTDEV
    ensures |DirtyBufs(bufs[..n])| == |DirtyBlocks(bufs[..n])|
    decreases n
  {
    hide DirtyBufs, DirtyBlocks, C.Unique;
    if n == 0 {
      NoneDirty(bufs[..0]);
    } else {
      DirtyCount(bufs, n - 1);
      DirtyLast(bufs, n);
      DirtyNew(bufs, n);
    }
  }

  lemma {:induction false} NoneDirty(bufs: seq<C.Buf>)
    requires forall b :: 0 <= b < |bufs| ==> !bufs[b].dirty
    ensures DirtyBufs(bufs) == {} && DirtyBlocks(bufs) == {}
  {
  }

  lemma {:induction false} DirtyNew(bufs: seq<C.Buf>, n: nat)
    requires 0 < n <= |bufs| && C.Unique(bufs) && forall b :: 0 <= b < |bufs| && bufs[b].dirty ==> bufs[b].dev == C.ROOTDEV
    ensures n - 1 !in DirtyBufs(bufs[..n - 1])
    ensures bufs[n - 1].dirty ==> bufs[n - 1].blockno !in DirtyBlocks(bufs[..n - 1])
  {
  }

  lemma {:induction false} DirtyLast(bufs: seq<C.Buf>, n: nat)
    requires 0 < n <= |bufs|
    ensures var xs, ys, last := bufs[..n - 1], bufs[..n], bufs[n - 1];
      && DirtyBufs(ys) == DirtyBufs(xs) + (if last.dirty then {n - 1} else {})
      && DirtyBlocks(ys) == DirtyBlocks(xs) + (if last.dirty then {last.blockno} else {})
  {
    var xs, ys, last := bufs[..n - 1], bufs[..n], bufs[n - 1];
    assert forall b: nat :: b < n - 1 ==> ys[b] == xs[b];
    forall x | x in DirtyBlocks(ys) ensures x in DirtyBlocks(xs) + (if last.dirty then {last.blockno} else {}) {
      var b: nat :| b < |ys| && ys[b].dirty && ys[b].blockno == x;
      assert b == n - 1 || (xs[b].dirty && xs[b].blockno == x);
    }
    forall x | x in DirtyBlocks(xs) ensures x in DirtyBlocks(ys) {
      var b: nat :| b < |xs| && xs[b].dirty && xs[b].blockno == x;
      assert ys[b].dirty && ys[b].blockno == x;
    }
    if last.dirty {
      assert ys[n - 1].dirty && ys[n - 1].blockno == last.blockno;
    }
  }

  /** bget panics only when uses and dirty blocks together are as many as there are buffers. */
  lemma {:induction false} PanicNeedsAll(c: C.State, l: C.Label)
    requires C.Inv(c) && C.Step(c, l).Panic?
    ensures |c.uses| + |DirtyBlocks(c.bufs)| >= NBUF
  {
    hide Interval, C.Inv;
    RootDevice(c);
    HeldCount(c.uses);
    DirtyCount(c.bufs, NBUF);
    assert c.bufs[..NBUF] == c.bufs;
    var all := Interval(0, NBUF);
    forall b | b in all ensures b in Held(c.uses) + DirtyBufs(c.bufs) {
      NoneIdle(c, l, b);
    }
    Subset(all, Held(c.uses) + DirtyBufs(c.bufs));
    assert |Held(c.uses) + DirtyBufs(c.bufs)| <= |Held(c.uses)| + |DirtyBufs(c.bufs)|;
  }

  lemma {:induction false} NoneIdle(c: C.State, l: C.Label, b: nat)
    requires C.Inv(c) && C.Step(c, l).Panic? && b < NBUF == |c.bufs|
    ensures b in Held(c.uses) || b in DirtyBufs(c.bufs)
  {
    hide C.UsesOk, C.BufsOk, C.DiskOk, C.Unique, C.Recent;
    BcacheTheorems.AllListed(c.order, b);
    if !c.bufs[b].dirty {
      assert C.Users(c.uses, b) != {};
      var u :| u in C.Users(c.uses, b);
    }
  }

  // ------------------------------------------------------ the two machines together

  datatype Both = Both(log: Fine, cache: C.State)

  datatype Act =
    | Client(l: C.Label)       // bread and brelse
    | Call(x: FineLabel)       // begin_op, end_op, the test of log_write, reading the header
    | Append(u: nat, op: nat)  // log_write under its lock, of the buffer that use u holds
    | WriteOut(u: nat)         // a bwrite of commit or recovery
    | Reboot

  datatype Result = Waits | NoBuffers | Done(p: Both)

  /** The block that the next write of commit or recovery goes to. */
  function Target(s: State): int {
    match s.phase
    case CopyLog(t) => LOGSTART + 1 + t
    case Install(t) => if t < |s.lh| then s.lh[t] else -1
    case Reinstall(t) => if t < |s.lh| then s.lh[t] else -1
    case _ => LOGSTART
  }

  predicate IsClient(l: C.Label) {
    !l.Log? && !l.Bwrite?
  }

  predicate IsCall(x: FineLabel) {
    x.Check? || x.l.Begin? || x.l.End? || x.l.ReadHead?
  }

  /** The log_write of the buffer that use u holds. */
  function LogWriteOf(c: C.State, u: nat, op: nat): FineLabel
    requires C.InUse(c, u)
  {
    Do(LogWrite(op, BlockOf(c, u), c.bufs[c.uses[u].b].data))
  }

  /** The cache after binit, over the same disk. */
  function Restarted(c: C.State): C.State {
    C.State(seq(NBUF, b requires 0 <= b < NBUF => C.Buf(0, 0, false, false, 0, C.Nobody, if b < |c.bufs| then c.bufs[b].data else ZEROS)),
            seq(NBUF, i requires 0 <= i < NBUF => NBUF - 1 - i), map[], c.disk, c.disk, seq(NBUF, i requires 0 <= i < NBUF => i), NBUF)
  }

  const ZEROS: Block := seq(BSIZE, _ => 0)

  function Perform(p: Both, a: Act): Result {
    match a
    case Client(l) =>
      if !IsClient(l) || p.log.s.panicked then Waits
      else (match C.Step(p.cache, l)
            case Blocked => Waits
            case Panic => NoBuffers
            case Went(c) => Done(p.(cache := c)))
    case Call(x) =>
      if !IsCall(x) then Waits
      else (match FineStep(p.log, x) case Stuck => Waits case Gone(f) => Done(p.(log := f)))
    case Append(u, op) =>
      if !C.CanTouch(p.cache, u) then Waits
      else (match FineStep(p.log, LogWriteOf(p.cache, u, op))
            case Stuck => Waits
            case Gone(f) => Done(Both(f, C.DoLog(p.cache, u))))
    case WriteOut(u) =>
      if !C.CanTouch(p.cache, u) || BlockOf(p.cache, u) != Target(p.log.s) then Waits
      else (match FineStep(p.log, Do(Write))
            case Stuck => Waits
            case Gone(f) => Done(Both(f, C.DoBwrite(p.cache, u))))
    case Reboot =>
      (match FineStep(p.log, Do(Crash)) case Stuck => Waits case Gone(f) => Done(Both(f, Restarted(p.cache))))
  }

  function PerformAll(p: Both, acts: seq<Act>): Result
    decreases |acts|
  {
    if acts == [] then Done(p)
    else match Perform(p, acts[0]) case Done(p') => PerformAll(p', acts[1..]) case r => r
  }

  /** No operation logs more than `limit` blocks, and nobody asks for a buffer while more than `held` are in use. */
  predicate Frugal(p: Both, a: Act, limit: nat, held: nat) {
    && (a.Append? && C.InUse(p.cache, a.u) ==> WithinLimit(p.log, LogWriteOf(p.cache, a.u, a.op), limit))
    && (a.Client? && a.l.Get? ==> |p.cache.uses| <= held)
  }

  predicate AllFrugal(p: Both, acts: seq<Act>, limit: nat, held: nat)
    decreases |acts|
  {
    acts == [] ||
    (Frugal(p, acts[0], limit, held) && (Perform(p, acts[0]).Done? ==> AllFrugal(Perform(p, acts[0]).p, acts[1..], limit, held)))
  }

  // ------------------------------------------------------ the dirty buffers are the logged blocks

  ghost predicate Coupled(p: Both, limit: nat) {
    Steady(p.log, limit) && C.Inv(p.cache) && DirtyBlocks(p.cache.bufs) == p.log.s.cache.Keys
  }

  lemma {:induction false} CallKeepsPins(f: Fine, x: FineLabel)
    requires IsCall(x) && FineStep(f, x).Gone?
    ensures FineStep(f, x).f.s.cache == f.s.cache && WithinLimit(f, x, 0)
  {
  }

  lemma {:induction false} AppendPins(f: Fine, op: nat, b: nat, data: Block)
    requires FineStep(f, Do(LogWrite(op, b, data))).Gone?
    ensures FineStep(f, Do(LogWrite(op, b, data))).f.s.cache.Keys == f.s.cache.Keys + {b}
  {
  }

  /** A write takes its target off the pinned blocks; the blocks of the log are never among them. */
  lemma {:induction false} WriteUnpins(f: Fine)
    requires Inv(f.s) && FineStep(f, Do(Write)).Gone? && Target(f.s) >= 0
    ensures FineStep(f, Do(Write)).f.s.cache.Keys == f.s.cache.Keys - {Target(f.s)}
  {
    hide Recovers, HeadOk, Distinct, LogCopied, Installed;
    assert forall b :: b in f.s.cache.Keys ==> Home(b) by {
      PinsHome(f.s);
    }
  }

  lemma {:induction false} PinsHome(s: State)
    requires Inv(s)
    ensures forall b :: b in s.cache.Keys ==> Home(b)
  {
    hide Recovers, HeadOk, Distinct, LogCopied, Installed;
    forall b | b in s.cache.Keys ensures Home(b) {
      assert b in s.lh;
    }
  }

  lemma {:induction false} RestartedInit(c: C.State)
    requires |c.disk| == FSSIZE
    ensures C.Init(Restarted(c)) && DirtyBlocks(Restarted(c).bufs) == {}
  {
    var c' := Restarted(c);
    assert c'.bufs == seq(NBUF, b requires 0 <= b < NBUF => C.Buf(0, 0, false, false, 0, C.Nobody, c'.bufs[b].data));
    assert c'.order == seq(NBUF, i => NBUF - 1 - i);
    assert c'.stamp == seq(NBUF, i => i);
  }

  lemma {:induction false} KeepCoupled(p: Both, a: Act, limit: nat, held: nat)
    requires Coupled(p, limit) && limit < MAXOPBLOCKS && Perform(p, a).Done? && Frugal(p, a, limit, held)
    ensures Coupled(Perform(p, a).p, limit)
  {
    hide Steady, C.Inv, DirtyBlocks, FineStep, C.Step, C.DoLog, C.DoBwrite, WithinLimit;
    SteadyInv(p.log, limit);
    match a
    case Client(l) =>
      BcacheTheorems.KeepStep(p.cache, l);
      DirtyStep(p.cache, l);
    case Call(x) =>
      CallKeepsPins(p.log, x);
      NoWrite(p.log, x, limit);
      OneStep(p.log, x, limit);
    case Append(u, op) =>
      CacheGoes(p.cache, u);
      BcacheTheorems.KeepStep(p.cache, C.Log(u));
      DirtyStep(p.cache, C.Log(u));
      OneStep(p.log, LogWriteOf(p.cache, u, op), limit);
      AppendPins(p.log, op, BlockOf(p.cache, u), p.cache.bufs[p.cache.uses[u].b].data);
    case WriteOut(u) =>
      CacheGoes(p.cache, u);
      BcacheTheorems.KeepStep(p.cache, C.Bwrite(u));
      DirtyStep(p.cache, C.Bwrite(u));
      NoWrite(p.log, Do(Write), limit);
      OneStep(p.log, Do(Write), limit);
      WriteUnpins(p.log);
    case Reboot =>
      DiskSize(p.cache);
      RestartedInit(p.cache);
      BcacheTheorems.InitInv(Restarted(p.cache));
      NoWrite(p.log, Do(Crash), limit);
      OneStep(p.log, Do(Crash), limit);
      CrashUnpins(p.log);
  }

  lemma {:induction false} NoWrite(f: Fine, x: FineLabel, limit: nat)
    requires x.Check? || !x.l.LogWrite?
    ensures WithinLimit(f, x, limit)
  {
  }

  lemma {:induction false} CacheGoes(c: C.State, u: nat)
    requires C.CanTouch(c, u)
    ensures C.Step(c, C.Log(u)) == C.Went(C.DoLog(c, u)) && C.Step(c, C.Bwrite(u)) == C.Went(C.DoBwrite(c, u))
  {
  }

  lemma {:induction false} DiskSize(c: C.State)
    requires C.Inv(c)
    ensures |c.disk| == FSSIZE
  {
    hide C.CountsOk, C.Permutes, C.Recent, C.BufsOk, C.Unique, C.UsesOk;
  }

  lemma {:induction false} CrashUnpins(f: Fine)
    ensures FineStep(f, Do(Crash)).Gone? && FineStep(f, Do(Crash)).f.s.cache == map[]
  {
  }

  // ------------------------------------------------------ enough buffers

  /** Power-up: a fresh disk and an empty cache. */
  ghost predicate Booted(p: Both) {
    Init(p.log.s) && p.log.passed == [] && C.Init(p.cache)
  }

  lemma {:induction false} BootedCoupled(p: Both, limit: nat)
    requires Booted(p)
    ensures Coupled(p, limit)
  {
    FreshSteady(p.log.s, limit);
    BcacheTheorems.InitInv(p.cache);
    NoneDirty(p.cache.bufs);
  }

  lemma {:induction false} PinsBound(s: State, limit: nat)
    requires Inv(s) && Fits(s, limit, Room(limit)) && limit < MAXOPBLOCKS
    ensures |s.cache.Keys| <= Room(limit)
  {
    hide Recovers, HeadOk, AllHome, LogCopied, Installed, Fits, Room;
    FitsRoom(s, limit);
    LogAtomic.DistinctCount(s.lh);
    assert s.cache.Keys <= Elems(s.lh);
    Subset(s.cache.Keys, Elems(s.lh));
  }

  lemma {:induction false} EnoughNow(p: Both, a: Act, limit: nat, held: nat)
    requires Coupled(p, limit) && limit < MAXOPBLOCKS && Frugal(p, a, limit, held) && held + Room(limit) < NBUF
    ensures !Perform(p, a).NoBuffers?
  {
    hide C.Inv, Inv, Fits, Room, FineStep, DirtyBlocks;
    PinsBound(p.log.s, limit);
    if a.Client? && C.Step(p.cache, a.l).Panic? {
      PanicNeedsAll(p.cache, a.l);
      OnlyGetPanics(p.cache, a.l);
    }
  }

  lemma {:induction false} OnlyGetPanics(c: C.State, l: C.Label)
    requires C.Step(c, l).Panic?
    ensures l.Get?
  {
  }

  lemma {:induction false} CoupledRun(p: Both, acts: seq<Act>, limit: nat, held: nat)
    requires Coupled(p, limit) && limit < MAXOPBLOCKS && AllFrugal(p, acts, limit, held) && PerformAll(p, acts).Done?
    ensures Coupled(PerformAll(p, acts).p, limit)
    decreases |acts|
  {
    hide Coupled, Perform, Frugal;
    if acts != [] {
      KeepCoupled(p, acts[0], limit, held);
      CoupledRun(Perform(p, acts[0]).p, acts[1..], limit, held);
    }
  }

  /** bget always finds a buffer, in every run in which few enough are in use whenever one more is asked for. */
  lemma {:induction false} EnoughBuffers(p: Both, acts: seq<Act>, limit: nat, held: nat)
    requires Coupled(p, limit) && limit < MAXOPBLOCKS && AllFrugal(p, acts, limit, held) && held + Room(limit) < NBUF
    ensures !PerformAll(p, acts).NoBuffers?
    decreases |acts|
  {
    hide Coupled, Perform, Frugal, Room;
    if acts != [] {
      EnoughNow(p, acts[0], limit, held);
      if Perform(p, acts[0]).Done? {
        KeepCoupled(p, acts[0], limit, held);
        EnoughBuffers(Perform(p, acts[0]).p, acts[1..], limit, held);
      }
    }
  }
}
