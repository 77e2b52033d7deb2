/**
 How the buffers run out: one operation waits while others fill the log to ten
 blocks, one more is admitted, both log all they may, and then as many further
 buffers are in use as are left.
 */
module BcacheFull {
  import opened Params
  import opened Sets
  import opened Bytes
  import opened LogMachine
  import opened LogTheorems
  import opened LogFine
  import opened BcacheLog
  import C = BcacheMachine
  import BcacheTheorems
  import LogAtomic

  // ------------------------------------------------------ one block through the cache

  /** No buffer caches block n or a later one. */
  ghost predicate CachedBelow(c: C.State, n: nat) {
    forall b :: 0 <= b < |c.bufs| && c.bufs[b].dev == C.ROOTDEV ==> c.bufs[b].blockno < n
  }

  /** The only use is u = 0, at the given stage, of a buffer that only it refers to. */
  ghost predicate Alone(c: C.State, use: C.Use) {
    && C.Inv(c) && c.uses == map[0 := use] && use.b < |c.bufs| == NBUF
    && C.Caches(c.bufs[use.b], use.blk) && c.bufs[use.b].refcnt == 1 && use.blk < FSSIZE == |c.disk| == |c.store|
  }

  /** A block that is not cached gets a buffer, as long as one is idle. */
  lemma {:induction false} GetNew(c: C.State, u: nat, blk: nat)
    requires C.Inv(c) && CachedBelow(c, blk) && blk < FSSIZE && u !in c.uses && |c.uses| + |DirtyBlocks(c.bufs)| < NBUF
    ensures var r := C.Step(c, C.Get(u, blk)); r.Went? && C.Inv(r.s)
    ensures var c' := C.Step(c, C.Get(u, blk)).s;
      && u in c'.uses && c'.uses == c.uses[u := C.Waits(c'.uses[u].b, blk)] && c'.uses[u].b < |c'.bufs| == |c.bufs|
      && C.Caches(c'.bufs[c'.uses[u].b], blk) && c'.bufs[c'.uses[u].b].refcnt == 1
      && !c'.bufs[c'.uses[u].b].valid && !c'.bufs[c'.uses[u].b].dirty
      && CachedBelow(c', blk + 1) && DirtyBlocks(c'.bufs) == DirtyBlocks(c.bufs)
  {
    hide C.CountsOk, C.UsesOk, C.BufsOk, C.DiskOk, C.Unique, C.Permutes, C.Recent, DirtyBlocks;
    BcacheTheorems.Ordered(c);
    if C.Step(c, C.Get(u, blk)).Panic? {
      PanicNeedsAll(c, C.Get(u, blk));
    }
    NotCached(c, blk);
    BcacheTheorems.KeepStep(c, C.Get(u, blk));
    DirtyStep(c, C.Get(u, blk));
  }

  lemma {:induction false} NotCached(c: C.State, blk: nat)
    requires C.Listed(c) && CachedBelow(c, blk)
    ensures C.FindCached(c.bufs, c.order, blk) == |c.order|
  {
  }

  lemma {:induction false} Sizes(c: C.State)
    requires C.Inv(c)
    ensures |c.disk| == |c.store| == FSSIZE && |c.bufs| == |c.stamp| == NBUF
  {
    hide C.CountsOk, C.UsesOk, C.BufsOk, C.Unique, C.Permutes;
  }

  lemma {:induction false} LockAlone(c: C.State, b: nat, blk: nat, n: nat)
    requires Alone(c, C.Waits(b, blk)) && !c.bufs[b].valid && !c.bufs[b].dirty && CachedBelow(c, n)
    ensures C.Step(c, C.Lock(0)).Went?
    ensures var c' := C.Step(c, C.Lock(0)).s;
      && Alone(c', C.Holds(b, blk, false)) && !c'.bufs[b].valid && !c'.bufs[b].dirty
      && CachedBelow(c', n) && DirtyBlocks(c'.bufs) == DirtyBlocks(c.bufs)
  {
    hide C.CountsOk, C.BufsOk, C.DiskOk, C.Unique, C.Permutes, C.Recent, DirtyBlocks;
    BcacheTheorems.KeepStep(c, C.Lock(0));
    DirtyStep(c, C.Lock(0));
  }

  lemma {:induction false} FillAlone(c: C.State, b: nat, blk: nat, n: nat)
    requires Alone(c, C.Holds(b, blk, false)) && !c.bufs[b].valid && !c.bufs[b].dirty && CachedBelow(c, n)
    ensures C.Step(c, C.Fill(0)).Went?
    ensures var c' := C.Step(c, C.Fill(0)).s;
      && Alone(c', C.Holds(b, blk, false)) && c'.bufs[b].valid
      && CachedBelow(c', n) && DirtyBlocks(c'.bufs) == DirtyBlocks(c.bufs)
  {
    hide C.Inv, DirtyBlocks;
    BcacheTheorems.KeepStep(c, C.Fill(0));
    DirtyStep(c, C.Fill(0));
  }

  lemma {:induction false} LogAlone(c: C.State, b: nat, blk: nat, n: nat)
    requires Alone(c, C.Holds(b, blk, false)) && c.bufs[b].valid && CachedBelow(c, n)
    ensures C.CanTouch(c, 0) && BlockOf(c, 0) == blk
    ensures var c' := C.DoLog(c, 0);
      && Alone(c', C.Holds(b, blk, false)) && c'.bufs[b].valid
      && CachedBelow(c', n) && DirtyBlocks(c'.bufs) == DirtyBlocks(c.bufs) + {blk}
  {
    hide C.Inv, DirtyBlocks;
    BcacheTheorems.KeepStep(c, C.Log(0));
    DirtyStep(c, C.Log(0));
  }

  lemma {:induction false} UnlockAlone(c: C.State, b: nat, blk: nat, n: nat)
    requires Alone(c, C.Holds(b, blk, false)) && c.bufs[b].valid && CachedBelow(c, n)
    ensures C.Step(c, C.Unlock(0)).Went?
    ensures var c' := C.Step(c, C.Unlock(0)).s;
      Alone(c', C.Leaves(b, blk)) && CachedBelow(c', n) && DirtyBlocks(c'.bufs) == DirtyBlocks(c.bufs)
  {
    hide C.Inv, DirtyBlocks;
    BcacheTheorems.KeepStep(c, C.Unlock(0));
    DirtyStep(c, C.Unlock(0));
  }

  lemma {:induction false} DropAlone(c: C.State, b: nat, blk: nat, n: nat)
    requires Alone(c, C.Leaves(b, blk)) && CachedBelow(c, n)
    ensures C.Step(c, C.Drop(0)).Went?
    ensures var c' := C.Step(c, C.Drop(0)).s;
      C.Inv(c') && c'.uses == map[] && CachedBelow(c', n) && DirtyBlocks(c'.bufs) == DirtyBlocks(c.bufs)
  {
    hide C.Inv, DirtyBlocks, C.Without;
    Sizes(c);
    BcacheTheorems.KeepStep(c, C.Drop(0));
    DirtyStep(c, C.Drop(0));
  }

  // ------------------------------------------------------ one block through the cache and the log

  lemma {:induction false} Then(p: Both, a: Act, p': Both, acts: seq<Act>, limit: nat, held: nat)
    requires Perform(p, a) == Done(p') && Frugal(p, a, limit, held) && AllFrugal(p', acts, limit, held)
    ensures PerformAll(p, [a] + acts) == PerformAll(p', acts) && AllFrugal(p, [a] + acts, limit, held)
  {
    hide Perform, Frugal;
    assert ([a] + acts)[0] == a && ([a] + acts)[1..] == acts;
  }

  lemma {:induction false} Concat(p: Both, xs: seq<Act>, ys: seq<Act>, limit: nat, held: nat)
    requires PerformAll(p, xs).Done? && AllFrugal(p, xs, limit, held) && AllFrugal(PerformAll(p, xs).p, ys, limit, held)
    ensures PerformAll(p, xs + ys) == PerformAll(PerformAll(p, xs).p, ys) && AllFrugal(p, xs + ys, limit, held)
    decreases |xs|
  {
    hide Perform, Frugal;
    if xs == [] {
      assert xs + ys == ys;
    } else {
      assert (xs + ys)[0] == xs[0] && (xs + ys)[1..] == xs[1..] + ys;
      Concat(Perform(p, xs[0]).p, xs[1..], ys, limit, held);
    }
  }

  /** k blocks are logged, from block 100 on, and no buffer is in use. */
  ghost predicate Row(p: Both, limit: nat, k: nat) {
    && Coupled(p, limit) && p.cache.uses == map[] && CachedBelow(p.cache, 100 + k)
    && p.log.s.phase == Ready && NonePassed(p.log) && |p.log.s.lh| == k
    && (forall b :: b in p.log.s.lh ==> b < 100 + k)
    && (forall i, b :: 0 <= i < |p.log.s.ops| && b in p.log.s.ops[i] ==> b < 100 + k)
  }

  /** Operation op has logged one block more. */
  ghost predicate Logged(f: Fine, f': Fine, op: nat, b: nat) {
    op < |f.s.ops| && f'.s.ops == f.s.ops[op := f.s.ops[op] + {b}]
  }

  lemma {:induction false} LogAccepts(p: Both, c: C.State, limit: nat, k: nat, op: nat)
    requires Row(p, limit, k) && k < 28 && op < |p.log.s.ops| && |p.log.s.ops[op]| < limit < MAXOPBLOCKS && C.CanTouch(c, 0) && BlockOf(c, 0) == 100 + k
    ensures FineStep(p.log, Check(op)).Gone?
    ensures var f := FineStep(p.log, Check(op)).f;
      && FineStep(f, LogWriteOf(c, 0, op)).Gone? && WithinLimit(f, LogWriteOf(c, 0, op), limit)
      && var f' := FineStep(f, LogWriteOf(c, 0, op)).f;
        && f'.s.phase == Ready && NonePassed(f') && f'.s.lh == p.log.s.lh + [100 + k] && Logged(p.log, f', op, 100 + k)
  {
    hide Inv, Fits, C.Inv, DirtyBlocks, CachedBelow;
  }

  lemma {:induction false} RowDirty(p: Both, limit: nat)
    requires Coupled(p, limit) && p.log.s.phase == Ready
    ensures |DirtyBlocks(p.cache.bufs)| == |p.log.s.lh| && C.Inv(p.cache) && !p.log.s.panicked
    ensures DirtyBlocks(p.cache.bufs) == Elems(p.log.s.lh)
  {
    hide C.Inv, Fits, Recovers, HeadOk, AllHome, DirtyBlocks;
    LogAtomic.DistinctCount(p.log.s.lh);
  }

  lemma {:induction false} CacheServes(p: Both, limit: nat, k: nat, held: nat) returns (p': Both)
    requires Row(p, limit, k) && k < 28
    ensures PerformAll(p, [Client(C.Get(0, 100 + k)), Client(C.Lock(0)), Client(C.Fill(0))]) == Done(p')
    ensures AllFrugal(p, [Client(C.Get(0, 100 + k)), Client(C.Lock(0)), Client(C.Fill(0))], limit, held)
    ensures p'.log == p.log && CachedBelow(p'.cache, 100 + k + 1)
    ensures 0 in p'.cache.uses && Alone(p'.cache, C.Holds(p'.cache.uses[0].b, 100 + k, false)) && p'.cache.bufs[p'.cache.uses[0].b].valid
  {
    hide Coupled, C.Step, C.Inv, Perform, PerformAll, AllFrugal, DirtyBlocks, CachedBelow, Alone;
    var blk := 100 + k;
    RowDirty(p, limit);
    GetNew(p.cache, 0, blk);
    var c1 := C.Step(p.cache, C.Get(0, blk)).s;
    var b := c1.uses[0].b;
    AloneNow(c1, b, blk);
    LockAlone(c1, b, blk, blk + 1);
    var c2 := C.Step(c1, C.Lock(0)).s;
    FillAlone(c2, b, blk, blk + 1);
    var c3 := C.Step(c2, C.Fill(0)).s;
    p' := p.(cache := c3);
    Serve(p, C.Get(0, blk), c1, limit, held);
    Serve(p.(cache := c1), C.Lock(0), c2, limit, held);
    Serve(p.(cache := c2), C.Fill(0), c3, limit, held);
    Nothing(p', limit, held);
    Then(p.(cache := c2), Client(C.Fill(0)), p', [], limit, held);
    Then(p.(cache := c1), Client(C.Lock(0)), p.(cache := c2), [Client(C.Fill(0))] + [], limit, held);
    Then(p, Client(C.Get(0, blk)), p.(cache := c1), [Client(C.Lock(0))] + ([Client(C.Fill(0))] + []), limit, held);
    assert [Client(C.Get(0, blk))] + ([Client(C.Lock(0))] + ([Client(C.Fill(0))] + []))
      == [Client(C.Get(0, blk)), Client(C.Lock(0)), Client(C.Fill(0))];
    AloneUse(c3, C.Holds(b, blk, false));
  }

  lemma {:induction false} AloneNow(c: C.State, b: nat, blk: nat)
    requires C.Inv(c) && c.uses == map[][0 := C.Waits(b, blk)] && b < |c.bufs| && blk < FSSIZE
    requires C.Caches(c.bufs[b], blk) && c.bufs[b].refcnt == 1
    ensures Alone(c, C.Waits(b, blk))
  {
    hide C.Inv;
    Sizes(c);
  }

  lemma {:induction false} AloneUse(c: C.State, use: C.Use)
    requires Alone(c, use)
    ensures 0 in c.uses && c.uses[0] == use
  {
    hide C.Inv;
  }

  /** A step of a client in the product. */
  lemma {:induction false} Serve(p: Both, l: C.Label, c: C.State, limit: nat, held: nat)
    requires C.Step(p.cache, l) == C.Went(c) && IsClient(l) && !p.log.s.panicked && (l.Get? ==> |p.cache.uses| <= held)
    ensures Perform(p, Client(l)) == Done(p.(cache := c)) && Frugal(p, Client(l), limit, held)
  {
    hide C.Step;
  }

  lemma {:induction false} Nothing(p: Both, limit: nat, held: nat)
    ensures PerformAll(p, []) == Done(p) && AllFrugal(p, [], limit, held)
  {
  }

  lemma {:induction false} LogServes(p: Both, q: Both, limit: nat, k: nat, op: nat, held: nat) returns (p': Both)
    requires Row(p, limit, k) && k < 28 && op < |p.log.s.ops| && |p.log.s.ops[op]| < limit < MAXOPBLOCKS
    requires q.log == p.log && CachedBelow(q.cache, 100 + k + 1) && 0 in q.cache.uses
    requires Alone(q.cache, C.Holds(q.cache.uses[0].b, 100 + k, false)) && q.cache.bufs[q.cache.uses[0].b].valid
    ensures PerformAll(q, [Call(Check(op)), Append(0, op), Client(C.Unlock(0)), Client(C.Drop(0))]) == Done(p')
    ensures AllFrugal(q, [Call(Check(op)), Append(0, op), Client(C.Unlock(0)), Client(C.Drop(0))], limit, held)
    ensures p'.cache.uses == map[] && CachedBelow(p'.cache, 100 + k + 1) && p'.log.s.phase == Ready && NonePassed(p'.log)
    ensures p'.log.s.lh == p.log.s.lh + [100 + k] && Logged(p.log, p'.log, op, 100 + k)
  {
    hide Coupled, C.Step, C.Inv, Perform, PerformAll, AllFrugal, DirtyBlocks, CachedBelow, Alone, FineStep, C.DoLog,
         WithinLimit, NonePassed;
    var blk, b := 100 + k, q.cache.uses[0].b;
    LogAlone(q.cache, b, blk, blk + 1);
    var c1 := C.DoLog(q.cache, 0);
    LogAccepts(p, q.cache, limit, k, op);
    var f1 := FineStep(p.log, Check(op)).f;
    var f2 := FineStep(f1, LogWriteOf(q.cache, 0, op)).f;
    UnlockAlone(c1, b, blk, blk + 1);
    var c2 := C.Step(c1, C.Unlock(0)).s;
    DropAlone(c2, b, blk, blk + 1);
    var c3 := C.Step(c2, C.Drop(0)).s;
    p' := Both(f2, c3);
    Asks(q, Check(op), f1, limit, held);
    Appends(q.(log := f1), op, f2, limit, held);
    StillUp(f1, LogWriteOf(q.cache, 0, op));
    Serve(Both(f2, c1), C.Unlock(0), c2, limit, held);
    Serve(Both(f2, c2), C.Drop(0), c3, limit, held);
    Nothing(p', limit, held);
    Then(Both(f2, c2), Client(C.Drop(0)), p', [], limit, held);
    Then(Both(f2, c1), Client(C.Unlock(0)), Both(f2, c2), [Client(C.Drop(0))] + [], limit, held);
    Then(q.(log := f1), Append(0, op), Both(f2, c1), [Client(C.Unlock(0))] + ([Client(C.Drop(0))] + []), limit, held);
    Then(q, Call(Check(op)), q.(log := f1), [Append(0, op)] + ([Client(C.Unlock(0))] + ([Client(C.Drop(0))] + [])), limit, held);
    assert [Call(Check(op))] + ([Append(0, op)] + ([Client(C.Unlock(0))] + ([Client(C.Drop(0))] + [])))
      == [Call(Check(op)), Append(0, op), Client(C.Unlock(0)), Client(C.Drop(0))];
  }

  /** A call into the log in the product. */
  lemma {:induction false} Asks(p: Both, x: FineLabel, f: Fine, limit: nat, held: nat)
    requires FineStep(p.log, x) == Gone(f) && IsCall(x)
    ensures Perform(p, Call(x)) == Done(p.(log := f)) && Frugal(p, Call(x), limit, held)
  {
    hide FineStep;
  }

  lemma {:induction false} Appends(p: Both, op: nat, f: Fine, limit: nat, held: nat)
    requires C.CanTouch(p.cache, 0) && FineStep(p.log, LogWriteOf(p.cache, 0, op)) == Gone(f)
    requires WithinLimit(p.log, LogWriteOf(p.cache, 0, op), limit)
    ensures Perform(p, Append(0, op)) == Done(Both(f, C.DoLog(p.cache, 0))) && Frugal(p, Append(0, op), limit, held)
  {
    hide FineStep, WithinLimit, C.DoLog;
  }

  lemma {:induction false} StillUp(f: Fine, x: FineLabel)
    requires x.Do? && FineStep(f, x).Gone?
    ensures !FineStep(f, x).f.s.panicked
  {
  }

  /** One block more is logged by operation op. */
  lemma {:induction false} LogOne(p: Both, limit: nat, k: nat, op: nat, held: nat) returns (acts: seq<Act>, p': Both)
    requires Row(p, limit, k) && k < 28 && op < |p.log.s.ops| && |p.log.s.ops[op]| < limit < MAXOPBLOCKS
    ensures PerformAll(p, acts) == Done(p') && AllFrugal(p, acts, limit, held)
    ensures Row(p', limit, k + 1) && Logged(p.log, p'.log, op, 100 + k) && |p'.log.s.ops[op]| == |p.log.s.ops[op]| + 1
  {
    hide Coupled, PerformAll, AllFrugal, CachedBelow, Alone, NonePassed;
    var q := CacheServes(p, limit, k, held);
    p' := LogServes(p, q, limit, k, op, held);
    var xs, ys := [Client(C.Get(0, 100 + k)), Client(C.Lock(0)), Client(C.Fill(0))],
                  [Call(Check(op)), Append(0, op), Client(C.Unlock(0)), Client(C.Drop(0))];
    acts := xs + ys;
    Concat(p, xs, ys, limit, held);
    CoupledRun(p, acts, limit, held);
    assert 100 + k !in p.log.s.ops[op];
  }

  /** And n blocks. */
  lemma {:induction false} LogMany(p: Both, limit: nat, k: nat, op: nat, n: nat, held: nat) returns (acts: seq<Act>, p': Both)
    requires Row(p, limit, k) && k + n <= 28 && op < |p.log.s.ops| && |p.log.s.ops[op]| + n <= limit < MAXOPBLOCKS
    ensures PerformAll(p, acts) == Done(p') && AllFrugal(p, acts, limit, held) && Row(p', limit, k + n)
    ensures |p'.log.s.ops| == |p.log.s.ops| && forall i :: 0 <= i < |p.log.s.ops| && i != op ==> p'.log.s.ops[i] == p.log.s.ops[i]
    decreases n
  {
    hide Row, PerformAll, AllFrugal;
    if n == 0 {
      acts, p' := [], p;
      Nothing(p, limit, held);
    } else {
      var xs, q := LogOne(p, limit, k, op, held);
      var ys;
      ys, p' := LogMany(q, limit, k + 1, op, n - 1, held);
      acts := xs + ys;
      Concat(p, xs, ys, limit, held);
    }
  }

  // ------------------------------------------------------ the log as full as it gets

  lemma {:induction false} BeginOne(p: Both, limit: nat, k: nat, held: nat) returns (p': Both)
    requires Row(p, limit, k) && k + (|p.log.s.ops| + 1) * MAXOPBLOCKS <= LOGSIZE && limit < MAXOPBLOCKS
    ensures PerformAll(p, [Call(Do(Begin))]) == Done(p') && AllFrugal(p, [Call(Do(Begin))], limit, held)
    ensures Row(p', limit, k) && p'.log.s.ops == p.log.s.ops + [{}]
  {
    hide Coupled, PerformAll, AllFrugal, CachedBelow, Perform, Frugal;
    RowDirty(p, limit);
    var f := FineStep(p.log, Do(Begin)).f;
    p' := p.(log := f);
    Asks(p, Do(Begin), f, limit, held);
    Nothing(p', limit, held);
    Then(p, Call(Do(Begin)), p', [], limit, held);
    assert [Call(Do(Begin))] + [] == [Call(Do(Begin))];
    CoupledRun(p, [Call(Do(Begin))], limit, held);
  }

  /** The second operation ends; the first is still open, so nothing is committed. */
  lemma {:induction false} EndSecond(p: Both, limit: nat, k: nat, held: nat) returns (p': Both)
    requires Row(p, limit, k) && |p.log.s.ops| == 2 && limit < MAXOPBLOCKS
    ensures PerformAll(p, [Call(Do(End(1)))]) == Done(p') && AllFrugal(p, [Call(Do(End(1)))], limit, held)
    ensures Row(p', limit, k) && p'.log.s.ops == [p.log.s.ops[0]]
  {
    hide Coupled, PerformAll, AllFrugal, CachedBelow, Perform, Frugal;
    RowDirty(p, limit);
    var f := FineStep(p.log, Do(End(1))).f;
    p' := p.(log := f);
    Asks(p, Do(End(1)), f, limit, held);
    Nothing(p', limit, held);
    Then(p, Call(Do(End(1))), p', [], limit, held);
    assert [Call(Do(End(1)))] + [] == [Call(Do(End(1)))];
    CoupledRun(p, [Call(Do(End(1)))], limit, held);
  }

  /** A second operation comes, logs n blocks and goes. */
  lemma {:induction false} ComeAndGo(p: Both, limit: nat, k: nat, n: nat, held: nat) returns (acts: seq<Act>, p': Both)
    requires Row(p, limit, k) && k <= MAXOPBLOCKS && n <= limit < MAXOPBLOCKS && p.log.s.ops == [{}]
    ensures PerformAll(p, acts) == Done(p') && AllFrugal(p, acts, limit, held)
    ensures Row(p', limit, k + n) && p'.log.s.ops == [{}]
  {
    hide Row, PerformAll, AllFrugal;
    var p1 := BeginOne(p, limit, k, held);
    var xs, p2 := LogMany(p1, limit, k, 1, n, held);
    p' := EndSecond(p2, limit, k + n, held);
    Concat(p1, xs, [Call(Do(End(1)))], limit, held);
    Concat(p, [Call(Do(Begin))], xs + [Call(Do(End(1)))], limit, held);
    acts := [Call(Do(Begin))] + (xs + [Call(Do(End(1)))]);
  }

  /** While the first operation waits, others fill the log to ten blocks. */
  lemma {:induction false} FillToTen(p: Both, limit: nat, k: nat, held: nat) returns (acts: seq<Act>, p': Both)
    requires Row(p, limit, k) && k <= MAXOPBLOCKS && 0 < limit < MAXOPBLOCKS && p.log.s.ops == [{}]
    ensures PerformAll(p, acts) == Done(p') && AllFrugal(p, acts, limit, held)
    ensures Row(p', limit, MAXOPBLOCKS) && p'.log.s.ops == [{}]
    decreases MAXOPBLOCKS - k
  {
    hide Row, PerformAll, AllFrugal;
    if k == MAXOPBLOCKS {
      acts, p' := [], p;
      Nothing(p, limit, held);
    } else {
      var n := if limit < MAXOPBLOCKS - k then limit else MAXOPBLOCKS - k;
      var xs, q := ComeAndGo(p, limit, k, n, held);
      var ys;
      ys, p' := FillToTen(q, limit, k + n, held);
      acts := xs + ys;
      Concat(p, xs, ys, limit, held);
    }
  }

  lemma {:induction false} BootedRow(p: Both, limit: nat)
    requires Booted(p)
    ensures Row(p, limit, 0) && p.log.s.ops == []
  {
    BootedCoupled(p, limit);
  }

  /** From power-up the log can come to hold the most blocks that the limit allows, all of them pinned. */
  lemma {:induction false} FillRoom(p: Both, limit: nat, held: nat) returns (acts: seq<Act>, p': Both)
    requires Booted(p) && limit < MAXOPBLOCKS
    ensures PerformAll(p, acts) == Done(p') && AllFrugal(p, acts, limit, held) && Row(p', limit, Room(limit))
  {
    hide Row, PerformAll, AllFrugal, Booted;
    BootedRow(p, limit);
    if limit == 0 {
      acts, p' := [], p;
      Nothing(p, limit, held);
    } else {
      var p1 := BeginOne(p, limit, 0, held);
      var xs, p2 := FillToTen(p1, limit, 0, held);
      var ys, p3 := ComeAndGo(p2, limit, MAXOPBLOCKS, limit, held);
      var zs;
      zs, p' := LogMany(p3, limit, MAXOPBLOCKS + limit, 0, limit, held);
      Concat(p2, ys, zs, limit, held);
      Concat(p1, xs, ys + zs, limit, held);
      Concat(p, [Call(Do(Begin))], xs + (ys + zs), limit, held);
      acts := [Call(Do(Begin))] + (xs + (ys + zs));
    }
  }

  // ------------------------------------------------------ and all other buffers in use

  /** Besides the k pinned blocks, n others are in use, from block 500 on. */
  ghost predicate InUse(p: Both, limit: nat, k: nat, n: nat) {
    && Coupled(p, limit) && p.log.s.phase == Ready && |p.log.s.lh| == k
    && (forall b :: b in p.log.s.lh ==> b < 500)
    && (forall u: nat :: u in p.cache.uses <==> u < n) && (forall u :: u in p.cache.uses ==> p.cache.uses[u].blk == 500 + u)
    && |p.cache.uses| == n && CachedBelow(p.cache, 500 + n)
  }

  lemma {:induction false} UseOne(p: Both, limit: nat, k: nat, n: nat, held: nat) returns (p': Both)
    requires InUse(p, limit, k, n) && k + n < NBUF && n <= held && limit < MAXOPBLOCKS
    ensures PerformAll(p, [Client(C.Get(n, 500 + n))]) == Done(p') && AllFrugal(p, [Client(C.Get(n, 500 + n))], limit, held)
    ensures InUse(p', limit, k, n + 1)
  {
    hide Coupled, C.Step, C.Inv, Perform, PerformAll, AllFrugal, DirtyBlocks, CachedBelow;
    RowDirty(p, limit);
    GetNew(p.cache, n, 500 + n);
    var c := C.Step(p.cache, C.Get(n, 500 + n)).s;
    p' := p.(cache := c);
    Serve(p, C.Get(n, 500 + n), c, limit, held);
    Nothing(p', limit, held);
    Then(p, Client(C.Get(n, 500 + n)), p', [], limit, held);
    assert [Client(C.Get(n, 500 + n))] + [] == [Client(C.Get(n, 500 + n))];
    CoupledRun(p, [Client(C.Get(n, 500 + n))], limit, held);
    assert c.uses.Keys == p.cache.uses.Keys + {n};
  }

  lemma {:induction false} UseMany(p: Both, limit: nat, k: nat, n: nat, held: nat) returns (acts: seq<Act>, p': Both)
    requires InUse(p, limit, k, n) && k + n <= NBUF && NBUF - k <= held && limit < MAXOPBLOCKS
    ensures PerformAll(p, acts) == Done(p') && AllFrugal(p, acts, limit, held) && InUse(p', limit, k, NBUF - k)
    decreases NBUF - k - n
  {
    hide InUse, PerformAll, AllFrugal;
    if k + n == NBUF {
      acts, p' := [], p;
      Nothing(p, limit, held);
    } else {
      var q := UseOne(p, limit, k, n, held);
      var xs;
      xs, p' := UseMany(q, limit, k, n + 1, held);
      Concat(p, [Client(C.Get(n, 500 + n))], xs, limit, held);
      acts := [Client(C.Get(n, 500 + n))] + xs;
    }
  }

  /** Uses of different buffers. */
  lemma {:induction false} HeldExact(uses: map<nat, C.Use>)
    requires forall u, v :: u in uses && v in uses && uses[u].b == uses[v].b ==> u == v
    ensures |Held(uses)| == |uses|
    decreases |uses|
  {
    if uses == map[] {
      assert Held(uses) == {};
    } else {
      var u :| u in uses;
      var rest := uses - {u};
      assert uses.Keys == rest.Keys + {u};
      assert |rest.Keys| == |uses.Keys| - 1;
      HeldExact(rest);
      HeldMore(uses, u);
    }
  }

  lemma {:induction false} HeldMore(uses: map<nat, C.Use>, u: nat)
    requires u in uses && forall v, w :: v in uses && w in uses && uses[v].b == uses[w].b ==> v == w
    ensures |Held(uses)| == |Held(uses - {u})| + 1
  {
    var rest := uses - {u};
    assert Held(uses) == Held(rest) + {uses[u].b} by {
      forall x | x in Held(uses) ensures x in Held(rest) + {uses[u].b} {
        var v :| v in uses && uses[v].b == x;
        assert v == u || v in rest;
      }
    }
    assert uses[u].b !in Held(rest);
  }

  lemma {:induction false} UseFacts(c: C.State, u: nat)
    requires C.Inv(c) && u in c.uses
    ensures c.uses[u].b < |c.bufs| == NBUF && C.Caches(c.bufs[c.uses[u].b], c.uses[u].blk) && !C.Idle(c.bufs[c.uses[u].b])
  {
    hide C.BufsOk, C.DiskOk, C.Unique, C.Permutes, C.Recent;
    assert u in C.Users(c.uses, c.uses[u].b);
  }

  /** Pinned blocks and blocks in use have different buffers. */
  lemma {:induction false} TwoKinds(p: Both, limit: nat, k: nat, n: nat)
    requires InUse(p, limit, k, n)
    ensures |p.cache.bufs| == NBUF && |Held(p.cache.uses)| == n && |DirtyBufs(p.cache.bufs)| == k
    ensures Held(p.cache.uses) !! DirtyBufs(p.cache.bufs)
    ensures forall b :: b in Held(p.cache.uses) + DirtyBufs(p.cache.bufs) ==> b < NBUF && !C.Idle(p.cache.bufs[b])
  {
    hide Coupled, C.Inv, CachedBelow;
    var c := p.cache;
    RowDirty(p, limit);
    RootDevice(c);
    DirtyCount(c.bufs, NBUF);
    assert c.bufs[..NBUF] == c.bufs;
    forall u | u in c.uses ensures C.Caches(c.bufs[c.uses[u].b], 500 + u) && !C.Idle(c.bufs[c.uses[u].b]) {
      UseFacts(c, u);
    }
    HeldExact(c.uses);
    forall b | b in DirtyBufs(c.bufs) ensures c.bufs[b].blockno < 500 {
      assert c.bufs[b].blockno in DirtyBlocks(c.bufs);
    }
  }

  lemma {:induction false} NoneLeft(p: Both, limit: nat, k: nat, held: nat)
    requires k <= NBUF && InUse(p, limit, k, NBUF - k) && NBUF - k <= held
    ensures var a := Client(C.Get(NBUF - k, 500 + NBUF - k));
      PerformAll(p, [a]) == NoBuffers && AllFrugal(p, [a], limit, held)
  {
    hide Coupled, C.Inv, C.Step, Interval, Held, DirtyBufs;
    var c, n := p.cache, NBUF - k;
    RowDirty(p, limit);
    TwoKinds(p, limit, k, n);
    var busy, all := Held(c.uses) + DirtyBufs(c.bufs), Interval(0, NBUF);
    assert |busy| == NBUF;
    assert busy <= all;
    Subset(busy, all);
    assert forall b :: 0 <= b < NBUF ==> b in all;
    forall b | 0 <= b < NBUF ensures !C.Caches(c.bufs[b], 500 + n) {
    }
    BcacheTheorems.RecyclesOldest(c, n, 500 + n);
  }

  lemma {:induction false} RowInUse(p: Both, limit: nat, k: nat)
    requires Row(p, limit, k) && k <= 28
    ensures InUse(p, limit, k, 0)
  {
    hide Coupled;
  }

  /** bget always finds a buffer. */
  ghost predicate NeverRunsOut(p: Both, limit: nat, held: nat) {
    forall acts :: AllFrugal(p, acts, limit, held) ==> !PerformAll(p, acts).NoBuffers?
  }

  /**
   Main result: with fewer than MAXOPBLOCKS blocks for each operation, bget never
   panics for lack of a buffer exactly when the buffers in use, whenever another
   is asked for, and the most blocks the log can pin are together fewer than the
   buffers.
   */
  lemma {:induction false} RunsOutExactly(p: Both, limit: nat, held: nat)
    requires Booted(p) && limit < MAXOPBLOCKS
    ensures NeverRunsOut(p, limit, held) <==> held + Room(limit) < NBUF
  {
    hide Booted, Row, InUse, PerformAll, AllFrugal, Coupled;
    if held + Room(limit) < NBUF {
      BootedCoupled(p, limit);
      forall acts | AllFrugal(p, acts, limit, held) ensures !PerformAll(p, acts).NoBuffers? {
        EnoughBuffers(p, acts, limit, held);
      }
    } else {
      var k := Room(limit);
      var xs, p1 := FillRoom(p, limit, held);
      RowInUse(p1, limit, k);
      var ys, p2 := UseMany(p1, limit, k, 0, held);
      var zs := [Client(C.Get(NBUF - k, 500 + NBUF - k))];
      NoneLeft(p2, limit, k, held);
      Concat(p1, ys, zs, limit, held);
      Concat(p, xs, ys + zs, limit, held);
      assert PerformAll(p, xs + (ys + zs)).NoBuffers?;
    }
  }
}
