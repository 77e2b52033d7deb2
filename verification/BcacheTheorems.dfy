/** The buffer cache keeps at most one copy of a block and is, for its clients, a flat array of blocks. */
module BcacheTheorems {
  import opened Params
  import opened Sets
  import opened Bytes
  import opened BcacheMachine

  // ------------------------------------------------------ references

  lemma {:induction false} UsersAdd(uses: map<nat, Use>, u: nat, x: Use, b: nat)
    requires u !in uses
    ensures |Users(uses[u := x], b)| == |Users(uses, b)| + if b == x.b then 1 else 0
  {
    assert Users(uses[u := x], b) == if b == x.b then Users(uses, b) + {u} else Users(uses, b);
  }

  lemma {:induction false} CountsAdd(bufs: seq<Buf>, bufs': seq<Buf>, uses: map<nat, Use>, u: nat, x: Use)
    requires CountsOk(bufs, uses) && u !in uses && x.b < |bufs| == |bufs'|
    requires forall b :: 0 <= b < |bufs| ==> bufs'[b].refcnt == bufs[b].refcnt + if b == x.b then 1 else 0
    ensures CountsOk(bufs', uses[u := x])
  {
    hide Users;
    forall b | 0 <= b < |bufs| ensures bufs'[b].refcnt == |Users(uses[u := x], b)| {
      UsersAdd(uses, u, x, b);
    }
  }

  lemma {:induction false} CountsMove(bufs: seq<Buf>, bufs': seq<Buf>, uses: map<nat, Use>, u: nat, x: Use)
    requires CountsOk(bufs, uses) && u in uses && uses[u].b == x.b && |bufs'| == |bufs|
    requires forall b :: 0 <= b < |bufs| ==> bufs'[b].refcnt == bufs[b].refcnt
    ensures CountsOk(bufs', uses[u := x])
  {
    forall b | 0 <= b < |bufs| ensures bufs'[b].refcnt == |Users(uses[u := x], b)| {
      assert Users(uses[u := x], b) == Users(uses, b);
    }
  }

  lemma {:induction false} CountsRemove(bufs: seq<Buf>, bufs': seq<Buf>, uses: map<nat, Use>, u: nat)
    requires CountsOk(bufs, uses) && u in uses && uses[u].b < |bufs| == |bufs'|
    requires forall b :: 0 <= b < |bufs| ==> bufs'[b].refcnt == bufs[b].refcnt - if b == uses[u].b then 1 else 0
    ensures CountsOk(bufs', uses - {u})
  {
    forall b | 0 <= b < |bufs| ensures bufs'[b].refcnt == |Users(uses - {u}, b)| {
      assert Users(uses - {u}, b) == if b == uses[u].b then Users(uses, b) - {u} else Users(uses, b);
    }
  }

  /** A buffer with no references is used by nobody. */
  lemma {:induction false} NoUsers(bufs: seq<Buf>, uses: map<nat, Use>, b: nat)
    requires CountsOk(bufs, uses) && b < |bufs| && bufs[b].refcnt == 0
    ensures forall u :: u in uses ==> uses[u].b != b
  {
    assert Users(uses, b) == {};
    assert forall u :: u in uses && uses[u].b == b ==> u in Users(uses, b);
  }

  // ------------------------------------------------------ bget

  lemma {:induction false} UsesGet(bufs: seq<Buf>, bufs': seq<Buf>, uses: map<nat, Use>, u: nat, b: nat, blk: nat)
    requires UsesOk(bufs, uses) && u !in uses && b < |bufs| == |bufs'|
    requires forall i :: 0 <= i < |bufs| && i != b ==> bufs'[i] == bufs[i]
    requires bufs'[b].holder == bufs[b].holder && Caches(bufs'[b], blk)
    requires Caches(bufs[b], blk) || forall v :: v in uses ==> uses[v].b != b
    ensures UsesOk(bufs', uses[u := Waits(b, blk)])
  {
  }

  lemma {:induction false} Ordered(s: State)
    requires Inv(s)
    ensures Listed(s)
  {
    hide CountsOk, UsesOk, BufsOk, DiskOk, Unique;
  }

  lemma {:induction false} KeepHit(s: State, u: nat, blk: nat)
    requires Inv(s) && u !in s.uses && blk < FSSIZE && Listed(s) && FindCached(s.bufs, s.order, blk) < |s.order|
    ensures DoGet(s, u, blk).Went? && Inv(DoGet(s, u, blk).s)
  {
    hide CountsOk, UsesOk, Permutes, Recent;
    var b := s.order[FindCached(s.bufs, s.order, blk)];
    var s' := DoGet(s, u, blk).s;
    CountsAdd(s.bufs, s'.bufs, s.uses, u, Waits(b, blk));
    UsesGet(s.bufs, s'.bufs, s.uses, u, b, blk);
  }

  /** Thirty different buffers are all buffers. */
  lemma {:induction false} AllListed(order: seq<nat>, b: nat)
    requires Permutes(order) && b < NBUF
    ensures b in order
  {
    hide Interval;
    var seen := Elems(order);
    Distinct(order);
    var all := Interval(0, NBUF);
    assert seen <= all;
    assert |all - seen| == |all| - |seen|;
    assert all - seen == {};
    assert b in all;
  }

  lemma {:induction false} Distinct(order: seq<nat>)
    requires forall i, j :: 0 <= i < j < |order| ==> order[i] != order[j]
    ensures |Elems(order)| == |order|
    decreases |order|
  {
    if order != [] {
      var rest := order[..|order| - 1];
      Distinct(rest);
      assert Elems(order) == Elems(rest) + {order[|order| - 1]};
    }
  }

  lemma {:induction false} Uncached(s: State, blk: nat)
    requires Inv(s) && Listed(s) && blk < FSSIZE && FindCached(s.bufs, s.order, blk) == |s.order|
    ensures forall b :: 0 <= b < NBUF ==> !Caches(s.bufs[b], blk)
    ensures s.disk[blk] == s.store[blk]
  {
    hide CountsOk, UsesOk, Recent, BufsOk, Unique;
    forall b | 0 <= b < NBUF ensures !Caches(s.bufs[b], blk) {
      AllListed(s.order, b);
    }
  }

  lemma {:induction false} Unheld(bufs: seq<Buf>, uses: map<nat, Use>, b: nat)
    requires CountsOk(bufs, uses) && UsesOk(bufs, uses) && b < |bufs| && bufs[b].refcnt == 0
    ensures bufs[b].holder == Nobody && forall u :: u in uses ==> uses[u].b != b
  {
    NoUsers(bufs, uses, b);
  }

  lemma {:induction false} KeepMiss(s: State, u: nat, blk: nat)
    requires Inv(s) && u !in s.uses && blk < FSSIZE && Listed(s) && FindCached(s.bufs, s.order, blk) == |s.order|
    requires FindIdle(s.bufs, s.order) >= 0
    ensures DoGet(s, u, blk).Went? && Inv(DoGet(s, u, blk).s)
  {
    hide CountsOk, UsesOk, Permutes, Recent;
    Uncached(s, blk);
    var b := s.order[FindIdle(s.bufs, s.order)];
    Unheld(s.bufs, s.uses, b);
    var s' := DoGet(s, u, blk).s;
    CountsAdd(s.bufs, s'.bufs, s.uses, u, Waits(b, blk));
    UsesGet(s.bufs, s'.bufs, s.uses, u, b, blk);
    forall x | 0 <= x < FSSIZE && s'.disk[x] != s'.store[x] ensures exists i :: 0 <= i < |s'.bufs| && Caches(s'.bufs[i], x) {
      var i :| 0 <= i < |s.bufs| && Caches(s.bufs[i], x);
      assert BufOk(s.bufs[i], s.uses, s.disk, s.store);
      assert Caches(s'.bufs[i], x);
    }
  }

  // ------------------------------------------------------ a buffer's holder

  /** The step of a use on its own buffer: lock, fill, change, log, write, unlock. */
  ghost predicate OwnStep(s: State, s': State, u: nat) {
    && u in s.uses && u in s'.uses && s.uses[u].b < |s.bufs| == |s'.bufs|
    && var b := s.uses[u].b;
      && s'.uses == s.uses[u := s'.uses[u]] && s'.uses[u].b == b && s'.uses[u].blk == s.uses[u].blk
      && s'.bufs == s.bufs[b := s'.bufs[b]] && s'.bufs[b].refcnt == s.bufs[b].refcnt
      && s'.bufs[b].dev == s.bufs[b].dev && s'.bufs[b].blockno == s.bufs[b].blockno
      && s'.order == s.order && s'.stamp == s.stamp && s'.clock == s.clock
      && (s.bufs[b].holder == Nobody || s.bufs[b].holder == By(u))
      && s'.bufs[b].holder == if s'.uses[u].Holds? then By(u) else Nobody
  }

  /** The buffer agrees with its block, and no other block changed. */
  ghost predicate Agrees(s: State, s': State, u: nat) {
    && OwnStep(s, s', u) && |s'.disk| == |s.disk| == |s'.store| == |s.store|
    && BufOk(s'.bufs[s.uses[u].b], s'.uses, s'.disk, s'.store)
    && forall x :: 0 <= x < |s.disk| && x != s.bufs[s.uses[u].b].blockno ==> s'.disk[x] == s.disk[x] && s'.store[x] == s.store[x]
  }

  lemma {:induction false} KeepOwnUses(s: State, s': State, u: nat)
    requires UsesOk(s.bufs, s.uses) && OwnStep(s, s', u)
    ensures UsesOk(s'.bufs, s'.uses)
  {
  }

  lemma {:induction false} KeepOwnBufs(s: State, s': State, u: nat)
    requires BufsOk(s) && Unique(s.bufs) && UsesOk(s.bufs, s.uses) && DiskOk(s) && Agrees(s, s', u)
    ensures BufsOk(s') && Unique(s'.bufs) && DiskOk(s')
  {
    var b := s.uses[u].b;
    forall i | 0 <= i < |s.bufs| && i != b ensures BufOk(s'.bufs[i], s'.uses, s'.disk, s'.store) {
      assert BufOk(s.bufs[i], s.uses, s.disk, s.store);
      assert Caches(s.bufs[b], s.uses[u].blk);
    }
    forall x | 0 <= x < FSSIZE && s'.disk[x] != s'.store[x] ensures exists i :: 0 <= i < |s'.bufs| && Caches(s'.bufs[i], x) {
      if x == s.bufs[b].blockno {
        assert Caches(s'.bufs[b], x);
      } else {
        var i :| 0 <= i < |s.bufs| && Caches(s.bufs[i], x);
        assert Caches(s'.bufs[i], x);
      }
    }
  }

  lemma {:induction false} KeepOwn(s: State, s': State, u: nat)
    requires Inv(s) && Agrees(s, s', u)
    ensures Inv(s')
  {
    hide CountsOk, UsesOk, Permutes, Recent, BufsOk, Unique, DiskOk, BufOk;
    KeepOwnUses(s, s', u);
    KeepOwnBufs(s, s', u);
    CountsMove(s.bufs, s'.bufs, s.uses, u, s'.uses[u]);
  }

  /** What the holder of a buffer knows. */
  lemma {:induction false} UseFacts(s: State, u: nat)
    requires Inv(s) && u in s.uses
    ensures s.uses[u].b < |s.bufs| == NBUF && |s.disk| == |s.store| == FSSIZE
    ensures Caches(s.bufs[s.uses[u].b], s.uses[u].blk) && s.uses[u].blk < FSSIZE
    ensures BufOk(s.bufs[s.uses[u].b], s.uses, s.disk, s.store)
    ensures s.uses[u].Holds? ==> s.bufs[s.uses[u].b].holder == By(u)
  {
    hide CountsOk, Permutes, Recent, Unique;
  }

  lemma {:induction false} KeepHolder(s: State, l: Label)
    requires Inv(s) && Step(s, l).Went? && !l.Get? && !l.Drop?
    ensures Inv(Step(s, l).s)
  {
    hide Inv;
    UseFacts(s, l.u);
    KeepOwn(s, Step(s, l).s, l.u);
  }

  // ------------------------------------------------------ brelse

  lemma {:induction false} WithoutAt(order: seq<nat>, k: nat)
    requires k < |order| && forall i, j :: 0 <= i < j < |order| ==> order[i] != order[j]
    ensures Without(order, order[k]) == order[..k] + order[k + 1..]
    decreases |order|
  {
    if k == 0 {
      WithoutNone(order[1..], order[0]);
    } else {
      WithoutAt(order[1..], k - 1);
      assert order[..k] + order[k + 1..] == [order[0]] + (order[1..][..k - 1] + order[1..][k..]);
    }
  }

  lemma {:induction false} WithoutNone(order: seq<nat>, b: nat)
    requires b !in order
    ensures Without(order, b) == order
    decreases |order|
  {
    if order != [] {
      WithoutNone(order[1..], b);
    }
  }

  /** The buffer released last comes first. */
  lemma {:induction false} MoveFront(order: seq<nat>, stamp: seq<nat>, clock: nat, b: nat)
    requires Permutes(order) && Recent(order, stamp, clock) && b < NBUF
    ensures Permutes([b] + Without(order, b)) && Recent([b] + Without(order, b), stamp[b := clock], clock + 1)
  {
    hide Permutes, Recent;
    AllListed(order, b);
    var k :| 0 <= k < |order| && order[k] == b;
    Differ(order);
    WithoutAt(order, k);
    MoveAt(order, stamp, clock, k);
  }

  lemma {:induction false} Differ(order: seq<nat>)
    requires Permutes(order)
    ensures |order| == NBUF && forall i, j :: 0 <= i < j < |order| ==> order[i] != order[j]
  {
  }

  lemma {:induction false} MoveAt(order: seq<nat>, stamp: seq<nat>, clock: nat, k: nat)
    requires Permutes(order) && Recent(order, stamp, clock) && k < NBUF
    ensures var moved := [order[k]] + (order[..k] + order[k + 1..]);
      Permutes(moved) && Recent(moved, stamp[order[k] := clock], clock + 1)
  {
    var moved := [order[k]] + (order[..k] + order[k + 1..]);
    assert |moved| == NBUF;
    forall i | 0 <= i < NBUF ensures moved[i] == order[if i == 0 then k else if i <= k then i - 1 else i] {
    }
  }

  lemma {:induction false} DropUses(bufs: seq<Buf>, bufs': seq<Buf>, uses: map<nat, Use>, u: nat)
    requires UsesOk(bufs, uses) && u in uses && uses[u].Leaves? && |bufs'| == |bufs|
    requires forall i :: 0 <= i < |bufs| ==> bufs'[i] == bufs[i].(refcnt := bufs'[i].refcnt)
    ensures UsesOk(bufs', uses - {u})
    ensures forall i :: 0 <= i < |bufs| ==> Changed(bufs'[i], uses - {u}) == Changed(bufs[i], uses)
  {
  }

  lemma {:induction false} KeepDrop(s: State, u: nat)
    requires Inv(s) && CanDrop(s, u)
    ensures Inv(DoDrop(s, u))
  {
    hide CountsOk, UsesOk, Permutes, Recent;
    UseFacts(s, u);
    var s' := DoDrop(s, u);
    CountsRemove(s.bufs, s'.bufs, s.uses, u);
    DropUses(s.bufs, s'.bufs, s.uses, u);
    MoveFront(s.order, s.stamp, s.clock, s.uses[u].b);
  }

  lemma {:induction false} KeepStep(s: State, l: Label)
    requires Inv(s) && Step(s, l).Went?
    ensures Inv(Step(s, l).s)
  {
    hide Inv;
    match l
    case Get(u, blk) =>
      if FindCached(s.bufs, s.order, blk) < |s.order| {
        KeepHit(s, u, blk);
      } else {
        KeepMiss(s, u, blk);
      }
    case Drop(u) => KeepDrop(s, u);
    case _ => KeepHolder(s, l);
  }

  lemma {:induction false} RunInv(s: State, ls: seq<Label>)
    requires Inv(s) && Run(s, ls).Went?
    ensures Inv(Run(s, ls).s)
    decreases |ls|
  {
    hide Inv, Step;
    if ls != [] {
      KeepStep(s, ls[0]);
      RunInv(Step(s, ls[0]).s, ls[1..]);
    }
  }

  lemma {:induction false} InitInv(s: State)
    requires Init(s)
    ensures Inv(s)
  {
    assert forall b: nat :: Users(s.uses, b) == {};
  }

  // ------------------------------------------------------ the flat array

  /** What a client has: a request, a private copy of a block, or nothing any more. */
  datatype Client = Asked(blk: nat) | Has(blk: nat, data: Block) | Left(blk: nat)

  /** Blocks without a cache: bread copies a block out, log_write and bwrite copy it back. */
  datatype Flat = Flat(store: seq<Block>, clients: map<nat, Client>)

  function FlatStep(f: Flat, l: Label): Flat {
    match l
    case Get(u, blk) => f.(clients := f.clients[u := Asked(blk)])
    case Lock(u) =>
      if u in f.clients && f.clients[u].blk < |f.store|
      then f.(clients := f.clients[u := Has(f.clients[u].blk, f.store[f.clients[u].blk])]) else f
    case Fill(_) => f
    case Change(u, data) => if u in f.clients then f.(clients := f.clients[u := Has(f.clients[u].blk, data)]) else f
    case Log(u) => CopyBack(f, u)
    case Bwrite(u) => CopyBack(f, u)
    case Unlock(u) => if u in f.clients then f.(clients := f.clients[u := Left(f.clients[u].blk)]) else f
    case Drop(u) => f.(clients := f.clients - {u})
  }

  function CopyBack(f: Flat, u: nat): Flat {
    if u in f.clients && f.clients[u].Has? && f.clients[u].blk < |f.store|
    then f.(store := f.store[f.clients[u].blk := f.clients[u].data]) else f
  }

  function FlatRun(f: Flat, ls: seq<Label>): Flat
    decreases |ls|
  {
    if ls == [] then f else FlatRun(FlatStep(f, ls[0]), ls[1..])
  }

  function View(s: State, x: Use): Client {
    match x
    case Waits(_, blk) => Asked(blk)
    case Holds(b, blk, _) =>
      if b < |s.bufs| && s.bufs[b].valid then Has(blk, s.bufs[b].data)
      else if blk < |s.store| then Has(blk, s.store[blk]) else Left(blk)
    case Leaves(_, blk) => Left(blk)
  }

  function Abs(s: State): Flat {
    Flat(s.store, map u | u in s.uses :: View(s, s.uses[u]))
  }

  /** Uses other than u see the same. */
  ghost predicate OthersSame(s: State, s': State, u: nat) {
    && (forall v :: v in s.uses && v != u ==> v in s'.uses && View(s', s'.uses[v]) == View(s, s.uses[v]))
    && (forall v :: v in s'.uses && v != u ==> v in s.uses)
  }

  lemma {:induction false} OthersOwn(s: State, s': State, u: nat)
    requires Inv(s) && Agrees(s, s', u)
    ensures OthersSame(s, s', u)
  {
    hide CountsOk, Permutes, Recent, BufsOk, DiskOk;
    var b := s.uses[u].b;
    forall v | v in s.uses && v != u ensures View(s', s'.uses[v]) == View(s, s.uses[v]) {
      if s.uses[v].Holds? {
        assert s.bufs[s.uses[v].b].holder == By(v);
        assert s.uses[v].b != b;
        assert Caches(s.bufs[s.uses[v].b], s.uses[v].blk) && Caches(s.bufs[b], s.uses[u].blk);
      }
    }
  }

  lemma {:induction false} OthersGet(s: State, u: nat, blk: nat)
    requires Inv(s) && Listed(s) && u !in s.uses && DoGet(s, u, blk).Went?
    ensures OthersSame(s, DoGet(s, u, blk).s, u)
  {
    hide CountsOk, Permutes, Recent, BufsOk, DiskOk, Unique;
    var s' := DoGet(s, u, blk).s;
    var b := s'.uses[u].b;
    if FindCached(s.bufs, s.order, blk) == |s.order| {
      NoUsers(s.bufs, s.uses, b);
    }
  }

  lemma {:induction false} OthersDrop(s: State, u: nat)
    requires Inv(s) && CanDrop(s, u)
    ensures OthersSame(s, DoDrop(s, u), u)
  {
    hide Inv;
  }

  lemma {:induction false} AbsFrom(s: State, s': State, u: nat)
    requires OthersSame(s, s', u)
    ensures Abs(s').clients == if u in s'.uses then Abs(s).clients[u := View(s', s'.uses[u])] else Abs(s).clients - {u}
  {
    hide View;
  }

  lemma {:induction false} HolderRefines(s: State, l: Label)
    requires Inv(s) && Step(s, l).Went? && !l.Get? && !l.Drop?
    ensures Abs(Step(s, l).s) == FlatStep(Abs(s), l)
  {
    hide Inv;
    var s' := Step(s, l).s;
    UseFacts(s, l.u);
    OthersOwn(s, s', l.u);
    AbsFrom(s, s', l.u);
  }

  /** Every step of the cache is a step of the flat array. */
  lemma {:induction false} StepRefines(s: State, l: Label)
    requires Inv(s) && Step(s, l).Went?
    ensures Abs(Step(s, l).s) == FlatStep(Abs(s), l)
  {
    hide Inv;
    match l
    case Get(u, blk) =>
      OthersGet(s, u, blk);
      AbsFrom(s, Step(s, l).s, u);
    case Drop(u) =>
      OthersDrop(s, u);
      AbsFrom(s, Step(s, l).s, u);
    case _ => HolderRefines(s, l);
  }

  lemma {:induction false} RunRefines(s: State, ls: seq<Label>)
    requires Inv(s) && Run(s, ls).Went?
    ensures Abs(Run(s, ls).s) == FlatRun(Abs(s), ls)
    decreases |ls|
  {
    hide Inv, Step, FlatStep, Abs;
    if ls != [] {
      KeepStep(s, ls[0]);
      StepRefines(s, ls[0]);
      RunRefines(Step(s, ls[0]).s, ls[1..]);
    }
  }

  /**
   Main result: in every interleaving, a use that bread has given a buffer sees
   the block it asked for, with the contents that the flat array gives it.
   */
  lemma {:induction false} BreadReadsStore(boot: State, ls: seq<Label>, u: nat)
    requires Init(boot) && Run(boot, ls).Went? && CanTouch(Run(boot, ls).s, u)
    ensures var s, f := Run(boot, ls).s, FlatRun(Flat(boot.disk, map[]), ls);
      u in f.clients && f.clients[u] == Has(s.uses[u].blk, s.bufs[s.uses[u].b].data)
  {
    InitInv(boot);
    RunRefines(boot, ls);
    assert Abs(boot).clients == map[];
  }

  /** At most one buffer caches a block, and a buffer that is referenced keeps its block. */
  lemma {:induction false} OneCopy(boot: State, ls: seq<Label>)
    requires Init(boot) && Run(boot, ls).Went?
    ensures var s := Run(boot, ls).s;
      && |s.bufs| == NBUF
      && (forall i, j, blk: nat :: 0 <= i < j < NBUF && Caches(s.bufs[i], blk) ==> !Caches(s.bufs[j], blk))
      && (forall u :: u in s.uses ==> s.uses[u].b < NBUF && Caches(s.bufs[s.uses[u].b], s.uses[u].blk))
      && (forall b :: 0 <= b < NBUF ==> s.bufs[b].refcnt == |Users(s.uses, b)|)
  {
    InitInv(boot);
    RunInv(boot, ls);
  }

  /** A buffer that is referenced or dirty caches the same block after any step. */
  lemma {:induction false} NeverRecycled(s: State, l: Label, b: nat)
    requires Inv(s) && Step(s, l).Went? && b < NBUF && !Idle(s.bufs[b])
    ensures var s' := Step(s, l).s; b < |s'.bufs| && s'.bufs[b].dev == s.bufs[b].dev && s'.bufs[b].blockno == s.bufs[b].blockno
  {
    hide CountsOk, Permutes, Recent, BufsOk, DiskOk, Unique, UsesOk;
  }

  /** bget recycles the buffer released longest ago among those that are idle, and panics only when there is none. */
  lemma {:induction false} RecyclesOldest(s: State, u: nat, blk: nat)
    requires Inv(s) && u !in s.uses && blk < FSSIZE && forall b :: 0 <= b < NBUF ==> !Caches(s.bufs[b], blk)
    ensures Step(s, Get(u, blk)).Panic? <==> forall b :: 0 <= b < NBUF ==> !Idle(s.bufs[b])
    ensures Step(s, Get(u, blk)).Went? ==>
      var b := Step(s, Get(u, blk)).s.uses[u].b;
      b < NBUF && Idle(s.bufs[b]) && forall x :: 0 <= x < NBUF && Idle(s.bufs[x]) && x != b ==> s.stamp[b] < s.stamp[x]
  {
    hide CountsOk, BufsOk, DiskOk, Unique, UsesOk;
    var j := FindIdle(s.bufs, s.order);
    forall x | 0 <= x < NBUF && Idle(s.bufs[x]) ensures j >= 0 && (x == s.order[j] || s.stamp[s.order[j]] < s.stamp[x]) {
      AllListed(s.order, x);
      var k :| 0 <= k < |s.order| && s.order[k] == x;
    }
  }
}
