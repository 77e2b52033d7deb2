/**
 The buffer cache of bio.c as a machine whose steps are its locked sections, so
 that the uses of buffers interleave in every way the locks allow. A use is one
 bread ... brelse; a process that holds two buffers has two uses.

 `store` is what the blocks hold for clients: it changes when a buffer is passed
 to log_write or bwrite. `stamp` tells when a buffer was last released. Both are
 auxiliary.
 */
module BcacheMachine {
  import opened Params
  import opened Bytes

  const ROOTDEV: nat := 1

  datatype Buf = Buf(dev: nat, blockno: nat, valid: bool, dirty: bool, refcnt: nat, holder: Holder, data: Block)
  datatype Holder = Nobody | By(u: nat)

  /** Where a use is: it has asked for block `blk` and been given buffer `b`. */
  datatype Use =
    | Waits(b: nat, blk: nat)                  // between bget's release of the cache lock and acquiresleep
    | Holds(b: nat, blk: nat, changed: bool)   // holds the buffer's lock; changed since it was last written or logged
    | Leaves(b: nat, blk: nat)                 // in brelse, after releasesleep

  datatype State = State(
    bufs: seq<Buf>,
    order: seq<nat>,       // the list from head.next on
    uses: map<nat, Use>,
    disk: seq<Block>,
    store: seq<Block>,
    stamp: seq<nat>,
    clock: nat)

  datatype Label =
    | Get(u: nat, blk: nat)
    | Lock(u: nat)
    | Fill(u: nat)
    | Change(u: nat, data: Block)
    | Log(u: nat)
    | Bwrite(u: nat)
    | Unlock(u: nat)
    | Drop(u: nat)

  datatype Outcome = Blocked | Panic | Went(s: State)

  // ------------------------------------------------------ bget

  predicate Caches(b: Buf, blk: nat) {
    b.dev == ROOTDEV && b.blockno == blk
  }

  predicate Idle(b: Buf) {
    b.refcnt == 0 && !b.dirty
  }

  predicate Within(order: seq<nat>, n: nat) {
    forall i :: 0 <= i < |order| ==> order[i] < n
  }

  /** The first buffer of the list that caches the block, or |order|. */
  function FindCached(bufs: seq<Buf>, order: seq<nat>, blk: nat): (i: nat)
    requires Within(order, |bufs|)
    ensures i <= |order| && (i < |order| ==> Caches(bufs[order[i]], blk))
    ensures forall j :: 0 <= j < i ==> !Caches(bufs[order[j]], blk)
    decreases |order|
  {
    if order == [] then 0
    else if Caches(bufs[order[0]], blk) then 0
    else 1 + FindCached(bufs, order[1..], blk)
  }

  /** The last buffer of the list that is idle, or -1. */
  function FindIdle(bufs: seq<Buf>, order: seq<nat>): (i: int)
    requires Within(order, |bufs|)
    ensures -1 <= i < |order| && (i >= 0 ==> Idle(bufs[order[i]]))
    ensures forall j :: i < j < |order| ==> !Idle(bufs[order[j]])
    decreases |order|
  {
    if order == [] then -1
    else if Idle(bufs[order[|order| - 1]]) then |order| - 1
    else FindIdle(bufs, order[..|order| - 1])
  }

  predicate Listed(s: State) {
    |s.bufs| == NBUF && |s.stamp| == NBUF && Within(s.order, NBUF)
  }

  function DoGet(s: State, u: nat, blk: nat): Outcome
    requires Listed(s)
  {
    var i := FindCached(s.bufs, s.order, blk);
    if i < |s.order| then
      var b := s.order[i];
      Went(s.(bufs := s.bufs[b := s.bufs[b].(refcnt := s.bufs[b].refcnt + 1)], uses := s.uses[u := Waits(b, blk)]))
    else
      var j := FindIdle(s.bufs, s.order);
      if j < 0 then Panic
      else
        var b := s.order[j];
        Went(s.(bufs := s.bufs[b := s.bufs[b].(dev := ROOTDEV, blockno := blk, valid := false, dirty := false, refcnt := 1)],
                uses := s.uses[u := Waits(b, blk)]))
  }

  // ------------------------------------------------------ the other sections

  predicate InUse(s: State, u: nat) {
    u in s.uses && s.uses[u].b < |s.bufs|
  }

  predicate Holding(s: State, u: nat) {
    InUse(s, u) && s.uses[u].Holds? && s.bufs[s.uses[u].b].blockno < |s.disk| == |s.store|
  }

  predicate CanLock(s: State, u: nat) {
    InUse(s, u) && s.uses[u].Waits? && s.bufs[s.uses[u].b].holder == Nobody
  }

  function DoLock(s: State, u: nat): State
    requires CanLock(s, u)
  {
    var b := s.uses[u].b;
    s.(bufs := s.bufs[b := s.bufs[b].(holder := By(u))], uses := s.uses[u := Holds(b, s.uses[u].blk, false)])
  }

  predicate CanFill(s: State, u: nat) {
    Holding(s, u) && !s.bufs[s.uses[u].b].valid && !s.bufs[s.uses[u].b].dirty
  }

  /** bread reads a block that is not valid. */
  function DoFill(s: State, u: nat): State
    requires CanFill(s, u)
  {
    var b := s.uses[u].b;
    s.(bufs := s.bufs[b := s.bufs[b].(data := s.disk[s.bufs[b].blockno], valid := true)])
  }

  /** bread has returned. */
  predicate CanTouch(s: State, u: nat) {
    Holding(s, u) && s.bufs[s.uses[u].b].valid
  }

  function DoChange(s: State, u: nat, data: Block): State
    requires CanTouch(s, u)
  {
    var b := s.uses[u].b;
    s.(bufs := s.bufs[b := s.bufs[b].(data := data)], uses := s.uses[u := s.uses[u].(changed := true)])
  }

  function DoLog(s: State, u: nat): State
    requires CanTouch(s, u)
  {
    var b := s.uses[u].b;
    s.(bufs := s.bufs[b := s.bufs[b].(dirty := true)], uses := s.uses[u := s.uses[u].(changed := false)],
       store := s.store[s.bufs[b].blockno := s.bufs[b].data])
  }

  function DoBwrite(s: State, u: nat): State
    requires CanTouch(s, u)
  {
    var b := s.uses[u].b;
    s.(bufs := s.bufs[b := s.bufs[b].(dirty := false, valid := true)], uses := s.uses[u := s.uses[u].(changed := false)],
       disk := s.disk[s.bufs[b].blockno := s.bufs[b].data], store := s.store[s.bufs[b].blockno := s.bufs[b].data])
  }

  /** brelse, by a client that has passed its changes to log_write or bwrite. */
  predicate CanUnlock(s: State, u: nat) {
    CanTouch(s, u) && !s.uses[u].changed
  }

  function DoUnlock(s: State, u: nat): State
    requires CanUnlock(s, u)
  {
    var b := s.uses[u].b;
    s.(bufs := s.bufs[b := s.bufs[b].(holder := Nobody)], uses := s.uses[u := Leaves(b, s.uses[u].blk)])
  }

  predicate CanDrop(s: State, u: nat) {
    InUse(s, u) && s.uses[u].Leaves? && s.bufs[s.uses[u].b].refcnt > 0 && |s.stamp| == |s.bufs|
  }

  /** The list with b taken out. */
  function Without(order: seq<nat>, b: nat): (r: seq<nat>)
    ensures forall x :: x in r <==> x in order && x != b
    decreases |order|
  {
    if order == [] then []
    else (if order[0] == b then [] else [order[0]]) + Without(order[1..], b)
  }

  function DoDrop(s: State, u: nat): State
    requires CanDrop(s, u)
  {
    var b := s.uses[u].b;
    var s1 := s.(bufs := s.bufs[b := s.bufs[b].(refcnt := s.bufs[b].refcnt - 1)], uses := s.uses - {u});
    if s.bufs[b].refcnt > 1 then s1
    else s1.(order := [b] + Without(s.order, b), stamp := s.stamp[b := s.clock], clock := s.clock + 1)
  }

  function Step(s: State, l: Label): Outcome {
    match l
    case Get(u, blk) => if u !in s.uses && blk < FSSIZE && Listed(s) then DoGet(s, u, blk) else Blocked
    case Lock(u) => if CanLock(s, u) then Went(DoLock(s, u)) else Blocked
    case Fill(u) => if CanFill(s, u) then Went(DoFill(s, u)) else Blocked
    case Change(u, data) => if CanTouch(s, u) then Went(DoChange(s, u, data)) else Blocked
    case Log(u) => if CanTouch(s, u) then Went(DoLog(s, u)) else Blocked
    case Bwrite(u) => if CanTouch(s, u) then Went(DoBwrite(s, u)) else Blocked
    case Unlock(u) => if CanUnlock(s, u) then Went(DoUnlock(s, u)) else Blocked
    case Drop(u) => if CanDrop(s, u) then Went(DoDrop(s, u)) else Blocked
  }

  function Run(s: State, ls: seq<Label>): Outcome
    decreases |ls|
  {
    if ls == [] then Went(s)
    else match Step(s, ls[0]) case Went(s') => Run(s', ls[1..]) case o => o
  }

  // ------------------------------------------------------ invariant

  ghost predicate Permutes(order: seq<nat>) {
    && |order| == NBUF
    && Within(order, NBUF)
    && (forall i, j :: 0 <= i < j < |order| ==> order[i] != order[j])
  }

  /** The list runs from the most to the least recently released. */
  ghost predicate Recent(order: seq<nat>, stamp: seq<nat>, clock: nat) {
    && |stamp| == NBUF && (forall x :: 0 <= x < NBUF ==> stamp[x] < clock)
    && Within(order, NBUF)
    && (forall i, j :: 0 <= i < j < |order| ==> stamp[order[i]] > stamp[order[j]])
  }

  ghost function Users(uses: map<nat, Use>, b: nat): set<nat> {
    set u | u in uses && uses[u].b == b
  }

  ghost predicate CountsOk(bufs: seq<Buf>, uses: map<nat, Use>) {
    forall b :: 0 <= b < |bufs| ==> bufs[b].refcnt == |Users(uses, b)|
  }

  ghost predicate Unique(bufs: seq<Buf>) {
    forall i, j :: 0 <= i < j < |bufs| && bufs[i].dev == ROOTDEV == bufs[j].dev ==> bufs[i].blockno != bufs[j].blockno
  }

  /** A use refers to a buffer of its own block, and holds its lock exactly when it says so. */
  ghost predicate UsesOk(bufs: seq<Buf>, uses: map<nat, Use>) {
    && (forall u :: u in uses ==>
          && uses[u].b < |bufs| && Caches(bufs[uses[u].b], uses[u].blk)
          && (uses[u].Holds? ==> bufs[uses[u].b].holder == By(u)))
    && (forall b :: 0 <= b < |bufs| && bufs[b].holder.By? ==>
          bufs[b].holder.u in uses && uses[bufs[b].holder.u].Holds? && uses[bufs[b].holder.u].b == b)
  }

  predicate Changed(b: Buf, uses: map<nat, Use>) {
    b.holder.By? && b.holder.u in uses && uses[b.holder.u].Holds? && uses[b.holder.u].changed
  }

  ghost predicate BufOk(b: Buf, uses: map<nat, Use>, disk: seq<Block>, store: seq<Block>) {
    && |disk| == |store| == FSSIZE
    && if b.dev == ROOTDEV then
         && b.blockno < FSSIZE && (b.dirty ==> b.valid)
         && (Changed(b, uses) ==> b.valid)
         && (b.valid && !Changed(b, uses) ==> b.data == store[b.blockno])
         && (!b.dirty ==> disk[b.blockno] == store[b.blockno])
       else b.dev == 0 && !b.dirty && b.refcnt == 0
  }

  ghost predicate BufsOk(s: State) {
    forall b :: 0 <= b < |s.bufs| ==> BufOk(s.bufs[b], s.uses, s.disk, s.store)
  }

  /** A block that no buffer caches is the same on the disk. */
  ghost predicate DiskOk(s: State) {
    && |s.disk| == |s.store| == FSSIZE
    && forall blk :: 0 <= blk < FSSIZE && s.disk[blk] != s.store[blk] ==> exists b :: 0 <= b < |s.bufs| && Caches(s.bufs[b], blk)
  }

  ghost predicate Inv(s: State) {
    && |s.bufs| == NBUF && Permutes(s.order) && Recent(s.order, s.stamp, s.clock)
    && CountsOk(s.bufs, s.uses) && Unique(s.bufs) && UsesOk(s.bufs, s.uses) && BufsOk(s) && DiskOk(s)
  }

  /** After binit: no buffer holds a block. */
  ghost predicate Init(s: State) {
    && |s.bufs| == NBUF && |s.disk| == FSSIZE && s.store == s.disk && s.uses == map[]
    && s.bufs == seq(NBUF, b requires 0 <= b < NBUF => Buf(0, 0, false, false, 0, Nobody, s.bufs[b].data))
    && s.order == seq(NBUF, i => NBUF - 1 - i) && s.stamp == seq(NBUF, i => i) && s.clock == NBUF
  }
}
