/**
 Operations are atomic. The journal below is computed from the labels of a run
 alone: what each operation has written, which operations are grouped together,
 and how many block writes are left until a group is on the disk. Against it the
 log is shown to keep all writes of an operation together, over every run with
 crashes anywhere.
 */
module LogAtomic {
  import opened Params
  import opened Sets
  import opened Bytes
  import opened Stores
  import opened LogMachine
  import opened LogTheorems

  /** A block written by an operation; operations are numbered as they begin. */
  datatype Entry = Entry(id: nat, put: Store)

  datatype Journal = Journal(
    next: nat,                  // number of the next operation
    open: seq<nat>,             // operations in progress
    group: seq<Entry>,          // what has been written since the last commit or crash
    until: nat,                 // block writes left until the group is on the disk, 0 when it is not being committed
    durable: seq<seq<Entry>>,   // the groups that are on the disk
    history: seq<Entry>,        // everything ever written
    lost: set<nat>)             // operations of which a crash left nothing

  const EMPTY: Journal := Journal(0, [], [], 0, [], [], {})

  function Puts(es: seq<Entry>): seq<Store> {
    seq(|es|, i requires 0 <= i < |es| => es[i].put)
  }

  function Ids(es: seq<Entry>): set<nat> {
    set e | e in es :: e.id
  }

  function Next(j: Journal, l: Label): Journal {
    match l
    case Begin => j.(next := j.next + 1, open := j.open + [j.next])
    case LogWrite(op, b, data) =>
      if op < |j.open| then
        var e := Entry(j.open[op], Store(b, data));
        j.(group := j.group + [e], history := j.history + [e])
      else j
    case End(op) =>
      if op < |j.open| then
        var open := j.open[..op] + j.open[op + 1..];
        j.(open := open, until := if open == [] && j.group != [] then |Contents(Puts(j.group)).Keys| + 1 else 0)
      else j
    case Write =>
      if j.until == 1 then j.(durable := j.durable + [j.group], group := [], until := 0)
      else if j.until > 1 then j.(until := j.until - 1)
      else j
    case ReadHead => j
    case Crash => j.(open := [], group := [], until := 0, lost := j.lost + Elems(j.open) + Ids(j.group))
  }

  function JournalOf(j: Journal, ls: seq<Label>): Journal
    decreases |ls|
  {
    if ls == [] then j else JournalOf(Next(j, ls[0]), ls[1..])
  }

  function Txns(gs: seq<seq<Entry>>): seq<Txn> {
    seq(|gs|, i requires 0 <= i < |gs| => Contents(Puts(gs[i])))
  }

  // ------------------------------------------------------ the log follows the journal

  ghost predicate Follows(s: State, j: Journal) {
    && s.committed == Txns(j.durable)
    && |s.ops| == |j.open|
    && (s.panicked ==> j.until == 0)
    && (!s.panicked ==>
          && j.until == (match s.phase case CopyLog(t) => |s.lh| - t + 1 case CommitHead => 1 case _ => 0)
          && (if s.phase.Ready? || s.phase.CopyLog? || s.phase.CommitHead? then s.cache == Contents(Puts(j.group))
              else j.group == []))
  }

  lemma {:induction false} DistinctCount(bs: seq<nat>)
    requires Distinct(bs)
    ensures |Elems(bs)| == |bs|
    decreases |bs|
  {
    if bs != [] {
      var n := |bs| - 1;
      DistinctCount(bs[..n]);
      assert Elems(bs) == Elems(bs[..n]) + {bs[n]};
    }
  }

  lemma {:induction false} FollowsEnd(s: State, j: Journal, op: nat)
    requires Inv(s) && Follows(s, j) && CanEnd(s, op) && !s.panicked
    ensures Follows(DoEnd(s, op), Next(j, End(op)))
  {
    hide Recovers, HeadOk, AllHome, Contents;
    ContentsEmpty(Puts(j.group));
    DistinctCount(s.lh);
    assert Elems(s.lh) == {} <==> s.lh == [] by {
      if s.lh != [] {
        assert s.lh[0] in Elems(s.lh);
      }
    }
  }

  lemma {:induction false} FollowsWrite(s: State, j: Journal)
    requires Inv(s) && Follows(s, j) && CanWrite(s) && !s.panicked
    ensures Follows(DoWrite(s), Next(j, Write))
  {
    hide Recovers, HeadOk, AllHome, Distinct;
    assert s.phase.CommitHead? ==> Txns(j.durable + [j.group]) == Txns(j.durable) + [Contents(Puts(j.group))];
    assert s.phase.ClearHead? || s.phase.Reclear? ==> s.cache == map[];
  }

  lemma {:induction false} FollowsStep(s: State, j: Journal, l: Label)
    requires Inv(s) && Follows(s, j) && Step(s, l).Went?
    ensures Follows(Step(s, l).s, Next(j, l))
  {
    hide Recovers, HeadOk, AllHome, Contents, Distinct;
    match l
    case LogWrite(op, b, data) =>
      var e := Entry(j.open[op], Store(b, data));
      assert Puts(j.group + [e]) == Puts(j.group) + [Store(b, data)];
      ContentsAppend(Puts(j.group), Store(b, data));
    case End(op) => FollowsEnd(s, j, op);
    case Write => FollowsWrite(s, j);
    case _ =>
  }

  // ------------------------------------------------------ all of an operation, or nothing

  /** The writes of one operation. */
  function Of(es: seq<Entry>, id: nat): seq<Entry>
    decreases |es|
  {
    if es == [] then [] else Of(es[..|es| - 1], id) + if es[|es| - 1].id == id then [es[|es| - 1]] else []
  }

  function Concat(gs: seq<seq<Entry>>): seq<Entry>
    decreases |gs|
  {
    if gs == [] then [] else Concat(gs[..|gs| - 1]) + gs[|gs| - 1]
  }

  /** What is left of a history when the writes of lost operations are struck out. */
  function Strike(es: seq<Entry>, lost: set<nat>): seq<Entry>
    decreases |es|
  {
    if es == [] then [] else
      Strike(es[..|es| - 1], lost) + if es[|es| - 1].id in lost then [] else [es[|es| - 1]]
  }

  /** No operation has writes in two groups, and none that can still write has any in a durable one. */
  ghost predicate Apart(j: Journal) {
    && (forall g, g', e, e' {:trigger e in j.durable[g], e' in j.durable[g']} ::
          0 <= g < g' < |j.durable| && e in j.durable[g] && e' in j.durable[g'] ==> e.id != e'.id)
    && (forall g, e :: 0 <= g < |j.durable| && e in j.durable[g] ==>
          e.id < j.next && e.id !in j.lost && e.id !in j.open && e.id !in Ids(j.group))
  }

  ghost predicate Numbered(j: Journal) {
    && (forall e :: e in j.history ==> e.id < j.next)
    && (forall i :: 0 <= i < |j.open| ==> j.open[i] < j.next && j.open[i] !in j.lost)
    && (forall e :: e in j.group ==> e.id < j.next && e.id !in j.lost)
    && (forall id :: id in j.lost ==> id < j.next)
  }

  ghost predicate Sorted(j: Journal) {
    Apart(j) && Numbered(j) && Strike(j.history, j.lost) == Concat(j.durable) + j.group
  }

  lemma {:induction false} StrikeAppend(es: seq<Entry>, e: Entry, lost: set<nat>)
    ensures Strike(es + [e], lost) == Strike(es, lost) + if e.id in lost then [] else [e]
  {
    assert (es + [e])[..|es|] == es;
  }

  lemma {:induction false} ConcatAppend(gs: seq<seq<Entry>>, g: seq<Entry>)
    ensures Concat(gs + [g]) == Concat(gs) + g
  {
    assert (gs + [g])[..|gs|] == gs;
  }

  lemma {:induction false} StrikeMore(es: seq<Entry>, lost: set<nat>, more: set<nat>)
    ensures Strike(es, lost + more) == Strike(Strike(es, lost), more)
    decreases |es|
  {
    if es != [] {
      var e := es[|es| - 1];
      StrikeMore(es[..|es| - 1], lost, more);
      if e.id in lost {
        assert Strike(es, lost) == Strike(es[..|es| - 1], lost);
      } else {
        StrikeAppend(Strike(es[..|es| - 1], lost), e, more);
      }
    }
  }

  lemma {:induction false} StrikeNone(es: seq<Entry>, ids: set<nat>)
    requires forall e :: e in es ==> e.id !in ids
    ensures Strike(es, ids) == es
    decreases |es|
  {
    if es != [] {
      StrikeNone(es[..|es| - 1], ids);
    }
  }

  /** Struck out are exactly the last entries. */
  lemma {:induction false} StrikeTail(xs: seq<Entry>, ys: seq<Entry>, ids: set<nat>)
    requires forall e :: e in xs ==> e.id !in ids
    requires forall e :: e in ys ==> e.id in ids
    ensures Strike(xs + ys, ids) == xs
    decreases |ys|
  {
    if ys == [] {
      assert xs + ys == xs;
      StrikeNone(xs, ids);
    } else {
      var n := |ys| - 1;
      StrikeTail(xs, ys[..n], ids);
      assert xs + ys == (xs + ys[..n]) + [ys[n]];
      StrikeAppend(xs + ys[..n], ys[n], ids);
    }
  }

  lemma {:induction false} ConcatIn(gs: seq<seq<Entry>>, e: Entry) returns (g: nat)
    requires e in Concat(gs)
    ensures g < |gs| && e in gs[g]
    decreases |gs|
  {
    if e in gs[|gs| - 1] {
      g := |gs| - 1;
    } else {
      g := ConcatIn(gs[..|gs| - 1], e);
    }
  }

  lemma {:induction false} StrikeCrash(j: Journal)
    requires Sorted(j)
    ensures Strike(j.history, Next(j, Crash).lost) == Concat(j.durable)
  {
    hide Numbered, Strike;
    var more := Elems(j.open) + Ids(j.group);
    StrikeMore(j.history, j.lost, more);
    assert j.lost + Elems(j.open) + Ids(j.group) == j.lost + more;
    forall e | e in Concat(j.durable) ensures e.id !in more {
      var g := ConcatIn(j.durable, e);
    }
    StrikeTail(Concat(j.durable), j.group, more);
  }

  lemma {:induction false} SortedCrash(j: Journal)
    requires Sorted(j)
    ensures Sorted(Next(j, Crash))
  {
    hide Strike, Concat;
    StrikeCrash(j);
    assert Concat(j.durable) + [] == Concat(j.durable);
  }

  lemma {:induction false} SortedCommit(j: Journal)
    requires Sorted(j) && j.open == []
    ensures Sorted(j.(durable := j.durable + [j.group], group := [], until := 0))
  {
    ConcatAppend(j.durable, j.group);
  }

  lemma {:induction false} SortedStep(j: Journal, l: Label)
    requires Sorted(j) && (j.until > 0 ==> j.open == [])
    ensures Sorted(Next(j, l))
  {
    hide Contents, Strike, Concat;
    match l
    case LogWrite(op, b, data) =>
      if op < |j.open| {
        StrikeAppend(j.history, Entry(j.open[op], Store(b, data)), j.lost);
      }
    case Write => if j.until == 1 { SortedCommit(j); }
    case Crash => SortedCrash(j);
    case _ =>
  }

  // ------------------------------------------------------ whole runs

  lemma {:induction false} RunFollows(s: State, j: Journal, ls: seq<Label>)
    requires Inv(s) && Follows(s, j) && Sorted(j) && Run(s, ls).Went?
    ensures Follows(Run(s, ls).s, JournalOf(j, ls)) && Sorted(JournalOf(j, ls))
    decreases |ls|
  {
    hide Inv, Follows, Sorted, Next, Step;
    if ls != [] {
      KeepStep(s, ls[0]);
      FollowsStep(s, j, ls[0]);
      CommitsAlone(s, j);
      SortedStep(j, ls[0]);
      RunFollows(Step(s, ls[0]).s, Next(j, ls[0]), ls[1..]);
    }
  }

  /** While a group is being committed no operation is in progress. */
  lemma {:induction false} CommitsAlone(s: State, j: Journal)
    requires Inv(s) && Follows(s, j)
    ensures j.until > 0 ==> j.open == []
  {
    hide Recovers, HeadOk, AllHome, Contents, Distinct;
  }

  lemma {:induction false} InitFollows(boot: State)
    requires Init(boot)
    ensures Inv(boot) && Follows(boot, EMPTY) && Sorted(EMPTY)
  {
    InitInv(boot);
  }

  lemma {:induction false} ReplayGroup(disk: seq<Block>, ws: seq<Store>)
    ensures Apply(disk, Contents(ws)) == Replay(disk, ws)
    decreases |ws|
  {
    if ws != [] {
      ReplayGroup(disk, ws[..|ws| - 1]);
    }
  }

  lemma {:induction false} ReplayGroups(disk: seq<Block>, gs: seq<seq<Entry>>)
    ensures ApplyAll(disk, Txns(gs)) == Replay(disk, Puts(Concat(gs)))
    decreases |gs|
  {
    if gs != [] {
      var n := |gs| - 1;
      ReplayGroups(disk, gs[..n]);
      assert Txns(gs)[..n] == Txns(gs[..n]);
      ReplayGroup(Replay(disk, Puts(Concat(gs[..n]))), Puts(gs[n]));
      ReplayConcat(disk, Puts(Concat(gs[..n])), Puts(gs[n]));
      assert Puts(Concat(gs)) == Puts(Concat(gs[..n])) + Puts(gs[n]);
    }
  }

  /**
   The commit point: what recovery would restore changes at one step only, the
   last block write the journal counts, and there it takes in the whole group.
   */
  lemma {:induction false} CommitPoint(s: State, j: Journal, l: Label)
    requires Inv(s) && Follows(s, j) && Step(s, l).Went?
    ensures Spec(Step(s, l).s) == if l == Write && j.until == 1 then Replay(Spec(s), Puts(j.group)) else Spec(s)
  {
    hide Recovers, HeadOk, AllHome, Contents, Distinct, ApplyAll, Replay;
    FollowsStep(s, j, l);
    if l == Write && s.phase == CommitHead {
      KeepCommitHead(s);
      ReplayGroup(Spec(s), Puts(j.group));
    }
  }

  /**
   Main result: after any run from a fresh disk, with crashes anywhere, whenever
   the system is up the home blocks are those of a disk on which everything was
   written in place and in order, except for what the lost operations wrote and
   for the group that is still open.
   */
  lemma {:induction false} DiskIsHistory(boot: State, ls: seq<Label>, b: nat)
    requires Init(boot) && Run(boot, ls).Went? && Run(boot, ls).s.phase == Ready && Home(b)
    ensures var s, j := Run(boot, ls).s, JournalOf(EMPTY, ls);
      exists kept ::
        && Strike(j.history, j.lost) == kept + j.group
        && |s.disk| == FSSIZE && s.disk[b] == Replay(boot.disk, Puts(kept))[b]
  {
    hide Inv, Run, JournalOf, Apart, Numbered;
    var j := JournalOf(EMPTY, ls);
    InitFollows(boot);
    RunFollows(boot, EMPTY, ls);
    HomeIsCommitted(boot, ls, b);
    ReplayGroups(boot.disk, j.durable);
    assert Strike(j.history, j.lost) == Concat(j.durable) + j.group;
  }

  lemma {:induction false} OfNone(es: seq<Entry>, id: nat)
    requires id !in Ids(es)
    ensures Of(es, id) == []
    decreases |es|
  {
    if es != [] {
      assert es[|es| - 1] in es;
      assert forall e :: e in es[..|es| - 1] ==> e in es;
      OfNone(es[..|es| - 1], id);
    }
  }

  lemma {:induction false} OfConcat(xs: seq<Entry>, ys: seq<Entry>, id: nat)
    ensures Of(xs + ys, id) == Of(xs, id) + Of(ys, id)
    decreases |ys|
  {
    if ys == [] {
      assert xs + ys == xs;
    } else {
      assert (xs + ys)[..|xs + ys| - 1] == xs + ys[..|ys| - 1];
      OfConcat(xs, ys[..|ys| - 1], id);
    }
  }

  lemma {:induction false} OfStrike(es: seq<Entry>, lost: set<nat>, id: nat)
    requires id !in lost
    ensures Of(Strike(es, lost), id) == Of(es, id)
    decreases |es|
  {
    if es != [] {
      var n := |es| - 1;
      OfStrike(es[..n], lost, id);
      if es[n].id in lost {
        assert Strike(es, lost) == Strike(es[..n], lost);
      } else {
        OfConcat(Strike(es[..n], lost), [es[n]], id);
        assert Of([es[n]], id) == if es[n].id == id then [es[n]] else [];
      }
    }
  }

  lemma {:induction false} NotInConcat(gs: seq<seq<Entry>>, id: nat)
    requires forall i :: 0 <= i < |gs| ==> id !in Ids(gs[i])
    ensures Of(Concat(gs), id) == []
  {
    forall e | e in Concat(gs) ensures e.id != id {
      var i := ConcatIn(gs, e);
      assert e.id in Ids(gs[i]);
    }
    OfNone(Concat(gs), id);
  }

  /** An operation that writes in one group only has its writes there. */
  lemma {:induction false} OfGroups(gs: seq<seq<Entry>>, g: nat, id: nat)
    requires g < |gs| && forall i :: 0 <= i < |gs| && i != g ==> id !in Ids(gs[i])
    ensures Of(Concat(gs), id) == Of(gs[g], id)
    decreases |gs|
  {
    var n := |gs| - 1;
    OfConcat(Concat(gs[..n]), gs[n], id);
    if g == n {
      NotInConcat(gs[..n], id);
    } else {
      OfNone(gs[n], id);
      OfGroups(gs[..n], g, id);
    }
  }

  /** All writes of the operation are in the durable group g, and none is in another. */
  ghost predicate Whole(j: Journal, id: nat, g: nat) {
    && g < |j.durable| && Of(j.durable[g], id) == Of(j.history, id)
    && forall i :: 0 <= i < |j.durable| && i != g ==> Of(j.durable[i], id) == []
  }

  ghost predicate Absent(j: Journal, id: nat) {
    forall i :: 0 <= i < |j.durable| ==> Of(j.durable[i], id) == []
  }

  lemma {:induction false} NotInDurable(j: Journal, id: nat, g: nat)
    requires Apart(j) && g < |j.durable| && (id in j.lost || id in Ids(j.group))
    ensures id !in Ids(j.durable[g])
  {
  }

  lemma {:induction false} NotInTwo(j: Journal, id: nat, g: nat, g': nat)
    requires Apart(j) && g < |j.durable| && g' < |j.durable| && g != g' && id in Ids(j.durable[g])
    ensures id !in Ids(j.durable[g'])
  {
    var e :| e in j.durable[g] && e.id == id;
  }

  /** Of an operation with writes: nothing is durable if it is lost or in the open group, otherwise everything is. */
  ghost predicate Atomic(j: Journal, id: nat) {
    if id in j.lost || id in Ids(j.group) then Absent(j, id)
    else Of(j.history, id) == [] || exists g :: Whole(j, id, g)
  }

  lemma {:induction false} AllOrNothing(j: Journal, id: nat)
    requires Sorted(j)
    ensures Atomic(j, id)
  {
    hide Strike, Concat, Of, Numbered, Apart;
    if id in j.lost || id in Ids(j.group) {
      forall i | 0 <= i < |j.durable| ensures Of(j.durable[i], id) == [] {
        NotInDurable(j, id, i);
        OfNone(j.durable[i], id);
      }
    } else {
      OfStrike(j.history, j.lost, id);
      OfConcat(Concat(j.durable), j.group, id);
      OfNone(j.group, id);
      if g :| 0 <= g < |j.durable| && id in Ids(j.durable[g]) {
        forall i | 0 <= i < |j.durable| && i != g ensures id !in Ids(j.durable[i]) && Of(j.durable[i], id) == [] {
          NotInTwo(j, id, g, i);
          OfNone(j.durable[i], id);
        }
        OfGroups(j.durable, g, id);
        assert Whole(j, id, g);
      } else {
        NotInConcat(j.durable, id);
      }
    }
  }

  /**
   Main result: after any run with crashes anywhere, the writes of an operation
   are all in one transaction on the disk, or none of them is in any; which of
   the two tells whether a crash found the operation or its group unfinished.
   */
  lemma {:induction false} OperationsAreAtomic(boot: State, ls: seq<Label>, id: nat)
    requires Init(boot) && Run(boot, ls).Went?
    ensures Run(boot, ls).s.committed == Txns(JournalOf(EMPTY, ls).durable)
    ensures Atomic(JournalOf(EMPTY, ls), id)
  {
    hide Inv, Sorted, Atomic;
    InitFollows(boot);
    RunFollows(boot, EMPTY, ls);
    AllOrNothing(JournalOf(EMPTY, ls), id);
  }

  // ------------------------------------------------------ operations that follow one another

  predicate NoCrash(ls: seq<Label>) {
    forall i :: 0 <= i < |ls| ==> ls[i] != Crash
  }

  /** What is on the disk, and then the open group. */
  function Kept(j: Journal): seq<Entry> {
    Concat(j.durable) + j.group
  }

  lemma {:induction false} KeptStep(j: Journal, l: Label) returns (more: seq<Entry>)
    requires l != Crash
    ensures var j' := Next(j, l);
      && Kept(j') == Kept(j) + more && j'.lost == j.lost && j'.next >= j.next
      && (forall e :: e in more ==> e.id in j.open) && (forall id :: id in j'.open ==> id in j.open || id >= j.next)
  {
    hide Concat, Contents;
    var j' := Next(j, l);
    ConcatAppend(j.durable, j.group);
    more := if l.LogWrite? && l.op < |j.open| then [Entry(j.open[l.op], Store(l.b, l.data))] else [];
    assert Kept(j) + [] == Kept(j);
    assert Concat(j.durable) + (j.group + more) == Kept(j) + more;
  }

  /** Without a crash nothing is taken back, and only operations that are open or begin later write. */
  lemma {:induction false} KeptRun(j: Journal, ls: seq<Label>) returns (more: seq<Entry>)
    requires NoCrash(ls)
    ensures var j' := JournalOf(j, ls);
      && Kept(j') == Kept(j) + more && j'.lost == j.lost
      && (forall e :: e in more ==> e.id in j.open || e.id >= j.next)
    decreases |ls|
  {
    hide Next, Kept;
    if ls == [] {
      more := [];
      assert Kept(j) + [] == Kept(j);
    } else {
      var x := KeptStep(j, ls[0]);
      var y := KeptRun(Next(j, ls[0]), ls[1..]);
      more := x + y;
      assert Kept(j) + x + y == Kept(j) + (x + y);
    }
  }

  lemma {:induction false} InConcat(gs: seq<seq<Entry>>, g: nat, e: Entry)
    requires g < |gs| && e in gs[g]
    ensures e in Concat(gs)
    decreases |gs|
  {
    if g < |gs| - 1 {
      InConcat(gs[..|gs| - 1], g, e);
    }
  }

  lemma {:induction false} KeptIds(j: Journal, e: Entry)
    requires Sorted(j) && e in Kept(j)
    ensures e.id < j.next
  {
    hide Strike, Concat;
    if e in Concat(j.durable) {
      var g := ConcatIn(j.durable, e);
    }
  }

  /**
   Operation a has ended when b begins, other operations share their
   transactions, and there is no crash from then on. When anything of b is on
   the disk, all of a is.
   */
  lemma {:induction false} EarlierIsDurable(j: Journal, ls: seq<Label>, a: nat, b: nat, g: nat)
    requires Sorted(j) && Sorted(JournalOf(j, ls)) && NoCrash(ls)
    requires a !in j.open && a !in j.lost && a < j.next <= b
    requires g < |JournalOf(j, ls).durable| && b in Ids(JournalOf(j, ls).durable[g])
    ensures var j' := JournalOf(j, ls); Of(j'.history, a) == [] || exists h :: Whole(j', a, h)
  {
    hide Sorted, JournalOf, Whole, Of, Concat;
    var j' := JournalOf(j, ls);
    var more := KeptRun(j, ls);
    var e :| e in j'.durable[g] && e.id == b;
    InConcat(j'.durable, g, e);
    var q :| 0 <= q < |Concat(j'.durable)| && Concat(j'.durable)[q] == e;
    assert Kept(j')[q] == e;
    if q < |Kept(j)| {
      assert Kept(j)[q] == e;
      KeptIds(j, e);
      assert false;
    }
    forall i | 0 <= i < |j'.group| ensures j'.group[i].id != a {
      var p := |Concat(j'.durable)| + i;
      assert Kept(j')[p] == j'.group[i] == more[p - |Kept(j)|];
    }
    AllOrNothing(j', a);
  }
}
