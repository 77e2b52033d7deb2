/**
 log_write as log.c has it: it tests the size of the log before it takes the
 lock, and other calls may come between the test and the append. Below
 MAXOPBLOCKS blocks for each operation that makes no difference: every run is one
 of `LogMachine` with the tests left out, and what holds there holds here. At
 MAXOPBLOCKS the log can outgrow its blocks on the disk, and a log write then
 lands on the first block of inodes.
 */
module LogFine {
  import opened Params
  import opened Sets
  import opened Bytes
  import opened Stores
  import opened LogMachine
  import opened LogTheorems
  import opened LogAtomic

  /** `passed` tells of each operation in progress whether it is past the test of a log_write. */
  datatype Fine = Fine(s: State, passed: seq<bool>)

  /** `Do(LogWrite(..))` is the part of log_write under the lock. */
  datatype FineLabel = Check(op: nat) | Do(l: Label)

  datatype FineOutcome = Stuck | Gone(f: Fine)

  // ------------------------------------------------------ steps

  /** The operation calls log_write. */
  predicate CanCheck(f: Fine, op: nat) {
    f.s.phase == Ready && op < |f.s.ops| && op < |f.passed| && !f.passed[op]
  }

  function DoCheck(f: Fine, op: nat): Fine
    requires CanCheck(f, op)
  {
    if TooBig(f.s.lh) then f.(s := f.s.(panicked := true)) else f.(passed := f.passed[op := true])
  }

  function Proceed(f: Fine, l: Label): FineOutcome {
    match l
    case Begin => if CanBegin(f.s) then Gone(Fine(DoBegin(f.s), f.passed + [false])) else Stuck
    case LogWrite(op, b, data) =>
      if CanLogWrite(f.s, op, b) && op < |f.passed| && f.passed[op]
      then Gone(Fine(DoAppend(f.s, op, b, data), f.passed[op := false])) else Stuck
    case End(op) =>
      if CanEnd(f.s, op) && op < |f.passed| && !f.passed[op]
      then Gone(Fine(DoEnd(f.s, op), f.passed[..op] + f.passed[op + 1..])) else Stuck
    case Write => if CanWrite(f.s) then Gone(f.(s := DoWrite(f.s))) else Stuck
    case ReadHead => if CanReadHead(f.s) then Gone(f.(s := DoReadHead(f.s))) else Stuck
    case Crash => Gone(Fine(DoCrash(f.s), []))
  }

  function FineStep(f: Fine, x: FineLabel): FineOutcome {
    if f.s.panicked && x != Do(Crash) then Stuck
    else match x
    case Check(op) => if CanCheck(f, op) then Gone(DoCheck(f, op)) else Stuck
    case Do(l) => Proceed(f, l)
  }

  function FineRun(f: Fine, xs: seq<FineLabel>): FineOutcome
    decreases |xs|
  {
    if xs == [] then Gone(f)
    else match FineStep(f, xs[0]) case Stuck => Stuck case Gone(f') => FineRun(f', xs[1..])
  }

  predicate WithinLimit(f: Fine, x: FineLabel, limit: nat) {
    x.Do? ==> Disciplined(f.s, x.l, limit)
  }

  predicate WithinLimits(f: Fine, xs: seq<FineLabel>, limit: nat)
    decreases |xs|
  {
    xs == [] ||
    (WithinLimit(f, xs[0], limit) && (FineStep(f, xs[0]).Gone? ==> WithinLimits(FineStep(f, xs[0]).f, xs[1..], limit)))
  }

  /** The run without the tests. */
  function Merged(xs: seq<FineLabel>): seq<Label>
    decreases |xs|
  {
    if xs == [] then [] else (if xs[0].Do? then [xs[0].l] else []) + Merged(xs[1..])
  }

  /** The machine after mkfs. */
  function Fresh(boot: State): Fine {
    Fine(boot, [])
  }

  // ------------------------------------------------------ below MAXOPBLOCKS the tests make no difference

  /** What holds between the steps of such a run. */
  ghost predicate Steady(f: Fine, limit: nat) {
    && Inv(f.s) && Fits(f.s, limit, Room(limit)) && !f.s.panicked && |f.passed| == |f.s.ops|
  }

  /** A test changes nothing but its flag; any other step is the same step of the machine whose log_write is one step. */
  lemma {:induction false} OneStep(f: Fine, x: FineLabel, limit: nat)
    requires Steady(f, limit) && limit < MAXOPBLOCKS && FineStep(f, x).Gone? && WithinLimit(f, x, limit)
    ensures Steady(FineStep(f, x).f, limit)
    ensures if x.Check? then FineStep(f, x).f.s == f.s else Step(f.s, x.l) == Went(FineStep(f, x).f.s)
  {
    hide Inv, Fits, Disciplined;
    FitsRoom(f.s, limit);
    if x.Do? {
      KeepStep(f.s, x.l);
      FitsStep(f.s, x.l, limit);
    }
  }

  /** Every run below MAXOPBLOCKS is, without the tests, a run of the machine whose log_write is one step. */
  lemma {:induction false} Reduces(f: Fine, xs: seq<FineLabel>, limit: nat)
    requires Steady(f, limit) && limit < MAXOPBLOCKS && FineRun(f, xs).Gone? && WithinLimits(f, xs, limit)
    ensures Steady(FineRun(f, xs).f, limit)
    ensures Run(f.s, Merged(xs)) == Went(FineRun(f, xs).f.s)
    decreases |xs|
  {
    hide Steady, FineStep, Step, WithinLimit;
    if xs != [] {
      var f' := FineStep(f, xs[0]).f;
      OneStep(f, xs[0], limit);
      Reduces(f', xs[1..], limit);
      if xs[0].Do? {
        RunStep(f.s, xs[0].l, Merged(xs[1..]));
      } else {
        assert Merged(xs) == Merged(xs[1..]);
      }
    }
  }

  lemma {:induction false} FreshSteady(boot: State, limit: nat)
    requires Init(boot)
    ensures Steady(Fresh(boot), limit)
  {
    InitInv(boot);
  }

  /** A run from a fresh disk in which no operation logs more than `limit` blocks. */
  ghost predicate Possible(boot: State, xs: seq<FineLabel>, limit: nat) {
    Init(boot) && FineRun(Fresh(boot), xs).Gone? && WithinLimits(Fresh(boot), xs, limit)
  }

  function Final(boot: State, xs: seq<FineLabel>): State {
    if FineRun(Fresh(boot), xs).Gone? then FineRun(Fresh(boot), xs).f.s else boot
  }

  lemma {:induction false} PossibleReduces(boot: State, xs: seq<FineLabel>, limit: nat)
    requires Possible(boot, xs, limit) && limit < MAXOPBLOCKS
    ensures Run(boot, Merged(xs)) == Went(Final(boot, xs))
    ensures Inv(Final(boot, xs)) && !Final(boot, xs).panicked && !TooBig(Final(boot, xs).lh)
  {
    hide Inv, Run, FineRun, WithinLimits, Init;
    FreshSteady(boot, limit);
    Reduces(Fresh(boot), xs, limit);
    FitsRoom(Final(boot, xs), limit);
  }

  /**
   Main result: with fewer than MAXOPBLOCKS blocks for each operation, after any
   run with crashes between any two block writes, also during recovery, whenever
   the system is up the home blocks hold exactly the transactions whose header
   write reached the disk.
   */
  lemma {:induction false} FineHomeIsCommitted(boot: State, xs: seq<FineLabel>, limit: nat, b: nat)
    requires Possible(boot, xs, limit) && limit < MAXOPBLOCKS && Final(boot, xs).phase == Ready && Home(b)
    ensures |Final(boot, xs).disk| == FSSIZE
    ensures Final(boot, xs).disk[b] == ApplyAll(boot.disk, Final(boot, xs).committed)[b]
  {
    hide Inv, Run, FineRun, WithinLimits, ApplyAll, Init;
    PossibleReduces(boot, xs, limit);
    HomeIsCommitted(boot, Merged(xs), b);
  }

  /** Main result: under the same bound an operation is on the disk as a whole or not at all. */
  lemma {:induction false} FineOperationsAreAtomic(boot: State, xs: seq<FineLabel>, limit: nat, id: nat)
    requires Possible(boot, xs, limit) && limit < MAXOPBLOCKS
    ensures Final(boot, xs).committed == Txns(JournalOf(EMPTY, Merged(xs)).durable)
    ensures Atomic(JournalOf(EMPTY, Merged(xs)), id)
  {
    hide Inv, Run, FineRun, WithinLimits, Atomic, JournalOf, Init;
    PossibleReduces(boot, xs, limit);
    OperationsAreAtomic(boot, Merged(xs), id);
  }

  /** Under the same bound the home blocks are those of a disk written in place, without the lost operations and the open group. */
  lemma {:induction false} FineDiskIsHistory(boot: State, xs: seq<FineLabel>, limit: nat, b: nat)
    requires Possible(boot, xs, limit) && limit < MAXOPBLOCKS && Final(boot, xs).phase == Ready && Home(b)
    ensures var j := JournalOf(EMPTY, Merged(xs));
      exists kept ::
        && Strike(j.history, j.lost) == kept + j.group
        && |Final(boot, xs).disk| == FSSIZE && Final(boot, xs).disk[b] == Replay(boot.disk, Puts(kept))[b]
  {
    hide Inv, Run, FineRun, WithinLimits, JournalOf, Strike, Replay, Init;
    PossibleReduces(boot, xs, limit);
    DiskIsHistory(boot, Merged(xs), b);
  }

  /** Under the same bound what recovery would restore changes at the header write of commit only, and there by the whole group. */
  lemma {:induction false} FineCommitPoint(boot: State, xs: seq<FineLabel>, x: FineLabel, limit: nat)
    requires Possible(boot, xs, limit) && limit < MAXOPBLOCKS
    requires var f := FineRun(Fresh(boot), xs).f; FineStep(f, x).Gone? && WithinLimit(f, x, limit)
    ensures var j := JournalOf(EMPTY, Merged(xs)); var f := FineRun(Fresh(boot), xs).f;
      Spec(FineStep(f, x).f.s) == if x == Do(Write) && j.until == 1 then Replay(Spec(f.s), Puts(j.group)) else Spec(f.s)
  {
    hide Inv, Run, FineRun, WithinLimits, WithinLimit, JournalOf, Replay, Spec, FineStep, Steady, Init, Follows, Sorted, Step;
    var f := FineRun(Fresh(boot), xs).f;
    FreshSteady(boot, limit);
    Reduces(Fresh(boot), xs, limit);
    OneStep(f, x, limit);
    InitFollows(boot);
    RunFollows(boot, EMPTY, Merged(xs));
    SteadyInv(f, limit);
    if x.Do? {
      CommitPoint(f.s, JournalOf(EMPTY, Merged(xs)), x.l);
    }
  }

  lemma {:induction false} MergedConcat(xs: seq<FineLabel>, ys: seq<FineLabel>)
    ensures Merged(xs + ys) == Merged(xs) + Merged(ys)
    decreases |xs|
  {
    if xs == [] {
      assert xs + ys == ys;
    } else {
      assert (xs + ys)[0] == xs[0] && (xs + ys)[1..] == xs[1..] + ys;
      MergedConcat(xs[1..], ys);
    }
  }

  lemma {:induction false} JournalConcat(j: Journal, ls: seq<Label>, ms: seq<Label>)
    ensures JournalOf(j, ls + ms) == JournalOf(JournalOf(j, ls), ms)
    decreases |ls|
  {
    hide Next;
    if ls == [] {
      assert ls + ms == ms;
    } else {
      assert (ls + ms)[0] == ls[0] && (ls + ms)[1..] == ls[1..] + ms;
      JournalConcat(Next(j, ls[0]), ls[1..], ms);
    }
  }

  /**
   Under the same bound, with other operations sharing the transactions: when
   anything of operation b is on the disk, so is all of every operation a that
   had ended when b began, unless a crash came in between.
   */
  lemma {:induction false} FineEarlierIsDurable(
      boot: State, xs: seq<FineLabel>, ys: seq<FineLabel>, limit: nat, a: nat, b: nat, g: nat)
    requires Possible(boot, xs, limit) && Possible(boot, xs + ys, limit) && limit < MAXOPBLOCKS && NoCrash(Merged(ys))
    requires var j := JournalOf(EMPTY, Merged(xs)); a !in j.open && a !in j.lost && a < j.next <= b
    requires var j' := JournalOf(EMPTY, Merged(xs + ys)); g < |j'.durable| && b in Ids(j'.durable[g])
    ensures var j' := JournalOf(EMPTY, Merged(xs + ys));
      && Final(boot, xs + ys).committed == Txns(j'.durable)
      && (Of(j'.history, a) == [] || exists h :: Whole(j', a, h))
  {
    hide Inv, Run, FineRun, WithinLimits, JournalOf, Init, Follows, Sorted, Whole, Of, Merged, Final;
    InitFollows(boot);
    PossibleReduces(boot, xs, limit);
    PossibleReduces(boot, xs + ys, limit);
    RunFollows(boot, EMPTY, Merged(xs));
    RunFollows(boot, EMPTY, Merged(xs + ys));
    MergedConcat(xs, ys);
    JournalConcat(EMPTY, Merged(xs), Merged(ys));
    FineOperationsAreAtomic(boot, xs + ys, limit, a);
    EarlierIsDurable(JournalOf(EMPTY, Merged(xs)), Merged(ys), a, b, g);
  }

  lemma {:induction false} SteadyInv(f: Fine, limit: nat)
    requires Steady(f, limit)
    ensures Inv(f.s) && !f.s.panicked
  {
    hide Inv, Fits;
  }

  // ------------------------------------------------------ up to MAXOPBLOCKS the reservations hold

  /** Logged blocks and unused reservations fit the header, whether or not they fit the disk. */
  ghost predicate Reserved(f: Fine, limit: nat) {
    && Fits(f.s, limit, Room(limit)) && (!f.s.phase.Ready? ==> f.s.ops == [])
  }

  lemma {:induction false} ReservedStep(f: Fine, x: FineLabel, limit: nat)
    requires Reserved(f, limit) && limit <= MAXOPBLOCKS && FineStep(f, x).Gone? && WithinLimit(f, x, limit)
    ensures Reserved(FineStep(f, x).f, limit)
  {
    hide Room;
    match x
    case Check(_) =>
    case Do(l) =>
      match l {
        case Begin => FitsBegin(f.s, limit);
        case LogWrite(op, b, data) => FitsAppend(f.s, op, b, data, limit, Room(limit));
        case End(op) => FitsEnd(f.s, op, limit, Room(limit));
        case _ => NoSlack(f.s, limit);
      }
  }

  lemma {:induction false} ReservedRun(f: Fine, xs: seq<FineLabel>, limit: nat)
    requires Reserved(f, limit) && limit <= MAXOPBLOCKS && FineRun(f, xs).Gone? && WithinLimits(f, xs, limit)
    ensures Reserved(FineRun(f, xs).f, limit)
    decreases |xs|
  {
    hide Reserved, FineStep, WithinLimit;
    if xs != [] {
      ReservedStep(f, xs[0], limit);
      ReservedRun(FineStep(f, xs[0]).f, xs[1..], limit);
    }
  }

  /**
   With at most MAXOPBLOCKS blocks for each operation the logged blocks and all
   unused reservations stay within bounds, and so within the array of the
   header, in every interleaving.
   */
  lemma {:induction false} FineReservationsFit(boot: State, xs: seq<FineLabel>, limit: nat)
    requires Possible(boot, xs, limit) && limit <= MAXOPBLOCKS
    ensures var s := Final(boot, xs); 0 <= Slack(s.ops, limit) && |s.lh| + Slack(s.ops, limit) <= Room(limit) <= LOGSIZE
  {
    ReservedRun(Fresh(boot), xs, limit);
    SlackBound(Final(boot, xs).ops, limit);
  }

  // ------------------------------------------------------ a run that takes log_write as one step

  /** A step with log_write taken apart. */
  function Parts(s: State, l: Label): seq<FineLabel> {
    if !l.LogWrite? then [Do(l)] else if TooBig(s.lh) then [Check(l.op)] else [Check(l.op), Do(l)]
  }

  function Expand(s: State, ls: seq<Label>): seq<FineLabel>
    decreases |ls|
  {
    if ls == [] || Step(s, ls[0]).Blocked? then [] else Parts(s, ls[0]) + Expand(Step(s, ls[0]).s, ls[1..])
  }

  /** No operation is between its test and its append. */
  predicate NonePassed(f: Fine) {
    |f.passed| == |f.s.ops| && forall i :: 0 <= i < |f.passed| ==> !f.passed[i]
  }

  lemma {:induction false} FineConcat(f: Fine, xs: seq<FineLabel>, ys: seq<FineLabel>, limit: nat)
    requires FineRun(f, xs).Gone?
    ensures FineRun(f, xs + ys) == FineRun(FineRun(f, xs).f, ys)
    ensures WithinLimits(f, xs + ys, limit) <==> WithinLimits(f, xs, limit) && WithinLimits(FineRun(f, xs).f, ys, limit)
    decreases |xs|
  {
    hide FineStep, WithinLimit;
    if xs == [] {
      assert xs + ys == ys;
    } else {
      assert (xs + ys)[0] == xs[0] && (xs + ys)[1..] == xs[1..] + ys;
      FineConcat(FineStep(f, xs[0]).f, xs[1..], ys, limit);
    }
  }

  lemma {:induction false} FineOne(f: Fine, x: FineLabel, limit: nat)
    requires FineStep(f, x).Gone?
    ensures FineRun(f, [x]) == FineStep(f, x)
    ensures WithinLimits(f, [x], limit) <==> WithinLimit(f, x, limit)
  {
    hide FineStep, WithinLimit;
    assert FineRun(FineStep(f, x).f, [x][1..]) == FineStep(f, x);
  }

  lemma {:induction false} PartsRun(f: Fine, l: Label, limit: nat)
    requires NonePassed(f) && Step(f.s, l).Went?
    ensures var end := FineRun(f, Parts(f.s, l)); end.Gone? && end.f.s == Step(f.s, l).s && NonePassed(end.f)
    ensures Disciplined(f.s, l, limit) ==> WithinLimits(f, Parts(f.s, l), limit)
  {
    hide FineRun, WithinLimits, Disciplined;
    if !l.LogWrite? {
      FineOne(f, Do(l), limit);
    } else {
      FineOne(f, Check(l.op), limit);
      if !TooBig(f.s.lh) {
        var f1 := DoCheck(f, l.op);
        FineOne(f1, Do(l), limit);
        FineConcat(f, [Check(l.op)], [Do(l)], limit);
        assert [Check(l.op)] + [Do(l)] == [Check(l.op), Do(l)];
        SameOps(f.s, f1.s, l, limit);
      }
    }
  }

  lemma {:induction false} SameOps(s: State, s': State, l: Label, limit: nat)
    requires s'.ops == s.ops
    ensures Disciplined(s', l, limit) <==> Disciplined(s, l, limit)
  {
  }

  /** Every run of the machine whose log_write is one step is possible here. */
  lemma {:induction false} ExpandRuns(f: Fine, ls: seq<Label>, limit: nat)
    requires NonePassed(f) && Run(f.s, ls).Went?
    ensures var end := FineRun(f, Expand(f.s, ls)); end.Gone? && end.f.s == Run(f.s, ls).s && NonePassed(end.f)
    ensures DisciplinedRun(f.s, ls, limit) ==> WithinLimits(f, Expand(f.s, ls), limit)
    decreases |ls|
  {
    hide Step, Parts, NonePassed, FineStep, Disciplined, WithinLimit;
    if ls != [] {
      PartsRun(f, ls[0], limit);
      var f' := FineRun(f, Parts(f.s, ls[0])).f;
      ExpandRuns(f', ls[1..], limit);
      FineConcat(f, Parts(f.s, ls[0]), Expand(f'.s, ls[1..]), limit);
    }
  }
}
