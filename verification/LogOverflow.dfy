/**
 What MAXOPBLOCKS blocks for each operation can do. Three operations have logged
 28 blocks. Two of them pass the size test of log_write, then both append: the
 log has 30 blocks, one more than the disk has for it, and the thirtieth log
 write goes to block 32, the first block of inodes. A crash before the header
 write then leaves a block changed that no transaction wrote.
 */
module LogOverflow {
  import opened Params
  import opened Sets
  import opened Bytes
  import opened LogMachine
  import opened LogTheorems
  import opened LogFine

  /** The block after the log. */
  const BEYOND: nat := LOGSTART + NLOG

  ghost predicate SameDisk(s: State, s': State) {
    s'.disk == s.disk && s'.hdr == s.hdr && s'.committed == s.committed && s'.base == s.base
  }

  /** Three operations take turns until 28 blocks are logged. */
  lemma {:induction false} FillTo(s: State, k: nat, data: Block) returns (ls: seq<Label>)
    requires Filling(s, k) && k <= 28
    ensures DisciplinedRun(s, ls, MAXOPBLOCKS) && Run(s, ls).Went?
    ensures Filling(Run(s, ls).s, 28) && SameDisk(s, Run(s, ls).s)
    decreases 28 - k
  {
    hide Filling, Disciplined;
    if k == 28 {
      ls := [];
    } else {
      var l := LogWrite(k % 3, 100 + k, data);
      FillOne(s, k, data);
      KeepsDisk(s, l);
      var rest := FillTo(Step(s, l).s, k + 1, data);
      ls := [l] + rest;
      RunStep(s, l, rest);
      assert ls[1..] == rest;
    }
  }

  lemma {:induction false} KeepsDisk(s: State, l: Label)
    requires l.LogWrite? && Step(s, l).Went?
    ensures SameDisk(s, Step(s, l).s)
  {
  }

  /** 28 blocks are logged and nobody is in log_write. */
  ghost predicate Brim(f: Fine) {
    Inv(f.s) && Filling(f.s, 28) && NonePassed(f)
  }

  lemma {:induction false} ToTheBrim(boot: State, data: Block) returns (xs: seq<FineLabel>)
    requires Init(boot)
    ensures Possible(boot, xs, MAXOPBLOCKS)
    ensures Brim(FineRun(Fresh(boot), xs).f) && SameDisk(boot, Final(boot, xs))
  {
    hide Inv, Filling, FineRun, WithinLimits;
    var s := Opened(boot);
    var begins := [Begin, Begin, Begin];
    var ls := FillTo(s, 0, data);
    DisciplinedAppend(boot, begins, ls, MAXOPBLOCKS);
    InitInv(boot);
    RunInv(boot, begins + ls);
    ExpandRuns(Fresh(boot), begins + ls, MAXOPBLOCKS);
    xs := Expand(boot, begins + ls);
  }

  /** Thirty blocks are logged, the last with the given contents. */
  ghost predicate Overfull(s: State, data: Block) {
    && |s.lh| == 30 && |s.disk| == FSSIZE && !s.panicked && s.hdr.n == 0
    && (forall i :: 0 <= i < 30 ==> s.lh[i] in s.cache) && s.cache[s.lh[29]] == data
  }

  /** Both tests pass. */
  lemma {:induction false} BothPass(f: Fine)
    requires Brim(f)
    ensures var end := FineRun(f, [Check(1), Check(2)]);
      end.Gone? && end.f.s == f.s && end.f.passed == [false, true, true] && WithinLimits(f, [Check(1), Check(2)], MAXOPBLOCKS)
  {
    hide Inv, FineRun, WithinLimits;
    var f1 := DoCheck(f, 1);
    FineOne(f, Check(1), MAXOPBLOCKS);
    FineOne(f1, Check(2), MAXOPBLOCKS);
    FineConcat(f, [Check(1)], [Check(2)], MAXOPBLOCKS);
    assert [Check(1)] + [Check(2)] == [Check(1), Check(2)];
  }

  function TwoAppended(s: State, data: Block): State
    requires CanLogWrite(s, 1, 128) && |s.ops| == 3
  {
    DoAppend(DoAppend(s, 1, 128, data), 2, 129, data)
  }

  lemma {:induction false} FilledOver(s: State, data: Block)
    requires Inv(s) && Filling(s, 28)
    ensures Overfull(TwoAppended(s, data), data)
  {
    hide AllHome, Distinct;
    assert forall i :: 0 <= i < 28 ==> s.lh[i] in Elems(s.lh);
  }

  lemma {:induction false} BothWithin(s: State, data: Block)
    requires Filling(s, 28)
    ensures Disciplined(s, LogWrite(1, 128, data), MAXOPBLOCKS)
    ensures Disciplined(DoAppend(s, 1, 128, data), LogWrite(2, 129, data), MAXOPBLOCKS)
  {
  }

  /** And then both append. */
  lemma {:induction false} BothAppend(f: Fine, data: Block) returns (f': Fine)
    requires Inv(f.s) && Filling(f.s, 28) && f.passed == [false, true, true]
    ensures var xs := [Do(LogWrite(1, 128, data)), Do(LogWrite(2, 129, data))];
      FineRun(f, xs) == Gone(f') && WithinLimits(f, xs, MAXOPBLOCKS)
    ensures Overfull(f'.s, data) && f'.s.phase == Ready && |f'.s.ops| == 3 && f'.passed == [false, false, false]
    ensures SameDisk(f.s, f'.s)
  {
    hide FineRun, WithinLimits, Inv, Overfull, Disciplined;
    var x, y := Do(LogWrite(1, 128, data)), Do(LogWrite(2, 129, data));
    var f1 := Fine(DoAppend(f.s, 1, 128, data), [false, false, true]);
    f' := Fine(DoAppend(f1.s, 2, 129, data), [false, false, false]);
    assert f.passed[1 := false] == f1.passed && f1.passed[2 := false] == f'.passed;
    FilledOver(f.s, data);
    BothWithin(f.s, data);
    FineOne(f, x, MAXOPBLOCKS);
    FineOne(f1, y, MAXOPBLOCKS);
    FineConcat(f, [x], [y], MAXOPBLOCKS);
    assert [x] + [y] == [x, y];
  }

  /** The operations end, and commit begins. */
  lemma {:induction false} AllEnd(f: Fine, data: Block) returns (f': Fine)
    requires Overfull(f.s, data) && f.s.phase == Ready && |f.s.ops| == 3 && f.passed == [false, false, false]
    ensures var xs := [Do(End(2)), Do(End(1)), Do(End(0))]; FineRun(f, xs) == Gone(f') && WithinLimits(f, xs, MAXOPBLOCKS)
    ensures Overfull(f'.s, data) && f'.s.phase == CopyLog(0) && SameDisk(f.s, f'.s)
  {
    hide FineRun, WithinLimits;
    var f1 := Fine(DoEnd(f.s, 2), [false, false]);
    var f2 := Fine(DoEnd(f1.s, 1), [false]);
    f' := Fine(DoEnd(f2.s, 0), []);
    assert f.passed[..2] + f.passed[3..] == [false, false];
    assert [false, false][..1] + [false, false][2..] == [false];
    assert [false][..0] + [false][1..] == [];
    FineOne(f, Do(End(2)), MAXOPBLOCKS);
    FineOne(f1, Do(End(1)), MAXOPBLOCKS);
    FineOne(f2, Do(End(0)), MAXOPBLOCKS);
    FineConcat(f1, [Do(End(1))], [Do(End(0))], MAXOPBLOCKS);
    FineConcat(f, [Do(End(2))], [Do(End(1))] + [Do(End(0))], MAXOPBLOCKS);
    assert [Do(End(2))] + ([Do(End(1))] + [Do(End(0))]) == [Do(End(2)), Do(End(1)), Do(End(0))];
  }

  /** write_log writes all thirty blocks, the last of them beyond the log. */
  lemma {:induction false} CopyAll(f: Fine, data: Block, t: nat) returns (xs: seq<FineLabel>, f': Fine)
    requires Overfull(f.s, data) && f.s.phase == CopyLog(t) && t < 30
    ensures FineRun(f, xs) == Gone(f') && WithinLimits(f, xs, MAXOPBLOCKS)
    ensures Overfull(f'.s, data) && f'.s.phase == CommitHead && f'.s.disk[BEYOND] == data
    ensures f'.s.hdr == f.s.hdr && f'.s.committed == f.s.committed && f'.s.base == f.s.base
    decreases 30 - t
  {
    hide FineRun, WithinLimits;
    var f1 := f.(s := DoWrite(f.s));
    FineOne(f, Do(Write), MAXOPBLOCKS);
    if t == 29 {
      xs, f' := [Do(Write)], f1;
    } else {
      var rest;
      rest, f' := CopyAll(f1, data, t + 1);
      xs := [Do(Write)] + rest;
      FineConcat(f, [Do(Write)], rest, MAXOPBLOCKS);
    }
  }

  /** The machine crashes before the header write, and recovers. */
  lemma {:induction false} CrashAndRecover(f: Fine, data: Block) returns (f': Fine)
    requires Overfull(f.s, data)
    ensures var xs := [Do(Crash), Do(ReadHead), Do(Write)]; FineRun(f, xs) == Gone(f') && WithinLimits(f, xs, MAXOPBLOCKS)
    ensures f'.s.phase == Ready && f'.s.disk == f.s.disk && f'.s.committed == f.s.committed && !f'.s.panicked
  {
    hide FineRun, WithinLimits;
    var f1 := Fine(DoCrash(f.s), []);
    var f2 := f1.(s := DoReadHead(f1.s));
    f' := f2.(s := DoWrite(f2.s));
    FineOne(f, Do(Crash), MAXOPBLOCKS);
    FineOne(f1, Do(ReadHead), MAXOPBLOCKS);
    FineOne(f2, Do(Write), MAXOPBLOCKS);
    FineConcat(f1, [Do(ReadHead)], [Do(Write)], MAXOPBLOCKS);
    FineConcat(f, [Do(Crash)], [Do(ReadHead)] + [Do(Write)], MAXOPBLOCKS);
    assert [Do(Crash)] + ([Do(ReadHead)] + [Do(Write)]) == [Do(Crash), Do(ReadHead), Do(Write)];
  }

  /** From every fresh disk: the run to thirty blocks, none of the operations past its ten, and no panic. */
  lemma {:induction false} LogOutgrown(boot: State, data: Block) returns (xs: seq<FineLabel>)
    requires Init(boot)
    ensures Possible(boot, xs, MAXOPBLOCKS)
    ensures Overfull(Final(boot, xs), data) && Final(boot, xs).phase == CopyLog(0) && SameDisk(boot, Final(boot, xs))
  {
    hide Inv, Filling, FineRun, WithinLimits, Overfull, FineStep;
    var xs0 := ToTheBrim(boot, data);
    var f := FineRun(Fresh(boot), xs0).f;
    var xs1, xs2, xs3 := [Check(1), Check(2)], [Do(LogWrite(1, 128, data)), Do(LogWrite(2, 129, data))], [Do(End(2)), Do(End(1)), Do(End(0))];
    BothPass(f);
    var f1 := FineRun(f, xs1).f;
    var f2 := BothAppend(f1, data);
    var f3 := AllEnd(f2, data);
    FineConcat(f1, xs2, xs3, MAXOPBLOCKS);
    FineConcat(f, xs1, xs2 + xs3, MAXOPBLOCKS);
    FineConcat(Fresh(boot), xs0, xs1 + (xs2 + xs3), MAXOPBLOCKS);
    xs := xs0 + (xs1 + (xs2 + xs3));
  }

  /** Main result: a block that no transaction wrote is overwritten with whatever the last log_write logged. */
  lemma {:induction false} OverflowOverwrites(boot: State, data: Block) returns (xs: seq<FineLabel>)
    requires Init(boot)
    ensures Possible(boot, xs, MAXOPBLOCKS) && Home(BEYOND)
    ensures var s := Final(boot, xs);
      s.phase == Ready && !s.panicked && s.committed == [] && |s.disk| == FSSIZE && s.disk[BEYOND] == data
  {
    hide FineRun, WithinLimits, FineStep;
    var xs0 := LogOutgrown(boot, data);
    var f := FineRun(Fresh(boot), xs0).f;
    var xs1, f1 := CopyAll(f, data, 0);
    var f2 := CrashAndRecover(f1, data);
    var xs2 := [Do(Crash), Do(ReadHead), Do(Write)];
    FineConcat(f, xs1, xs2, MAXOPBLOCKS);
    FineConcat(Fresh(boot), xs0, xs1 + xs2, MAXOPBLOCKS);
    xs := xs0 + (xs1 + xs2);
  }

  // ------------------------------------------------------ exact conditions

  lemma {:induction false} LaxerLimits(f: Fine, xs: seq<FineLabel>, limit: nat)
    requires WithinLimits(f, xs, MAXOPBLOCKS) && MAXOPBLOCKS <= limit
    ensures WithinLimits(f, xs, limit)
    decreases |xs|
  {
    hide FineStep;
    if xs != [] && FineStep(f, xs[0]).Gone? {
      LaxerLimits(FineStep(f, xs[0]).f, xs[1..], limit);
    }
  }

  /** The log stays within its blocks on the disk. */
  ghost predicate NeverOutgrown(boot: State, limit: nat) {
    forall xs :: Possible(boot, xs, limit) ==> |Final(boot, xs).lh| < NLOG
  }

  /** Whenever the system is up, every home block is that of the committed transactions. */
  ghost predicate CrashSafe(boot: State, limit: nat) {
    forall xs, b: nat {:trigger Possible(boot, xs, limit), Home(b)} ::
      Possible(boot, xs, limit) && Final(boot, xs).phase == Ready && Home(b) ==>
        b < |Final(boot, xs).disk| && b < |boot.disk|
        && Final(boot, xs).disk[b] == ApplyAll(boot.disk, Final(boot, xs).committed)[b]
  }

  ghost predicate FineNeverPanics(boot: State, limit: nat) {
    forall xs :: Possible(boot, xs, limit) ==> !Final(boot, xs).panicked
  }

  /** A bound on the blocks per operation keeps the log within its blocks exactly when it is below MAXOPBLOCKS. */
  lemma {:induction false} OutgrownExactly(boot: State, limit: nat)
    requires Init(boot)
    ensures NeverOutgrown(boot, limit) <==> limit < MAXOPBLOCKS
  {
    hide Inv, Possible, Final;
    if limit < MAXOPBLOCKS {
      forall xs | Possible(boot, xs, limit) ensures |Final(boot, xs).lh| < NLOG {
        PossibleReduces(boot, xs, limit);
      }
    } else {
      var xs := LogOutgrown(boot, ZEROS);
      PossibleLaxer(boot, xs, limit);
      assert |Final(boot, xs).lh| == 30;
    }
  }

  lemma {:induction false} PossibleLaxer(boot: State, xs: seq<FineLabel>, limit: nat)
    requires Possible(boot, xs, MAXOPBLOCKS) && MAXOPBLOCKS <= limit
    ensures Possible(boot, xs, limit)
  {
    LaxerLimits(Fresh(boot), xs, limit);
  }

  const ZEROS: Block := seq(BSIZE, _ => 0)
  const ONES: Block := seq(BSIZE, _ => 1)

  /** Main result: the log is crash-safe exactly when the bound on the blocks per operation is below MAXOPBLOCKS. */
  lemma {:induction false} CrashSafeExactly(boot: State, limit: nat)
    requires Init(boot)
    ensures CrashSafe(boot, limit) <==> limit < MAXOPBLOCKS
  {
    hide Inv, Possible, Final;
    if limit < MAXOPBLOCKS {
      forall xs, b: nat | Possible(boot, xs, limit) && Final(boot, xs).phase == Ready && Home(b)
        ensures b < |Final(boot, xs).disk| && b < |boot.disk|
          && Final(boot, xs).disk[b] == ApplyAll(boot.disk, Final(boot, xs).committed)[b]
      {
        FineHomeIsCommitted(boot, xs, limit, b);
      }
    } else {
      var data := if boot.disk[BEYOND] == ZEROS then ONES else ZEROS;
      assert ZEROS[0] != ONES[0];
      var xs := OverflowOverwrites(boot, data);
      PossibleLaxer(boot, xs, limit);
      assert ApplyAll(boot.disk, [])[BEYOND] == boot.disk[BEYOND];
    }
  }

  /** And so it is with the panic of log_write. */
  lemma {:induction false} FinePanicExactly(boot: State, limit: nat)
    requires Init(boot)
    ensures FineNeverPanics(boot, limit) <==> limit < MAXOPBLOCKS
  {
    hide Inv;
    if limit < MAXOPBLOCKS {
      forall xs | Possible(boot, xs, limit) ensures !Final(boot, xs).panicked {
        PossibleReduces(boot, xs, limit);
      }
    } else {
      PanicExactly(boot, limit);
      var ls :| DisciplinedRun(boot, ls, limit) && Run(boot, ls).Went? && Run(boot, ls).s.panicked;
      ExpandRuns(Fresh(boot), ls, limit);
      assert Possible(boot, Expand(boot, ls), limit);
    }
  }
}
