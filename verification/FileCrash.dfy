/**
 filewrite on top of the log. Each of its transactions is a begin_op, the calls
 of log_write that writei makes, and an end_op, and the block writes of commit
 follow. The machine crashes anywhere and recovers: the file then holds a prefix
 of the chunks, and no other file has changed.
 */
module FileCrash {
  import opened Params
  import opened Sets
  import opened Bytes
  import opened Stores
  import opened FsLayout
  import opened FsInodes
  import opened FileIo
  import opened LogMachine
  import opened LogTheorems
  import opened LogFine
  import LogAtomic

  // ------------------------------------------------------ the calls that filewrite makes

  function LogWrites(ws: seq<Store>): seq<Label>
    decreases |ws|
  {
    if ws == [] then [] else [Label.LogWrite(0, ws[0].b, ws[0].data)] + LogWrites(ws[1..])
  }

  function Program(txns: seq<seq<Store>>): seq<Label>
    decreases |txns|
  {
    if txns == [] then [] else [Begin] + (LogWrites(txns[0]) + ([End(0)] + Program(txns[1..])))
  }

  /** The steps that are calls into the log, without the block writes of commit. */
  function Calls(ls: seq<Label>): seq<Label>
    decreases |ls|
  {
    if ls == [] then [] else (if ls[0] == Write then [] else [ls[0]]) + Calls(ls[1..])
  }

  /** No operation is in progress and nothing is logged. */
  ghost predicate Quiet(s: State) {
    s.phase == Ready && s.ops == [] && s.lh == [] && s.cache == map[] && !s.panicked
  }

  /** How far the transactions have got. */
  datatype Position = Between(k: nat) | Inside(k: nat, m: nat) | Committing(k: nat) | Installing(k: nat)

  /** The calls that are still to come. */
  function Rest(txns: seq<seq<Store>>, p: Position): seq<Label>
    requires p.k <= |txns|
  {
    match p
    case Between(k) => Program(txns[k..])
    case Inside(k, m) =>
      if k < |txns| && m <= |txns[k]| then LogWrites(txns[k][m..]) + ([End(0)] + Program(txns[k + 1..])) else []
    case Committing(k) => if k < |txns| then Program(txns[k + 1..]) else []
    case Installing(k) => if k < |txns| then Program(txns[k + 1..]) else []
  }

  /** The transactions that have ended. */
  function Ended(p: Position): nat {
    if p.Committing? || p.Installing? then p.k + 1 else p.k
  }

  ghost predicate AtPosition(s: State, base: seq<Block>, txns: seq<seq<Store>>, p: Position) {
    && p.k <= |txns|
    && Spec(s) == ReplayAll(base, txns[..if p.Installing? && p.k < |txns| then p.k + 1 else p.k])
    && match p
       case Between(k) => Quiet(s)
       case Inside(k, m) =>
         && k < |txns| && m <= |txns[k]| && s.phase == Ready && |s.ops| == 1 && s.ops[0] <= Blocks(txns[k])
         && (s.panicked || s.cache == Contents(txns[k][..m]))
       case Committing(k) => k < |txns| && (s.phase.CopyLog? || s.phase.CommitHead?) && s.cache == Contents(txns[k])
       case Installing(k) => k < |txns| && (s.phase.Install? || s.phase.ClearHead?)
  }

  lemma {:induction false} NextTxn(base: seq<Block>, txns: seq<seq<Store>>, k: nat)
    requires k < |txns|
    ensures ReplayAll(base, txns[..k + 1]) == Replay(ReplayAll(base, txns[..k]), txns[k])
  {
    assert txns[..k + 1] == txns[..k] + [txns[k]];
    ReplayAllAppend(base, txns[..k], txns[k]);
  }

  /** The header write commits the transaction. */
  lemma {:induction false} HeadMoves(s: State, base: seq<Block>, txns: seq<seq<Store>>, k: nat)
    requires Inv(s) && AtPosition(s, base, txns, Committing(k)) && CanWrite(s) && s.phase.CommitHead?
    ensures AtPosition(DoWrite(s), base, txns, Installing(k))
  {
    hide Inv, Spec, Contents, Replay, ReplayAll;
    KeepCommitHead(s);
    LogAtomic.ReplayGroup(Spec(s), txns[k]);
    NextTxn(base, txns, k);
  }

  lemma {:induction false} CommitMoves(s: State, base: seq<Block>, txns: seq<seq<Store>>, k: nat) returns (p: Position)
    requires Inv(s) && AtPosition(s, base, txns, Committing(k)) && CanWrite(s)
    ensures p.k <= |txns| && AtPosition(DoWrite(s), base, txns, p) && Rest(txns, p) == Rest(txns, Committing(k))
    ensures p == Committing(k) || p == Installing(k)
  {
    hide Inv, ApplyAll, Contents, ReplayAll, Program;
    if s.phase.CommitHead? {
      HeadMoves(s, base, txns, k);
      p := Installing(k);
    } else {
      p := Committing(k);
    }
  }

  lemma {:induction false} InstallMoves(s: State, base: seq<Block>, txns: seq<seq<Store>>, k: nat) returns (p: Position)
    requires Inv(s) && AtPosition(s, base, txns, Installing(k)) && CanWrite(s)
    ensures p.k <= |txns| && AtPosition(DoWrite(s), base, txns, p) && Rest(txns, p) == Rest(txns, Installing(k))
    ensures p == Installing(k) || p == Between(k + 1)
  {
    hide Recovers, HeadOk, AllHome, Distinct, Contents, Replay, ReplayAll, Program;
    p := if s.phase.ClearHead? then Between(k + 1) else Installing(k);
  }

  lemma {:induction false} BeginMoves(s: State, base: seq<Block>, txns: seq<seq<Store>>, k: nat)
    requires AtPosition(s, base, txns, Between(k)) && k < |txns|
    ensures AtPosition(DoBegin(s), base, txns, Inside(k, 0))
    ensures var rest := Rest(txns, Between(k)); rest != [] && rest[0] == Begin && rest[1..] == Rest(txns, Inside(k, 0))
  {
    assert txns[k..][0] == txns[k] && txns[k..][1..] == txns[k + 1..];
    assert txns[k][0..] == txns[k] && txns[k][..0] == [];
  }

  lemma {:induction false} LogMoves(s: State, base: seq<Block>, txns: seq<seq<Store>>, k: nat, m: nat)
    requires AtPosition(s, base, txns, Inside(k, m)) && m < |txns[k]| && CanLogWrite(s, 0, txns[k][m].b) && !s.panicked
    ensures var w := txns[k][m];
      && AtPosition(DoLogWrite(s, 0, w.b, w.data), base, txns, Inside(k, m + 1))
      && var rest := Rest(txns, Inside(k, m));
        rest != [] && rest[0] == Label.LogWrite(0, w.b, w.data) && rest[1..] == Rest(txns, Inside(k, m + 1))
  {
    hide Contents, Replay, ReplayAll, Program;
    var ws, w := txns[k], txns[k][m];
    assert ws[..m + 1] == ws[..m] + [w];
    ContentsAppend(ws[..m], w);
    assert ws[m..][0] == w && ws[m..][1..] == ws[m + 1..];
  }

  lemma {:induction false} EndMoves(s: State, base: seq<Block>, txns: seq<seq<Store>>, k: nat, m: nat) returns (p: Position)
    requires Inv(s) && AtPosition(s, base, txns, Inside(k, m)) && m == |txns[k]| && CanEnd(s, 0) && !s.panicked
    ensures p.k <= |txns| && AtPosition(DoEnd(s, 0), base, txns, p) && (p == Between(k + 1) || p == Committing(k))
    ensures var rest := Rest(txns, Inside(k, m)); rest != [] && rest[0] == End(0) && rest[1..] == Rest(txns, p)
  {
    hide Recovers, HeadOk, AllHome, Distinct, Contents, ReplayAll, Program;
    var ws := txns[k];
    assert ws[m..] == [] && ws[..m] == ws;
    ContentsEmpty(ws);
    assert Elems(s.lh) == {} <==> s.lh == [] by {
      if s.lh != [] {
        assert s.lh[0] in Elems(s.lh);
      }
    }
    if s.lh == [] {
      NextTxn(base, txns, k);
      p := Between(k + 1);
    } else {
      p := Committing(k);
    }
  }

  lemma {:induction false} WriteMoves(s: State, base: seq<Block>, txns: seq<seq<Store>>, p: Position) returns (p': Position)
    requires Inv(s) && AtPosition(s, base, txns, p) && Step(s, Write).Went?
    ensures p'.k <= |txns| && AtPosition(Step(s, Write).s, base, txns, p') && Rest(txns, p') == Rest(txns, p)
    ensures p' == Between(p.k + 1) || (p'.k == p.k && (p'.Committing? || p'.Installing?))
    ensures Ended(p') == Ended(p)
  {
    hide Inv, Contents, ReplayAll, Program, Rest, Spec, DoWrite;
    match p
    case Committing(k) => p' := CommitMoves(s, base, txns, k);
    case Installing(k) => p' := InstallMoves(s, base, txns, k);
  }

  lemma {:induction false} CallMoves(s: State, base: seq<Block>, txns: seq<seq<Store>>, p: Position, l: Label) returns (p': Position)
    requires Inv(s) && AtPosition(s, base, txns, p) && Rest(txns, p) != [] && l == Rest(txns, p)[0] && l != Write && Step(s, l).Went?
    ensures p'.k <= |txns| && AtPosition(Step(s, l).s, base, txns, p') && Rest(txns, p') == Rest(txns, p)[1..]
    ensures Ended(p') == Ended(p) + if l.End? then 1 else 0
  {
    hide Inv, Contents, ReplayAll, Spec, DoEnd, DoLogWrite, DoBegin;
    match p
    case Between(k) =>
      BeginMoves(s, base, txns, k);
      p' := Inside(k, 0);
    case Inside(k, m) =>
      if m < |txns[k]| {
        assert txns[k][m..][0] == txns[k][m];
        LogMoves(s, base, txns, k, m);
        p' := Inside(k, m + 1);
      } else {
        p' := EndMoves(s, base, txns, k, m);
      }
    case _ =>
      RestBegins(txns, p);
      assert false;
  }

  lemma {:induction false} RestBegins(txns: seq<seq<Store>>, p: Position)
    requires p.k < |txns| && (p.Committing? || p.Installing?) && Rest(txns, p) != []
    ensures Rest(txns, p)[0] == Begin
  {
  }

  function Ends(ls: seq<Label>): nat
    decreases |ls|
  {
    if ls == [] then 0 else (if ls[0].End? then 1 else 0) + Ends(ls[1..])
  }

  /** Of the transactions that have ended, the last is not yet committed. */
  function Uncommitted(s: State): nat {
    if s.phase.CopyLog? || s.phase.CommitHead? then 1 else 0
  }

  /** Along the calls, what recovery would restore is always the transactions that have ended and passed their header write. */
  lemma {:induction false} Track(s: State, base: seq<Block>, txns: seq<seq<Store>>, p: Position, ls: seq<Label>) returns (k: nat)
    requires Inv(s) && AtPosition(s, base, txns, p) && Run(s, ls).Went? && Calls(ls) <= Rest(txns, p)
    ensures k <= |txns| && Spec(Run(s, ls).s) == ReplayAll(base, txns[..k])
    ensures k + Uncommitted(Run(s, ls).s) == Ended(p) + Ends(ls)
    decreases |ls|
  {
    hide Inv, Step, Spec, ReplayAll, Rest;
    if ls == [] {
      k := if p.Installing? && p.k < |txns| then p.k + 1 else p.k;
    } else {
      KeepStep(s, ls[0]);
      var p';
      if ls[0] == Write {
        p' := WriteMoves(s, base, txns, p);
      } else {
        assert Calls(ls)[0] == ls[0] && Calls(ls)[1..] == Calls(ls[1..]);
        p' := CallMoves(s, base, txns, p, ls[0]);
      }
      k := Track(Step(s, ls[0]).s, base, txns, p', ls[1..]);
    }
  }

  // ------------------------------------------------------ without a crash

  lemma {:induction false} CallsConcat(xs: seq<Label>, ys: seq<Label>)
    ensures Calls(xs + ys) == Calls(xs) + Calls(ys)
    decreases |xs|
  {
    if xs == [] {
      assert xs + ys == ys;
    } else {
      assert (xs + ys)[0] == xs[0] && (xs + ys)[1..] == xs[1..] + ys;
      CallsConcat(xs[1..], ys);
    }
  }

  lemma {:induction false} RunConcat(s: State, xs: seq<Label>, ys: seq<Label>)
    requires Run(s, xs).Went?
    ensures Run(s, xs + ys) == Run(Run(s, xs).s, ys)
    decreases |xs|
  {
    hide Step;
    if xs == [] {
      assert xs + ys == ys;
    } else {
      assert (xs + ys)[0] == xs[0] && (xs + ys)[1..] == xs[1..] + ys;
      RunConcat(Step(s, xs[0]).s, xs[1..], ys);
    }
  }

  /** The block writes left until the log is quiet again. */
  ghost function WritesLeft(s: State): nat {
    match s.phase
    case CopyLog(t) => if t <= |s.lh| then 2 * |s.lh| - t + 2 else 0
    case CommitHead => |s.lh| + 2
    case Install(t) => if t <= |s.lh| then |s.lh| - t + 1 else 0
    case ClearHead => 1
    case _ => 0
  }

  lemma {:induction false} CommitProgress(s: State)
    requires Inv(s) && (s.phase.CopyLog? || s.phase.CommitHead? || s.phase.Install? || s.phase.ClearHead?)
    ensures Step(s, Write).Went? && WritesLeft(Step(s, Write).s) < WritesLeft(s)
  {
    hide Recovers, HeadOk, AllHome, Distinct, Installed;
    if s.phase.CopyLog? {
      KeepCopyLog(s);
    } else if s.phase.Install? {
      KeepInstall(s);
    }
  }

  lemma {:induction false} CommitCompletes(s: State, base: seq<Block>, txns: seq<seq<Store>>, p: Position) returns (ls: seq<Label>)
    requires Inv(s) && AtPosition(s, base, txns, p) && p.k < |txns| && (p.Committing? || p.Installing?)
    ensures Run(s, ls).Went? && Calls(ls) == [] && AtPosition(Run(s, ls).s, base, txns, Between(p.k + 1))
    decreases WritesLeft(s)
  {
    hide Inv, Step, Spec, ReplayAll, Contents, Quiet;
    CommitProgress(s);
    KeepStep(s, Write);
    var s' := Step(s, Write).s;
    var p' := WriteMoves(s, base, txns, p);
    if p'.Between? {
      ls := [Write];
      assert Run(s', ls[1..]) == Went(s');
    } else {
      var rest := CommitCompletes(s', base, txns, p');
      ls := [Write] + rest;
      RunStep(s, Write, rest);
      assert ls[1..] == rest;
    }
  }

  lemma {:induction false} ContentsWithin(ws: seq<Store>, m: nat)
    requires m <= |ws|
    ensures Contents(ws[..m]).Keys <= Blocks(ws)
  {
    hide Contents;
    forall b | b in Contents(ws[..m]) ensures b in Blocks(ws) {
      ContentsKeys(ws[..m], b);
      var i :| 0 <= i < |ws[..m]| && ws[..m][i].b == b;
      assert ws[i] in ws;
    }
  }

  /** A transaction of filewrite has room in a log that was empty. */
  lemma {:induction false} LogRoom(s: State, base: seq<Block>, txns: seq<seq<Store>>, k: nat, m: nat)
    requires Inv(s) && AtPosition(s, base, txns, Inside(k, m)) && !s.panicked && SmallTxn(txns[k])
    ensures |s.lh| <= CHUNK_BLOCKS
  {
    hide Recovers, HeadOk, AllHome, Contents, ReplayAll;
    LogAtomic.DistinctCount(s.lh);
    ContentsWithin(txns[k], m);
    Subset(Elems(s.lh), Blocks(txns[k]));
  }

  lemma {:induction false} LogAll(s: State, base: seq<Block>, txns: seq<seq<Store>>, k: nat, m: nat) returns (ls: seq<Label>)
    requires Inv(s) && AtPosition(s, base, txns, Inside(k, m)) && !s.panicked && SmallTxn(txns[k])
    ensures Run(s, ls).Went? && Calls(ls) == LogWrites(txns[k][m..])
    ensures Inv(Run(s, ls).s) && AtPosition(Run(s, ls).s, base, txns, Inside(k, |txns[k]|)) && !Run(s, ls).s.panicked
    decreases |txns[k]| - m
  {
    hide Inv, Spec, ReplayAll, Contents, SmallTxn;
    if m == |txns[k]| {
      ls := [];
    } else {
      var w := txns[k][m];
      var l := Label.LogWrite(0, w.b, w.data);
      LogRoom(s, base, txns, k, m);
      assert Home(w.b) by { assert w in txns[k]; SmallHome(txns[k], w); }
      LogMoves(s, base, txns, k, m);
      KeepStep(s, l);
      var rest := LogAll(Step(s, l).s, base, txns, k, m + 1);
      ls := [l] + rest;
      RunStep(s, l, rest);
      assert ls[1..] == rest && txns[k][m..][1..] == txns[k][m + 1..];
    }
  }

  lemma {:induction false} SmallHome(ws: seq<Store>, w: Store)
    requires SmallTxn(ws) && w in ws
    ensures Home(w.b)
  {
  }

  lemma {:induction false} BeginGoes(s: State, base: seq<Block>, txns: seq<seq<Store>>, k: nat)
    requires AtPosition(s, base, txns, Between(k))
    ensures Step(s, Begin) == Went(DoBegin(s)) && !DoBegin(s).panicked
  {
  }

  lemma {:induction false} EndGoes(s: State, base: seq<Block>, txns: seq<seq<Store>>, k: nat, m: nat)
    requires AtPosition(s, base, txns, Inside(k, m)) && !s.panicked
    ensures CanEnd(s, 0) && Step(s, End(0)) == Went(DoEnd(s, 0))
  {
  }

  lemma {:induction false} OneTxn(s: State, base: seq<Block>, txns: seq<seq<Store>>, k: nat) returns (ls: seq<Label>)
    requires Inv(s) && AtPosition(s, base, txns, Between(k)) && k < |txns| && SmallTxn(txns[k])
    ensures Run(s, ls).Went? && Calls(ls) == [Begin] + (LogWrites(txns[k]) + [End(0)])
    ensures Inv(Run(s, ls).s) && AtPosition(Run(s, ls).s, base, txns, Between(k + 1))
  {
    hide Inv, Spec, ReplayAll, Contents, SmallTxn, Run, Calls, Step, DoBegin, DoEnd, AtPosition, LogWrites, CanEnd, Rest;
    BeginMoves(s, base, txns, k);
    BeginGoes(s, base, txns, k);
    KeepStep(s, Begin);
    var s1 := DoBegin(s);
    var xs := LogAll(s1, base, txns, k, 0);
    var s2 := Run(s1, xs).s;
    EndGoes(s2, base, txns, k, |txns[k]|);
    KeepStep(s2, End(0));
    var p := EndMoves(s2, base, txns, k, |txns[k]|);
    var s3 := DoEnd(s2, 0);
    var ys := [];
    if p.Committing? {
      ys := CommitCompletes(s3, base, txns, p);
    } else {
      RunNothing(s3);
    }
    assert txns[k][0..] == txns[k];
    ls := Joined(s, s1, s2, s3, xs, ys);
    RunInv(s, ls);
  }

  lemma {:induction false} RunNothing(s: State)
    ensures Run(s, []) == Went(s) && Calls([]) == []
  {
  }

  lemma {:induction false} Joined(s: State, s1: State, s2: State, s3: State, xs: seq<Label>, ys: seq<Label>) returns (ls: seq<Label>)
    requires Step(s, Begin) == Went(s1) && Run(s1, xs) == Went(s2) && Step(s2, End(0)) == Went(s3) && Run(s3, ys).Went?
    ensures Run(s, ls) == Run(s3, ys) && Calls(ls) == [Begin] + (Calls(xs) + ([End(0)] + Calls(ys)))
  {
    hide Step;
    ls := [Begin] + (xs + ([End(0)] + ys));
    RunStep(s, Begin, xs + ([End(0)] + ys));
    RunConcat(s1, xs, [End(0)] + ys);
    RunStep(s2, End(0), ys);
    CallsConcat([Begin], xs + ([End(0)] + ys));
    CallsConcat(xs, [End(0)] + ys);
    CallsConcat([End(0)], ys);
    CallsOne(Begin);
    CallsOne(End(0));
  }

  lemma {:induction false} CallsOne(l: Label)
    requires l != Write
    ensures Calls([l]) == [l]
  {
    assert Calls([l][1..]) == [];
  }

  /** Without a crash all the transactions go through, and the log holds them all. */
  lemma {:induction false} AllWritten(s: State, base: seq<Block>, txns: seq<seq<Store>>, k: nat) returns (ls: seq<Label>)
    requires Inv(s) && AtPosition(s, base, txns, Between(k)) && forall t :: 0 <= t < |txns| ==> SmallTxn(txns[t])
    ensures Run(s, ls).Went? && Calls(ls) == Program(txns[k..])
    ensures Quiet(Run(s, ls).s) && Spec(Run(s, ls).s) == ReplayAll(base, txns)
    decreases |txns| - k
  {
    hide Inv, Spec, ReplayAll, SmallTxn, LogWrites;
    if k == |txns| {
      ls := [];
      assert txns[..k] == txns;
    } else {
      var xs := OneTxn(s, base, txns, k);
      var ys := AllWritten(Run(s, xs).s, base, txns, k + 1);
      ls := xs + ys;
      RunConcat(s, xs, ys);
      CallsConcat(xs, ys);
      assert txns[k..][0] == txns[k] && txns[k..][1..] == txns[k + 1..];
    }
  }

  // ------------------------------------------------------ crash and recovery

  predicate RecoveryStep(l: Label) {
    l == Crash || l == ReadHead || l == Write
  }

  ghost predicate Recovering(s: State) {
    s.phase.Booting? || s.phase.Reinstall? || s.phase.Reclear? || s.phase.Ready?
  }

  lemma {:induction false} RecoveryStepKeeps(s: State, l: Label)
    requires RecoveryStep(l) && Step(s, l).Went? && (Recovering(s) || l == Crash)
    ensures Recovering(Step(s, l).s) && Spec(Step(s, l).s) == Spec(s)
  {
  }

  /** Recovery, interrupted by any number of further crashes, changes nothing that was committed. */
  lemma {:induction false} RecoveryKeeps(s: State, ls: seq<Label>)
    requires Inv(s) && Run(s, ls).Went? && (Recovering(s) || (ls != [] && ls[0] == Crash))
    requires forall i :: 0 <= i < |ls| ==> RecoveryStep(ls[i])
    ensures Inv(Run(s, ls).s) && Spec(Run(s, ls).s) == Spec(s)
    decreases |ls|
  {
    hide Inv, Step, Spec, Recovering, RecoveryStep;
    if ls != [] {
      KeepStep(s, ls[0]);
      RecoveryStepKeeps(s, ls[0]);
      RecoveryKeeps(Step(s, ls[0]).s, ls[1..]);
    }
  }

  lemma {:induction false} ReplaySame(disk: seq<Block>, disk': seq<Block>, ws: seq<Store>, b: nat)
    requires b < |disk| == |disk'| && disk[b] == disk'[b]
    ensures Replay(disk, ws)[b] == Replay(disk', ws)[b]
    decreases |ws|
  {
    if ws != [] {
      ReplaySame(disk, disk', ws[..|ws| - 1], b);
    }
  }

  lemma {:induction false} ReplayAllSame(disk: seq<Block>, disk': seq<Block>, txns: seq<seq<Store>>, b: nat)
    requires b < |disk| == |disk'| && disk[b] == disk'[b]
    ensures ReplayAll(disk, txns)[b] == ReplayAll(disk', txns)[b]
    decreases |txns|
  {
    if txns != [] {
      var n := |txns| - 1;
      ReplayAllSame(disk, disk', txns[..n], b);
      ReplaySame(ReplayAll(disk, txns[..n]), ReplayAll(disk', txns[..n]), txns[n], b);
    }
  }

  /** The crash in a run whose log_write is one step. */
  lemma {:induction false} PrefixKept(
      s: State, blocks: seq<Block>, files: seq<seq<Byte>>, i: nat, off: nat, src: seq<Byte>, w: nat, txns: seq<seq<Store>>,
      ls: seq<Label>, recovery: seq<Label>) returns (k: nat)
    requires Inv(s) && Quiet(s) && |blocks| == FSSIZE == |s.disk| && forall b: nat :: INODESTART <= b < FSSIZE ==> s.disk[b] == blocks[b]
    requires w <= |src| && Chunked(blocks, files, i, off, src, w, txns)
    requires Run(s, ls).Went? && Calls(ls) <= Program(txns)
    requires recovery != [] && recovery[0] == Crash && forall n :: 0 <= n < |recovery| ==> RecoveryStep(recovery[n])
    requires var end := Run(Run(s, ls).s, recovery); end.Went? && end.s.phase.Ready?
    ensures k <= |txns| && k + Uncommitted(Run(s, ls).s) == Ends(ls)
    ensures Stored(Run(Run(s, ls).s, recovery).s.disk, After(files, i, off, src[..Cut(k, w)]))
  {
    hide Inv, Spec, Stored, After, Step, Run, Recovering, RecoveryStep;
    ReadyFacts(s);
    assert txns[0..] == txns && txns[..0] == [];
    k := Track(s, Spec(s), txns, Between(0), ls);
    RunInv(s, ls);
    var s1 := Run(s, ls).s;
    RecoveryKeeps(s1, recovery);
    var s2 := Run(s1, recovery).s;
    ReadyFacts(s2);
    forall b: nat | INODESTART <= b < FSSIZE ensures s2.disk[b] == ReplayAll(blocks, txns[..k])[b] {
      assert Home(b);
      ReplayAllSame(Spec(s), blocks, txns[..k], b);
    }
    StoredSame(ReplayAll(blocks, txns[..k]), s2.disk, After(files, i, off, src[..Cut(k, w)]));
  }

  /** The next call of a transaction of filewrite keeps it within seven blocks. */
  lemma {:induction false} CallWithin(s: State, base: seq<Block>, txns: seq<seq<Store>>, p: Position, l: Label)
    requires AtPosition(s, base, txns, p) && Rest(txns, p) != [] && l == Rest(txns, p)[0]
    requires forall t :: 0 <= t < |txns| ==> SmallTxn(txns[t])
    ensures Disciplined(s, l, CHUNK_BLOCKS)
  {
    hide Contents, ReplayAll, Spec;
    if p.Inside? && p.m < |txns[p.k]| {
      var w := txns[p.k][p.m];
      assert txns[p.k][p.m..][0] == w && w in txns[p.k];
      Subset(s.ops[0] + {w.b}, Blocks(txns[p.k]));
    }
  }

  lemma {:induction false} TxnsWithin(f: Fine, base: seq<Block>, txns: seq<seq<Store>>, p: Position, xs: seq<FineLabel>)
    requires Steady(f, CHUNK_BLOCKS) && AtPosition(f.s, base, txns, p) && FineRun(f, xs).Gone?
    requires Calls(Merged(xs)) <= Rest(txns, p) && forall t :: 0 <= t < |txns| ==> SmallTxn(txns[t])
    ensures WithinLimits(f, xs, CHUNK_BLOCKS)
    decreases |xs|
  {
    hide Steady, FineStep, Step, AtPosition, Rest, SmallTxn, Disciplined;
    if xs != [] {
      var x, f' := xs[0], FineStep(f, xs[0]).f;
      var p' := p;
      SteadyInv(f, CHUNK_BLOCKS);
      if x.Check? {
        OneStep(f, x, CHUNK_BLOCKS);
        assert Merged(xs) == Merged(xs[1..]);
      } else {
        assert Merged(xs)[0] == x.l && Merged(xs)[1..] == Merged(xs[1..]);
        if x.l == Write {
          NoLimit(f.s, Write);
          OneStep(f, x, CHUNK_BLOCKS);
          p' := WriteMoves(f.s, base, txns, p);
        } else {
          assert Calls(Merged(xs))[0] == x.l && Calls(Merged(xs))[1..] == Calls(Merged(xs[1..]));
          CallWithin(f.s, base, txns, p, x.l);
          OneStep(f, x, CHUNK_BLOCKS);
          p' := CallMoves(f.s, base, txns, p, x.l);
        }
      }
      TxnsWithin(f', base, txns, p', xs[1..]);
    }
  }

  lemma {:induction false} NoLimit(s: State, l: Label)
    requires !l.LogWrite?
    ensures Disciplined(s, l, CHUNK_BLOCKS)
  {
  }

  /**
   Main result: filewrite is interrupted by a crash anywhere, between the test
   and the append of a log_write, at any other call into the log or between two
   block writes, and the machine recovers, with further crashes or without. The
   disk then holds the file with as many of the chunks written, in order and
   whole, as have passed the header write of their transaction, and every other
   file as it was.
   */
  lemma {:induction false} CrashKeepsPrefix(
      s: State, blocks: seq<Block>, files: seq<seq<Byte>>, i: nat, off: nat, src: seq<Byte>, w: nat, txns: seq<seq<Store>>,
      xs: seq<FineLabel>, recovery: seq<Label>) returns (k: nat)
    requires Inv(s) && Quiet(s) && |blocks| == FSSIZE == |s.disk| && forall b: nat :: INODESTART <= b < FSSIZE ==> s.disk[b] == blocks[b]
    requires w <= |src| && Chunked(blocks, files, i, off, src, w, txns) && forall t :: 0 <= t < |txns| ==> SmallTxn(txns[t])
    requires FineRun(Fine(s, []), xs).Gone? && Calls(Merged(xs)) <= Program(txns)
    requires recovery != [] && recovery[0] == Crash && forall n :: 0 <= n < |recovery| ==> RecoveryStep(recovery[n])
    requires var end := Run(FineRun(Fine(s, []), xs).f.s, recovery); end.Went? && end.s.phase.Ready?
    ensures var crashed := FineRun(Fine(s, []), xs).f.s;
      && k <= |txns| && k + Uncommitted(crashed) == Ends(Merged(xs))
      && Stored(Run(crashed, recovery).s.disk, After(files, i, off, src[..Cut(k, w)]))
  {
    hide Inv, Spec, Stored, After, Step, Run, Recovering, RecoveryStep, FineRun, Steady, Chunked, SmallTxn, WithinLimits;
    QuietSteady(s);
    assert txns[0..] == txns && txns[..0] == [];
    TxnsWithin(Fine(s, []), Spec(s), txns, Between(0), xs);
    Reduces(Fine(s, []), xs, CHUNK_BLOCKS);
    k := PrefixKept(s, blocks, files, i, off, src, w, txns, Merged(xs), recovery);
  }

  lemma {:induction false} QuietSteady(s: State)
    requires Inv(s) && Quiet(s)
    ensures Steady(Fine(s, []), CHUNK_BLOCKS)
  {
  }
}
