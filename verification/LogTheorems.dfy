/**
 Crash safety of the log: what recovery restores, over every run with crashes
 anywhere, and how much of the log the operations can fill.
 */
module LogTheorems {
  import opened Params
  import opened Sets
  import opened Bytes
  import opened LogMachine

  // ------------------------------------------------------ steps keep the invariant

  lemma {:induction false} KeepLogWrite(s: State, op: nat, b: nat, data: Block)
    requires Inv(s) && CanLogWrite(s, op, b)
    ensures Inv(DoLogWrite(s, op, b, data))
  {
    var s' := DoLogWrite(s, op, b, data);
    if !s'.panicked || s.panicked {
      assert s'.cache.Keys == Elems(s'.lh);
    }
  }

  lemma {:induction false} KeepCopyLog(s: State)
    requires Inv(s) && s.phase.CopyLog?
    ensures CanWrite(s) && Inv(DoWrite(s))
  {
    var t := s.phase.tail;
    assert s.lh[t] in s.cache.Keys;
    assert Named(s.hdr) == [];
  }

  lemma {:induction false} ApplyLast(disk: seq<Block>, ts: seq<Txn>, t: Txn)
    ensures ApplyAll(disk, ts + [t]) == Apply(ApplyAll(disk, ts), t)
  {
    assert (ts + [t])[..|ts + [t]| - 1] == ts;
  }

  /** The commit point: before this write recovery yields the old contents, after it the new. */
  lemma {:induction false} KeepCommitHead(s: State)
    requires Inv(s) && s.phase.CommitHead?
    ensures CanWrite(s) && Inv(DoWrite(s))
    ensures Spec(DoWrite(s)) == Apply(Spec(s), s.cache)
  {
    var s' := DoWrite(s);
    ApplyLast(s.base, s.committed, s.cache);
    assert Named(s'.hdr) == s.lh;
    assert Named(s.hdr) == [];
    forall b: nat | Home(b) && b !in s.lh ensures s'.disk[b] == Spec(s')[b] {
      assert b !in s.cache.Keys;
    }
  }

  /** Copying a logged block home changes nothing that recovery will see. */
  lemma {:induction false} InstallRecovers(disk: seq<Block>, bs: seq<nat>, spec: seq<Block>, t: nat)
    requires Recovers(disk, bs, spec) && t < |bs| && AllHome(bs)
    ensures Recovers(disk[bs[t] := disk[LOGSTART + 1 + t]], bs, spec)
  {
    assert Home(bs[t]) && bs[t] in bs;
  }

  lemma {:induction false} InstallProgress(s: State)
    requires Inv(s) && (s.phase.Install? || s.phase.Reinstall?)
    ensures CanWrite(s) && Installed(DoWrite(s), s.phase.tail + 1)
  {
    hide Recovers, HeadOk, CacheOk;
    var t := s.phase.tail;
    assert Home(s.lh[t]);
    forall i | 0 <= i <= t ensures DoWrite(s).disk[s.lh[i]] == DoWrite(s).disk[LOGSTART + 1 + i] {
      assert Home(s.lh[i]);
    }
  }

  lemma {:induction false} InstallCleans(bs: seq<nat>, t: nat)
    requires Distinct(bs) && t < |bs|
    ensures Elems(bs[t..]) - {bs[t]} == Elems(bs[t + 1..])
  {
    assert bs[t..] == [bs[t]] + bs[t + 1..];
  }

  lemma {:induction false} KeepInstall(s: State)
    requires Inv(s) && (s.phase.Install? || s.phase.Reinstall?)
    ensures CanWrite(s) && Inv(DoWrite(s))
  {
    hide Recovers, Installed, HeadOk, AllHome, Distinct;
    InstallProgress(s);
    InstallRecovers(s.disk, s.lh, Spec(s), s.phase.tail);
    InstallCleans(s.lh, s.phase.tail);
    assert s.lh[|s.lh|..] == [];
  }

  lemma {:induction false} KeepClear(s: State)
    requires Inv(s) && (s.phase.ClearHead? || s.phase.Reclear?)
    ensures CanWrite(s) && Inv(DoWrite(s))
  {
    var s' := DoWrite(s);
    assert Named(s'.hdr) == [];
    forall b: nat | Home(b) ensures s'.disk[b] == Spec(s')[b] {
      if b in s.lh {
        var i :| 0 <= i < |s.lh| && s.lh[i] == b;
        assert Home(s.lh[i]);
      }
    }
  }

  lemma {:induction false} KeepStep(s: State, l: Label)
    requires Inv(s) && Step(s, l).Went?
    ensures Inv(Step(s, l).s)
  {
    match l
    case LogWrite(op, b, data) => KeepLogWrite(s, op, b, data);
    case Write =>
      match s.phase {
        case CopyLog(_) => KeepCopyLog(s);
        case CommitHead => KeepCommitHead(s);
        case Install(_) => KeepInstall(s);
        case Reinstall(_) => KeepInstall(s);
        case ClearHead => KeepClear(s);
        case Reclear => KeepClear(s);
      }
    case _ =>
  }

  lemma {:induction false} RunInv(s: State, ls: seq<Label>)
    requires Inv(s) && Run(s, ls).Went?
    ensures Inv(Run(s, ls).s) && Run(s, ls).s.base == s.base
    decreases |ls|
  {
    hide Inv;
    if ls != [] {
      KeepStep(s, ls[0]);
      RunInv(Step(s, ls[0]).s, ls[1..]);
    }
  }

  lemma {:induction false} InitInv(s: State)
    requires Init(s)
    ensures Inv(s)
  {
    assert Named(s.hdr) == [];
    assert s.cache.Keys == Elems(s.lh);
  }

  // ------------------------------------------------------ crash safety

  /**
   Main result: after any run from a fresh disk, with crashes between any two
   block writes, also during recovery, whenever the system is up the home blocks
   hold exactly the transactions whose header write reached the disk.
   */
  lemma {:induction false} HomeIsCommitted(boot: State, ls: seq<Label>, b: nat)
    requires Init(boot) && Run(boot, ls).Went? && Run(boot, ls).s.phase == Ready && Home(b)
    ensures |Run(boot, ls).s.disk| == FSSIZE
    ensures Run(boot, ls).s.disk[b] == ApplyAll(boot.disk, Run(boot, ls).s.committed)[b]
  {
    InitInv(boot);
    RunInv(boot, ls);
    assert Named(Run(boot, ls).s.hdr) == [];
  }

  function Writes(n: nat): seq<Label>
    ensures |Writes(n)| == n
  {
    if n == 0 then [] else [Write] + Writes(n - 1)
  }

  lemma {:induction false} RunStep(s: State, l: Label, ls: seq<Label>)
    requires Step(s, l).Went?
    ensures Run(s, [l] + ls) == Run(Step(s, l).s, ls)
  {
    hide Step;
    assert ([l] + ls)[0] == l && ([l] + ls)[1..] == ls;
  }

  lemma {:induction false} RewriteFacts(s: State)
    requires Inv(s) && (s.phase.Reinstall? || s.phase.Reclear?)
    ensures s.phase.Reinstall? ==> s.phase.tail < |s.lh|
    ensures CanWrite(s) && Step(s, Write) == Went(DoWrite(s)) && Inv(DoWrite(s))
  {
    hide Recovers, Distinct, AllHome, Elems, Installed;
    if s.phase.Reclear? {
      KeepClear(s);
    } else {
      KeepInstall(s);
    }
  }

  /** From install position t, recovery finishes in as many writes as blocks remain, and one for the header. */
  lemma {:induction false} ReinstallCompletes(s: State)
    requires Inv(s) && (s.phase.Reinstall? || s.phase.Reclear?)
    ensures var left := if s.phase.Reclear? then 1 else |s.lh| - s.phase.tail + 1;
      && left >= 0 && Run(s, Writes(left)).Went?
      && Run(s, Writes(left)).s.phase == Ready && Run(s, Writes(left)).s.committed == s.committed
    decreases if s.phase.Reclear? then 0 else |s.lh| - s.phase.tail + 1
  {
    hide Inv, Step;
    RewriteFacts(s);
    var left := if s.phase.Reclear? then 1 else |s.lh| - s.phase.tail + 1;
    RunStep(s, Write, Writes(left - 1));
    if s.phase.Reinstall? {
      ReinstallCompletes(DoWrite(s));
    }
  }

  /** When the system is up, the home blocks are those of the committed transactions. */
  lemma {:induction false} ReadyFacts(s: State)
    requires Inv(s) && s.phase.Ready?
    ensures |s.disk| == FSSIZE == |Spec(s)| == |s.base| && s.hdr.n == 0 && s.cache.Keys == Elems(s.lh)
    ensures forall b: nat :: Home(b) ==> s.disk[b] == Spec(s)[b]
  {
    assert Named(s.hdr) == [];
  }

  lemma {:induction false} BootFacts(s: State)
    requires Inv(s) && s.phase.Booting?
    ensures s.cache == map[] && s.ops == [] && !s.panicked && s.hdr.n < NLOG && |s.hdr.block| == LOGSIZE
  {
    hide Recovers;
  }

  /** Wherever the machine crashes, recovery comes to an end and changes nothing that was committed. */
  lemma {:induction false} RecoveryCompletes(s: State)
    requires Inv(s)
    ensures var ls := [Crash] + ([ReadHead] + Writes(s.hdr.n + 1));
      && Run(s, ls).Went? && Run(s, ls).s.phase == Ready && Run(s, ls).s.committed == s.committed
      && |Run(s, ls).s.disk| == FSSIZE
      && forall b: nat :: Home(b) ==> Run(s, ls).s.disk[b] == Spec(s)[b]
  {
    hide Inv, Run, ApplyAll;
    var s1 := DoCrash(s);
    KeepStep(s, Crash);
    BootFacts(s1);
    var s2 := DoReadHead(s1);
    KeepStep(s1, ReadHead);
    ReinstallCompletes(s2);
    var ls := Writes(s.hdr.n + 1);
    RunStep(s1, ReadHead, ls);
    RunStep(s, Crash, [ReadHead] + ls);
    RunInv(s, [Crash] + ([ReadHead] + ls));
    ReadyFacts(Run(s2, ls).s);
  }

  // ------------------------------------------------------ space in the log

  /** Blocks that the operations in progress may still log when each may log `limit` distinct ones. */
  function Slack(ops: seq<set<nat>>, limit: nat): int
    decreases |ops|
  {
    if ops == [] then 0 else limit - |ops[0]| + Slack(ops[1..], limit)
  }

  lemma {:induction false} SlackAppend(ops: seq<set<nat>>, limit: nat, o: set<nat>)
    ensures Slack(ops + [o], limit) == Slack(ops, limit) + limit - |o|
    decreases |ops|
  {
    if ops != [] {
      assert (ops + [o])[1..] == ops[1..] + [o];
      SlackAppend(ops[1..], limit, o);
    }
  }

  lemma {:induction false} SlackUpdate(ops: seq<set<nat>>, limit: nat, i: nat, o: set<nat>)
    requires i < |ops|
    ensures Slack(ops[i := o], limit) == Slack(ops, limit) + |ops[i]| - |o|
    decreases |ops|
  {
    if i > 0 {
      assert ops[i := o][1..] == ops[1..][i - 1 := o];
      SlackUpdate(ops[1..], limit, i - 1, o);
    }
  }

  lemma {:induction false} SlackRemove(ops: seq<set<nat>>, limit: nat, i: nat)
    requires i < |ops|
    ensures Slack(ops[..i] + ops[i + 1..], limit) == Slack(ops, limit) - limit + |ops[i]|
    decreases |ops|
  {
    var rest := ops[..i] + ops[i + 1..];
    if i > 0 {
      assert rest[1..] == ops[1..][..i - 1] + ops[1..][i..];
      SlackRemove(ops[1..], limit, i - 1);
    } else {
      assert rest == ops[1..];
    }
  }

  lemma {:induction false} SlackBound(ops: seq<set<nat>>, limit: nat)
    requires Modest(ops, limit)
    ensures 0 <= Slack(ops, limit) <= limit * |ops|
    decreases |ops|
  {
    if ops != [] {
      SlackBound(ops[1..], limit);
    }
  }

  /** Each operation has stayed within the limit. */
  ghost predicate Modest(ops: seq<set<nat>>, limit: nat) {
    forall i :: 0 <= i < |ops| ==> |ops[i]| <= limit
  }

  /** Logged blocks and unused reservations together stay within `room`. */
  ghost predicate Fits(s: State, limit: nat, room: nat) {
    && |s.lh| + Slack(s.ops, limit) <= room && s.hdr.n <= room && Modest(s.ops, limit)
    && (forall i, b :: 0 <= i < |s.ops| && b in s.ops[i] ==> b in s.lh)
    && (s.phase == Ready && s.ops == [] ==> s.lh == [])
  }

  /** The step keeps the operation within the limit. */
  predicate Disciplined(s: State, l: Label, limit: nat) {
    l.LogWrite? && l.op < |s.ops| ==> |s.ops[l.op] + {l.b}| <= limit
  }

  predicate DisciplinedRun(s: State, ls: seq<Label>, limit: nat)
    decreases |ls|
  {
    ls == [] ||
    (Disciplined(s, ls[0], limit) && (Step(s, ls[0]).Went? ==> DisciplinedRun(Step(s, ls[0]).s, ls[1..], limit)))
  }

  lemma {:induction false} FitsAppend(s: State, op: nat, b: nat, data: Block, limit: nat, room: nat)
    requires Fits(s, limit, room) && CanLogWrite(s, op, b) && |s.ops[op] + {b}| <= limit
    ensures Fits(DoAppend(s, op, b, data), limit, room)
  {
    SlackUpdate(s.ops, limit, op, s.ops[op] + {b});
    assert b in s.ops[op] ==> s.ops[op] + {b} == s.ops[op];
  }

  lemma {:induction false} FitsEnd(s: State, op: nat, limit: nat, room: nat)
    requires Fits(s, limit, room) && CanEnd(s, op)
    ensures Fits(DoEnd(s, op), limit, room)
  {
    SlackRemove(s.ops, limit, op);
  }

  /**
   The most blocks that can be logged at once. While one operation waits, others
   come and go until the log holds ten blocks and begin_op admits one more; then
   both log all they may.
   */
  function Room(limit: nat): nat {
    if limit == 0 then 0 else MAXOPBLOCKS + 2 * limit
  }

  lemma {:induction false} FitsBegin(s: State, limit: nat)
    requires Fits(s, limit, Room(limit)) && CanBegin(s) && limit <= MAXOPBLOCKS
    ensures Fits(DoBegin(s), limit, Room(limit))
  {
    SlackBound(s.ops, limit);
    SlackAppend(s.ops, limit, {});
    if |s.ops| == 0 {
      assert s.ops == [];
    } else {
      assert |s.ops| == 1 || |s.ops| == 2;
    }
  }

  /** Below the limit of ten, a log_write finds room. */
  lemma {:induction false} FitsRoom(s: State, limit: nat)
    requires Fits(s, limit, Room(limit)) && limit < MAXOPBLOCKS
    ensures |s.lh| <= Room(limit) && !TooBig(s.lh)
  {
    SlackBound(s.ops, limit);
  }

  lemma {:induction false} FitsStep(s: State, l: Label, limit: nat)
    requires Inv(s) && Fits(s, limit, Room(limit)) && Step(s, l).Went? && Disciplined(s, l, limit) && limit <= MAXOPBLOCKS
    ensures Fits(Step(s, l).s, limit, Room(limit))
    ensures limit < MAXOPBLOCKS && !s.panicked ==> !Step(s, l).s.panicked
  {
    hide Recovers, LogCopied, Installed, Distinct, AllHome, Elems, Room;
    match l
    case Begin => FitsBegin(s, limit);
    case LogWrite(op, b, data) =>
      if limit < MAXOPBLOCKS {
        FitsRoom(s, limit);
      }
      FitsAppend(s, op, b, data, limit, Room(limit));
    case End(op) => FitsEnd(s, op, limit, Room(limit));
    case _ => NoSlack(s, limit);
  }

  lemma {:induction false} NoSlack(s: State, limit: nat)
    requires Fits(s, limit, Room(limit))
    ensures Slack([], limit) == 0 && |s.lh| <= Room(limit)
  {
    SlackBound(s.ops, limit);
  }

  lemma {:induction false} FitsRun(s: State, ls: seq<Label>, limit: nat)
    requires Inv(s) && Fits(s, limit, Room(limit)) && Run(s, ls).Went? && DisciplinedRun(s, ls, limit)
    requires limit <= MAXOPBLOCKS
    ensures Fits(Run(s, ls).s, limit, Room(limit))
    ensures limit < MAXOPBLOCKS && !s.panicked ==> !Run(s, ls).s.panicked
    decreases |ls|
  {
    hide Inv, Fits, Step, Disciplined;
    if ls != [] {
      KeepStep(s, ls[0]);
      FitsStep(s, ls[0], limit);
      FitsRun(Step(s, ls[0]).s, ls[1..], limit);
    }
  }

  /** With at most MAXOPBLOCKS blocks for each operation, logged blocks and unused reservations together stay within bounds. */
  lemma {:induction false} ReservationsFit(boot: State, ls: seq<Label>, limit: nat)
    requires Init(boot) && Run(boot, ls).Went? && DisciplinedRun(boot, ls, limit) && limit <= MAXOPBLOCKS
    ensures var s := Run(boot, ls).s; |s.lh| + Slack(s.ops, limit) <= Room(limit) <= LOGSIZE
  {
    InitInv(boot);
    FitsRun(boot, ls, limit);
  }

  /** One block less each, and the log holds at most 28 blocks and never panics. */
  lemma {:induction false} OneLessNeverPanics(boot: State, ls: seq<Label>)
    requires Init(boot) && Run(boot, ls).Went? && DisciplinedRun(boot, ls, MAXOPBLOCKS - 1)
    ensures var s := Run(boot, ls).s; !s.panicked && |s.lh| <= 28
  {
    InitInv(boot);
    FitsRun(boot, ls, MAXOPBLOCKS - 1);
    SlackBound(Run(boot, ls).s.ops, MAXOPBLOCKS - 1);
  }

  // Three operations that take turns and log ten blocks each fill the log one block short.

  ghost predicate Filling(s: State, k: nat) {
    && s.phase == Ready && !s.panicked && |s.ops| == 3 && |s.lh| == k
    && (forall b :: b in s.lh ==> b < 100 + k)
    && (forall j, b :: 0 <= j < 3 && b in s.ops[j] ==> b < 100 + k)
    && (forall j :: 0 <= j < 3 ==> |s.ops[j]| == (k + 2 - j) / 3)
  }

  lemma {:induction false} FillOne(s: State, k: nat, data: Block)
    requires Filling(s, k) && k < 29
    ensures var l := LogWrite(k % 3, 100 + k, data);
      Disciplined(s, l, MAXOPBLOCKS) && Step(s, l).Went? && Filling(Step(s, l).s, k + 1)
  {
  }

  lemma {:induction false} Fill(s: State, k: nat, data: Block) returns (ls: seq<Label>)
    requires Filling(s, k) && k <= 29
    ensures DisciplinedRun(s, ls, MAXOPBLOCKS) && Run(s, ls).Went? && Run(s, ls).s.panicked
    decreases 29 - k
  {
    hide Filling, Inv;
    var l := LogWrite(k % 3, 100 + k, data);
    if k == 29 {
      ls := [l];
      PanicAtEnd(s, data);
    } else {
      FillOne(s, k, data);
      var rest := Fill(Step(s, l).s, k + 1, data);
      ls := [l] + rest;
      RunStep(s, l, rest);
    }
  }

  lemma {:induction false} PanicAtEnd(s: State, data: Block)
    requires Filling(s, 29)
    ensures var l := LogWrite(2, 129, data);
      Disciplined(s, l, MAXOPBLOCKS) && Step(s, l).Went? && Step(s, l).s.panicked
      && Run(s, [l]) == Step(s, l) && DisciplinedRun(s, [l], MAXOPBLOCKS)
  {
    RunStep(s, LogWrite(2, 129, data), []);
  }

  lemma {:induction false} Opened(boot: State) returns (s: State)
    requires Init(boot)
    ensures Run(boot, [Begin, Begin, Begin]) == Went(s) && Filling(s, 0)
    ensures DisciplinedRun(boot, [Begin, Begin, Begin], MAXOPBLOCKS)
  {
    var s1 := DoBegin(boot);
    var s2 := DoBegin(s1);
    s := DoBegin(s2);
    assert s.ops == [{}, {}, {}];
    RunStep(boot, Begin, [Begin, Begin]);
    RunStep(s1, Begin, [Begin]);
    RunStep(s2, Begin, []);
  }

  lemma {:induction false} DisciplinedAppend(s: State, xs: seq<Label>, ys: seq<Label>, limit: nat)
    requires Run(s, xs).Went? && DisciplinedRun(s, xs, limit) && DisciplinedRun(Run(s, xs).s, ys, limit)
    ensures Run(s, xs + ys) == Run(Run(s, xs).s, ys) && DisciplinedRun(s, xs + ys, limit)
    decreases |xs|
  {
    hide Step, Disciplined;
    if xs == [] {
      assert xs + ys == ys;
    } else {
      assert (xs + ys)[0] == xs[0] && (xs + ys)[1..] == xs[1..] + ys;
      DisciplinedAppend(Step(s, xs[0]).s, xs[1..], ys, limit);
    }
  }

  lemma {:induction false} LaxerLimit(s: State, ls: seq<Label>, limit: nat)
    requires DisciplinedRun(s, ls, MAXOPBLOCKS) && MAXOPBLOCKS <= limit
    ensures DisciplinedRun(s, ls, limit)
    decreases |ls|
  {
    hide Step;
    if ls != [] && Step(s, ls[0]).Went? {
      LaxerLimit(Step(s, ls[0]).s, ls[1..], limit);
    }
  }

  ghost predicate NeverPanics(boot: State, limit: nat) {
    forall ls :: DisciplinedRun(boot, ls, limit) && Run(boot, ls).Went? ==> !Run(boot, ls).s.panicked
  }

  /** A bound on the blocks per operation rules the panic out exactly when it is below MAXOPBLOCKS. */
  lemma {:induction false} PanicExactly(boot: State, limit: nat)
    requires Init(boot)
    ensures NeverPanics(boot, limit) <==> limit < MAXOPBLOCKS
  {
    if limit < MAXOPBLOCKS {
      forall ls | DisciplinedRun(boot, ls, limit) && Run(boot, ls).Went? ensures !Run(boot, ls).s.panicked {
        InitInv(boot);
        FitsRun(boot, ls, limit);
      }
    } else {
      var s := Opened(boot);
      var ls := Fill(s, 0, boot.disk[0]);
      DisciplinedAppend(boot, [Begin, Begin, Begin], ls, MAXOPBLOCKS);
      LaxerLimit(boot, [Begin, Begin, Begin] + ls, limit);
    }
  }
}
