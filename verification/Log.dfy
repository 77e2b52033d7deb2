/**
 log.c: the in-memory log header and the loops that move blocks between the
 buffer cache, the log and their homes. The ghost machine `m` takes one step at
 each block write, so what holds of every machine state holds at every point
 where the power may fail.
 */
module Log {
  import opened Params
  import opened Sets
  import opened Bytes
  import opened LogMachine
  import opened LogTheorems

  // ------------------------------------------------------ one block write

  lemma {:induction false} CopyFacts(s: State)
    requires Inv(s) && s.phase.CopyLog?
    ensures !s.panicked && s.phase.tail < |s.lh| < NLOG && |s.disk| == FSSIZE
    ensures Home(s.lh[s.phase.tail]) && s.lh[s.phase.tail] in s.cache
    ensures CanWrite(s) && Step(s, Write) == Went(DoWrite(s))
  {
    hide Recovers, HeadOk;
    KeepCopyLog(s);
  }

  lemma {:induction false} CopiedFacts(s: State)
    requires Inv(s) && s.phase.CommitHead?
    ensures !s.panicked && 0 < |s.lh| < NLOG && |s.disk| == FSSIZE && |s.hdr.block| == LOGSIZE
    ensures s.cache.Keys == Elems(s.lh) && LogCopied(s, |s.lh|)
    ensures CanWrite(s) && Step(s, Write) == Went(DoWrite(s))
  {
  }

  lemma {:induction false} InstallFacts(s: State)
    requires Inv(s) && (s.phase.Install? || s.phase.Reinstall?)
    ensures !s.panicked && s.phase.tail < |s.lh| < NLOG && |s.disk| == FSSIZE
    ensures Home(s.lh[s.phase.tail]) && LOGSTART + 1 + s.phase.tail !in s.cache
    ensures s.phase.Reinstall? ==> s.cache - {s.lh[s.phase.tail]} == s.cache
    ensures CanWrite(s) && Step(s, Write) == Went(DoWrite(s))
  {
    hide Recovers, HeadOk;
  }

  lemma {:induction false} ClearFacts(s: State)
    requires Inv(s) && (s.phase.ClearHead? || s.phase.Reclear?)
    ensures !s.panicked && |s.hdr.block| == LOGSIZE && s.cache == map[] && s.ops == []
    ensures CanWrite(s) && Step(s, Write) == Went(DoWrite(s))
  {
    hide Recovers, Installed;
  }

  lemma {:induction false} LogFacts(s: State)
    requires Inv(s)
    ensures |s.disk| == FSSIZE == |s.base| && |s.lh| < NLOG
  {
  }

  /** A log that is full takes a block it has, and outgrows its blocks with one it has not. */
  lemma {:induction false} AppendFacts(s: State, op: nat, b: nat, data: Block)
    requires Inv(s) && CanLogWrite(s, op, b) && TooBig(s.lh)
    ensures Inv(DoAppend(s, op, b, data)) <==> |DoAppend(s, op, b, data).lh| < NLOG
  {
    assert b in s.lh ==> DoAppend(s, op, b, data).cache.Keys == Elems(s.lh);
  }

  class Log {
    var disk: seq<Block>
    var header: Header          // the header block on the disk
    const block: array<nat>     // log.lh.block
    var n: nat                  // log.lh.n
    var outstanding: nat
    var committing: bool
    var cache: map<nat, Block>  // buffers that differ from the disk
    ghost var m: State

    /** Memory and disk are those of a machine state in which the invariant holds. */
    ghost predicate Sound()
      reads this, block
    {
      && block.Length == LOGSIZE && n <= LOGSIZE && Inv(m)
      && m.disk == disk && m.hdr == header && m.cache == cache && |m.ops| == outstanding
      && (committing ==> outstanding == 0)
    }

    ghost predicate Valid()
      reads this, block
    {
      Sound() && m.lh == block[..n]
    }

    /** The log of a disk that mkfs has just written. */
    constructor (blank: seq<Block>, head: Header)
      requires |blank| == FSSIZE && head.n == 0 && |head.block| == LOGSIZE
      ensures Valid() && Init(m) && disk == blank && !committing
    {
      disk, header, n, outstanding, committing, cache := blank, head, 0, 0, false, map[];
      block := new nat[LOGSIZE](_ => 0);
      m := State(blank, head, [], map[], [], Ready, false, [], blank);
      new;
      assert block[..n] == [];
      InitInv(m);
    }

    /** bread: a buffer that is in the cache, otherwise the block on the disk. */
    function Bread(b: nat): Block
      requires b < |disk|
      reads this
    {
      if b in cache then cache[b] else disk[b]
    }

    ghost method Advance(l: Label)
      requires Inv(m) && Step(m, l).Went?
      modifies `m
      ensures Inv(m) && m == Step(old(m), l).s
    {
      hide Inv;
      KeepStep(m, l);
      m := Step(m, l).s;
    }

    /** write_log: copy the blocks of the transaction from the cache to the log. */
    method WriteLog()
      requires Valid() && m.phase == CopyLog(0)
      modifies `disk, `m
      ensures Valid() && m == old(m).(disk := disk, phase := CommitHead)
      ensures |disk| == |old(disk)| == FSSIZE && forall b: nat :: Home(b) ==> disk[b] == old(disk)[b]
    {
      hide Inv, Step;
      CopyFacts(m);
      var tail := 0;
      while tail < n
        invariant tail <= n && Valid() && n == |m.lh|
        invariant m == old(m).(disk := disk, phase := if tail == n then CommitHead else CopyLog(tail))
        invariant |disk| == |old(disk)| == FSSIZE && forall b: nat :: Home(b) ==> disk[b] == old(disk)[b]
      {
        CopyFacts(m);
        var from := Bread(block[tail]);
        disk := disk[LOGSTART + 1 + tail := from];
        Advance(Write);
        tail := tail + 1;
      }
    }

    /** write_head: n and the first n block numbers change in the header block, which is then written. */
    method WriteHead()
      requires Sound()
      requires if m.phase.CommitHead? then m.lh == block[..n] else (m.phase.ClearHead? || m.phase.Reclear?) && n == 0
      modifies `header, `m
      ensures Valid() && CanWrite(old(m)) && m == DoWrite(old(m))
    {
      hide Inv, Step;
      if m.phase.CommitHead? {
        CopiedFacts(m);
      } else {
        ClearFacts(m);
      }
      var hb := header.block;
      var i := 0;
      while i < n
        invariant i <= n && |hb| == LOGSIZE && hb == block[..i] + header.block[i..]
      {
        hb := hb[i := block[i]];
        i := i + 1;
      }
      header := Header(n, hb);
      Advance(Write);
      assert block[..0] == [];
    }

    /** install_trans: copy each logged block home. */
    method InstallTrans()
      requires Valid() && (m.phase == Install(0) || m.phase == Reinstall(0))
      modifies `disk, `cache, `m
      ensures Valid() && m.phase == (if old(m.phase).Install? then ClearHead else Reclear)
      ensures m == old(m).(disk := disk, cache := cache, phase := m.phase)
    {
      hide Inv, Step;
      InstallFacts(m);
      var tail := 0;
      while tail < n
        invariant tail <= n && Valid() && n == |m.lh|
        invariant m.phase == if old(m.phase).Install? then (if tail == n then ClearHead else Install(tail))
                             else if tail == n then Reclear else Reinstall(tail)
        invariant m == old(m).(disk := disk, cache := cache, phase := m.phase)
      {
        InstallFacts(m);
        var lbuf := Bread(LOGSTART + 1 + tail);
        disk := disk[block[tail] := lbuf];
        cache := cache - {block[tail]};
        Advance(Write);
        tail := tail + 1;
      }
    }

    /** commit: the transaction reaches the log, then the header, then home; an empty one does nothing. */
    method Commit()
      requires Valid() && outstanding == 0 && m.phase == (if n > 0 then CopyLog(0) else Ready)
      modifies `disk, `header, `n, `cache, `m
      ensures Valid() && m.phase == Ready && n == 0 && cache == map[] && outstanding == 0
      ensures m.base == old(m.base)
      ensures m.committed == old(m.committed) + if old(n) > 0 then [old(cache)] else []
    {
      hide Inv, Step;
      if n > 0 {
        WriteLog();
        WriteHead();
        InstallTrans();
        n := 0;
        ClearFacts(m);
        WriteHead();
      } else {
        ReadyFacts(m);
        assert block[..0] == [];
        assert cache.Keys == {};
      }
    }

    /** begin_op: one pass of its loop; false means the caller sleeps and tries again. */
    method BeginOp() returns (admitted: bool)
      requires Valid() && m.phase == Ready && !m.panicked
      modifies `outstanding, `m
      ensures Valid() && m.phase == Ready && !m.panicked
      ensures admitted <==> !committing && n + (old(outstanding) + 1) * MAXOPBLOCKS <= LOGSIZE
      ensures m == if admitted then DoBegin(old(m)) else old(m)
    {
      hide Inv;
      if committing || n + (outstanding + 1) * MAXOPBLOCKS > LOGSIZE {
        return false;
      }
      outstanding := outstanding + 1;
      Advance(Begin);
      return true;
    }

    /** log_write, the test before the lock: false is the panic. */
    method SizeTest() returns (ok: bool)
      requires Valid()
      ensures ok <==> !TooBig(m.lh)
    {
      ok := !(n >= LOGSIZE || n >= NLOG - 1);
    }

    /**
     log_write under the lock. A block that is already logged keeps its place.
     The log is valid again if it is still within its blocks on the disk; other
     calls since the test may have filled it.
     */
    method Append(ghost op: nat, b: nat, data: Block)
      requires Valid() && CanLogWrite(m, op, b) && !m.panicked
      modifies `n, `cache, `m, block
      ensures m == DoAppend(old(m), op, b, data) && n <= block.Length && m.lh == block[..n] && m.cache == cache
      ensures Valid() <==> |m.lh| < NLOG
      ensures Bread(b) == data
    {
      hide Inv;
      LogFacts(m);
      var i := 0;
      while i < n && block[i] != b
        invariant i <= n && b !in block[..i]
      {
        i := i + 1;
      }
      ghost var was := block[..n];
      block[i] := b;
      if i == n {
        n := n + 1;
      }
      cache := cache[b := data];
      if TooBig(m.lh) {
        AppendFacts(m, op, b, data);
        m := DoAppend(m, op, b, data);
      } else {
        Advance(Label.LogWrite(op, b, data));
        LogFacts(m);
      }
      assert block[..n] == if b in was then was else was + [b];
    }

    /** log_write with no other call between its test and its lock: false is the panic. */
    method LogWrite(ghost op: nat, b: nat, data: Block) returns (ok: bool)
      requires Valid() && CanLogWrite(m, op, b) && !m.panicked
      modifies `n, `cache, `m, block
      ensures m == DoLogWrite(old(m), op, b, data) && (ok ==> Valid())
      ensures ok <==> !m.panicked
      ensures Bread(b) == if ok then data else old(Bread(b))
    {
      hide Inv;
      LogFacts(m);
      ok := SizeTest();
      if ok {
        Append(op, b, data);
      } else {
        Advance(Label.LogWrite(op, b, data));
      }
    }

    /** end_op: the last operation commits the whole group; the panic is unreachable. */
    method EndOp(ghost op: nat) returns (panic: bool)
      requires Valid() && CanEnd(m, op) && !m.panicked
      modifies `disk, `header, `n, `outstanding, `committing, `cache, `m
      ensures Valid() && m.phase == Ready && !committing && !panic && outstanding == old(outstanding) - 1
      ensures m.base == old(m.base)
      ensures outstanding > 0 ==> m == old(m).(ops := m.ops)
      ensures outstanding == 0 ==> n == 0 && cache == map[]
      ensures m.committed == old(m.committed) + if outstanding == 0 && old(n) > 0 then [old(cache)] else []
    {
      hide Inv;
      panic := false;
      var doCommit := false;
      outstanding := outstanding - 1;
      if committing {
        return true;
      }
      if outstanding == 0 {
        doCommit, committing := true, true;
      }
      Advance(End(op));
      if doCommit {
        Commit();
        committing := false;
      }
    }

    /** The power fails: memory is gone, the disk stays as it is. */
    method PowerFail()
      requires Sound()
      modifies `n, `outstanding, `committing, `cache, `m
      ensures Valid() && m == DoCrash(old(m))
    {
      hide Inv;
      n, outstanding, committing, cache := 0, 0, false, map[];
      Advance(Crash);
      assert block[..0] == [];
    }

    /** read_head. */
    method ReadHead()
      requires Valid() && m.phase == Booting
      modifies `n, `m, block
      ensures Valid() && CanReadHead(old(m)) && m == DoReadHead(old(m))
    {
      hide Inv;
      BootFacts(m);
      n := header.n;
      var i := 0;
      while i < n
        invariant i <= n == header.n && m == old(m) && block[..i] == header.block[..i]
      {
        block[i] := header.block[i];
        i := i + 1;
      }
      Advance(Label.ReadHead);
    }

    /** recover_from_log: the home blocks become those of the committed transactions. */
    method RecoverFromLog()
      requires Valid() && m.phase == Booting
      modifies `disk, `header, `n, `cache, `m, block
      ensures Valid() && m.phase == Ready && n == 0 && m.committed == old(m.committed) && m.base == old(m.base)
      ensures |disk| == FSSIZE == |m.base|
      ensures forall b: nat :: Home(b) ==> disk[b] == ApplyAll(m.base, m.committed)[b]
    {
      hide Inv, Step;
      BootFacts(m);
      ReadHead();
      if n > 0 {
        InstallTrans();
      }
      n := 0;
      WriteHead();
      ReadyFacts(m);
    }
  }
}
