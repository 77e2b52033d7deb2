/** filewrite of file.c: a long write is cut into transactions that the log can hold. */
module FileIo {
  import opened Params
  import opened Sets
  import opened Bytes
  import opened FsLayout
  import opened FsOwners
  import opened FsFiles
  import opened FsInodes
  import opened Fs
  import opened Stores
  import LogMachine
  import LogOverflow

  /** The most bytes that one transaction writes: half of the blocks of an operation, less four. */
  const CHUNK: nat := 1536

  /** Blocks that one transaction of filewrite may log. */
  const CHUNK_BLOCKS: nat := 7

  const LARGEST: nat := MAXFILE * BSIZE

  /** How many of n bytes at `off` are written: all, or the chunks that fit the largest file. */
  function Fitting(off: nat, n: nat): (w: nat)
    requires off <= LARGEST
    ensures w <= n && off + w <= LARGEST
  {
    if off + n <= LARGEST then n else (LARGEST - off) / CHUNK * CHUNK
  }

  lemma {:induction false} FittingStep(off: nat, n: nat)
    requires off <= LARGEST
    ensures n > CHUNK && off + CHUNK <= LARGEST ==> Fitting(off, n) == CHUNK + Fitting(off + CHUNK, n - CHUNK)
    ensures off + (if n > CHUNK then CHUNK else n) > LARGEST ==> Fitting(off, n) == 0
    ensures n <= CHUNK && off + n <= LARGEST ==> Fitting(off, n) == n && Fitting(off + n, 0) == 0
  {
    var x := LARGEST - off;
    assert x >= CHUNK ==> (x - CHUNK) / CHUNK == x / CHUNK - 1;
  }

  /** A chunk is refused exactly when nothing more fits. */
  lemma {:induction false} FittingNext(off0: nat, size: nat, off: nat, left: nat, m: nat)
    requires off0 <= size ==> off <= LARGEST
    requires m == if left > CHUNK then CHUNK else left
    ensures off0 <= size && off + m > LARGEST ==> Fitting(off, left) == 0
    ensures off0 <= size && off + m <= LARGEST ==> Fitting(off, left) == m + Fitting(off + m, left - m)
  {
    if off0 <= size {
      FittingStep(off, left);
    }
  }

  lemma {:induction false} ChunkBlocks(off: nat, n: nat)
    requires n <= CHUNK
    ensures UpTo(off, n) - off / BSIZE <= 4
  {
  }

  lemma {:induction false} WrittenCount(blocks: seq<Block>, ip: Inode, i: nat, lo: nat, hi: nat)
    requires lo <= hi
    ensures |Written(blocks, ip, i, lo, hi)| <= 3 + hi - lo
  {
    var meta := {BMAPSTART, IBlock(i)};
    assert |meta| <= 2;
    assert |IndirectAddr(ip)| <= 1;
    var r := RangeAddrs(blocks, ip, lo, hi);
    assert |meta + IndirectAddr(ip)| <= |meta| + |IndirectAddr(ip)|;
    assert |meta + IndirectAddr(ip) + r| <= |meta + IndirectAddr(ip)| + |r|;
  }

  /** However the operations of the system mix, transactions of this size never make log_write panic or the log outgrow its blocks. */
  lemma {:induction false} ChunksFit(boot: LogMachine.State)
    requires LogMachine.Init(boot)
    ensures LogOverflow.FineNeverPanics(boot, CHUNK_BLOCKS) && LogOverflow.NeverOutgrown(boot, CHUNK_BLOCKS)
  {
    LogOverflow.FinePanicExactly(boot, CHUNK_BLOCKS);
    LogOverflow.OutgrownExactly(boot, CHUNK_BLOCKS);
  }

  lemma {:induction false} SpliceTwice(file: seq<Byte>, off: nat, x: seq<Byte>, y: seq<Byte>)
    requires off <= |file|
    ensures off + |x| <= |Splice(file, off, x)|
    ensures Splice(Splice(file, off, x), off + |x|, y) == Splice(file, off, x + y)
  {
    var f, g := Splice(Splice(file, off, x), off + |x|, y), Splice(file, off, x + y);
    assert |f| == |g|;
    forall p | 0 <= p < |f| ensures f[p] == g[p] {
    }
  }

  lemma {:induction false} SpliceNone(file: seq<Byte>, off: nat)
    ensures off <= |file| ==> Splice(file, off, []) == file
  {
  }

  /** What filewrite can do with n bytes. */
  function Accepted(writable: bool, off: nat, size: nat, n: int): nat {
    if !writable || n < 0 || off > size || size > LARGEST then 0 else Fitting(off, n)
  }

  lemma {:induction false} AcceptedFacts(writable: bool, off: nat, size: nat, n: int)
    requires size <= LARGEST
    ensures var w := Accepted(writable, off, size, n);
      && (n >= 0 ==> w <= n) && (!writable || n <= 0 || off > size ==> w == 0)
      && (writable && n >= 0 && off <= size ==> w == Fitting(off, n))
  {
  }

  /** The files once `bytes` are written at `off` of file i. */
  function After(files: seq<seq<Byte>>, i: nat, off: nat, bytes: seq<Byte>): seq<seq<Byte>> {
    if i < |files| && off <= |files[i]| then files[i := Splice(files[i], off, bytes)] else files
  }

  /** The bytes of w that t transactions write. */
  function Cut(t: nat, w: nat): (c: nat)
    ensures c <= w
  {
    if t * CHUNK < w then t * CHUNK else w
  }

  /** Only one file differs. */
  lemma {:induction false} FilesAfter(
      blocks: seq<Block>, inodes: seq<Inode>, files: seq<seq<Byte>>, i: nat, off: nat, bytes: seq<Byte>)
    requires |inodes| == |files| == NINODES && i < NINODES
    requires forall j :: 0 <= j < NINODES && j != i ==> File(blocks, inodes[j]) == files[j]
    requires File(blocks, inodes[i]) == if off <= |files[i]| then Splice(files[i], off, bytes) else files[i]
    ensures FilesOf(blocks, inodes) == After(files, i, off, bytes)
  {
    hide File, Splice;
  }

  lemma {:induction false} FileSize(blocks: seq<Block>, ip: Inode)
    ensures |File(blocks, ip)| == ip.size
  {
    hide Data;
  }

  lemma {:induction false} FileIn(blocks: seq<Block>, inodes: seq<Inode>, i: nat)
    requires i < |inodes|
    ensures |FilesOf(blocks, inodes)| == |inodes| && |FilesOf(blocks, inodes)[i]| == inodes[i].size
  {
    hide Data;
  }

  /** One more chunk, after those before it. */
  lemma {:induction false} ChunkFiles(
      blocks: seq<Block>, inodes: seq<Inode>, blocks': seq<Block>, inodes': seq<Inode>,
      files: seq<seq<Byte>>, i: nat, off: nat, src: seq<Byte>, at: nat, m: nat)
    requires |inodes| == |inodes'| == |files| == NINODES && i < NINODES && at + m <= |src| && off <= |files[i]|
    requires FilesOf(blocks, inodes) == After(files, i, off, src[..at])
    requires off + at <= inodes[i].size == |File(blocks, inodes[i])|
    requires File(blocks', inodes'[i]) == Splice(File(blocks, inodes[i]), off + at, src[at..at + m])
    requires forall j :: 0 <= j < NINODES && j != i ==> File(blocks', inodes'[j]) == File(blocks, inodes[j])
    ensures FilesOf(blocks', inodes') == After(files, i, off, src[..at + m])
    ensures off + at + m <= inodes'[i].size
  {
    hide File, Splice;
    FileSize(blocks', inodes'[i]);
    SpliceTwice(File(blocks, inodes[i]), off + at, src[at..at + m], []);
    forall j | 0 <= j < NINODES ensures File(blocks, inodes[j]) == if j == i then Splice(files[i], off, src[..at]) else files[j] {
      assert FilesOf(blocks, inodes)[j] == File(blocks, inodes[j]);
    }
    SpliceTwice(files[i], off, src[..at], src[at..at + m]);
    assert src[..at] + src[at..at + m] == src[..at + m];
    FilesAfter(blocks', inodes', files, i, off, src[..at + m]);
  }

  /** After t of the transactions the disk holds the file with t chunks written, of `at` bytes in all. */
  ghost predicate Chunked(
      blocks: seq<Block>, files: seq<seq<Byte>>, i: nat, off: nat, src: seq<Byte>, at: nat, txns: seq<seq<Store>>)
    requires at <= |src|
  {
    forall t :: 0 <= t <= |txns| ==> Stored(ReplayAll(blocks, txns[..t]), After(files, i, off, src[..Cut(t, at)]))
  }

  lemma {:induction false} ChunkedMore(
      blocks: seq<Block>, files: seq<seq<Byte>>, i: nat, off: nat, src: seq<Byte>, at: nat, at': nat,
      txns: seq<seq<Store>>, ws: seq<Store>)
    requires at <= at' <= |src| && Chunked(blocks, files, i, off, src, at, txns) && at == |txns| * CHUNK && at' <= at + CHUNK
    requires Stored(Replay(ReplayAll(blocks, txns), ws), After(files, i, off, src[..at']))
    ensures Chunked(blocks, files, i, off, src, at', txns + [ws])
  {
    hide Stored, After, ReplayAll, Replay;
    var all := txns + [ws];
    forall t | 0 <= t <= |all| ensures Stored(ReplayAll(blocks, all[..t]), After(files, i, off, src[..Cut(t, at')])) {
      if t == |all| {
        assert all[..t] == all;
        ReplayAllAppend(blocks, txns, ws);
        assert Cut(t, at') == at';
      } else {
        assert all[..t] == txns[..t];
        assert Cut(t, at') == Cut(t, at) == t * CHUNK;
      }
    }
  }

  /** What is written does not matter beyond the last transaction. */
  lemma {:induction false} ChunkedOf(
      blocks: seq<Block>, files: seq<seq<Byte>>, i: nat, off: nat, src: seq<Byte>, at: nat, w: nat, txns: seq<seq<Store>>)
    requires at <= w <= |src| && Chunked(blocks, files, i, off, src, at, txns) && (at == w || at == |txns| * CHUNK)
    ensures Chunked(blocks, files, i, off, src, w, txns)
  {
    hide Stored, After, ReplayAll;
    forall t | 0 <= t <= |txns| ensures Stored(ReplayAll(blocks, txns[..t]), After(files, i, off, src[..Cut(t, w)])) {
      assert Cut(t, w) == Cut(t, at);
    }
  }

  lemma {:induction false} NoneWritten(blocks: seq<Block>, inodes: seq<Inode>, owner: Owner, i: nat, off: nat, src: seq<Byte>)
    requires Linked(blocks, inodes, owner) && |blocks| == FSSIZE && |inodes| == NINODES && SizesOk(inodes)
    ensures After(FilesOf(blocks, inodes), i, off, src[..0]) == FilesOf(blocks, inodes)
    ensures ReplayAll(blocks, []) == blocks
    ensures (forall j :: 0 <= j < NINODES ==> OnDisk(blocks, j) == inodes[j]) ==>
      Chunked(blocks, FilesOf(blocks, inodes), i, off, src, 0, [])
  {
    hide Linked, OnDisk, File, Stored, Splice;
    var files := FilesOf(blocks, inodes);
    if i < |files| {
      SpliceNone(files[i], off);
    }
    assert src[..0] == [];
    if forall j :: 0 <= j < NINODES ==> OnDisk(blocks, j) == inodes[j] {
      SyncedStored(blocks, inodes, owner);
    }
  }

  /** At most seven blocks, all of them logged ones. */
  ghost predicate SmallTxn(ws: seq<Store>) {
    |Blocks(ws)| <= CHUNK_BLOCKS && forall w :: w in ws ==> INODESTART <= w.b < FSSIZE
  }

  lemma {:induction false} TraceSmall(ws: seq<Store>, logged: set<nat>)
    requires |logged| <= CHUNK_BLOCKS && forall w :: w in ws ==> INODESTART <= w.b < FSSIZE && w.b in logged
    ensures SmallTxn(ws)
  {
    Subset(Blocks(ws), logged);
  }

  class OpenFile {
    const inum: nat
    const writable: bool
    var off: nat

    constructor (inum: nat, writable: bool)
      ensures this.inum == inum && this.writable == writable && off == 0
    {
      this.inum, this.writable, off := inum, writable, 0;
    }

    /** One transaction: begin_op, writei, end_op. */
    method WriteChunk(fs: Fs, src: seq<Byte>) returns (ok: bool, r: int)
      requires fs.Valid() && inum < NINODES && off < U32 && |src| <= CHUNK
      modifies `off, fs
      ensures ok ==> fs.Valid() && |fs.logged| <= CHUNK_BLOCKS && fs.start == old(fs.blocks)
      ensures ok && old(fs.Settled(inum)) ==> fs.Settled(inum)
      ensures r == if old(off) > old(fs.inodes)[inum].size || old(off) + |src| > LARGEST then -1 else |src|
      ensures r == -1 ==> ok && fs.Now() == old(fs.Now()) && off == old(off) && fs.trace == []
      ensures ok && r != -1 ==>
        && off == old(off) + |src|
        && File(fs.blocks, fs.inodes[inum]) == Splice(File(old(fs.blocks), old(fs.inodes)[inum]), old(off), src)
      ensures ok ==> forall j :: 0 <= j < NINODES && j != inum ==>
        fs.inodes[j] == old(fs.inodes)[j] && File(fs.blocks, fs.inodes[j]) == File(old(fs.blocks), old(fs.inodes)[j])
    {
      hide Linked, Marked, Need, RangeMapped, Dense, File, Splice, Written, UpTo, OnDisk, Replay;
      fs.logged := {};
      fs.Begin();
      ok, r := fs.Writei(inum, src, off);
      if ok && r != -1 {
        ChunkBlocks(off, |src|);
        RangeBounds(off, |src|);
        WrittenCount(fs.blocks, fs.inodes[inum], inum, off / BSIZE, UpTo(off, |src|));
        Subset(fs.logged, Written(fs.blocks, fs.inodes[inum], inum, off / BSIZE, UpTo(off, |src|)));
      }
      if r > 0 {
        off := off + r;
      }
    }

    /**
     filewrite on a regular file. The chunks together write exactly the bytes
     asked for, in order, and no transaction logs more than seven blocks. When
     the file would grow too large, the chunks that fit are written and the
     result is -1. After any number of the transactions the disk holds the file
     with that many chunks written, and every other file as it was.
     */
    method FileWrite(fs: Fs, src: seq<Byte>, n: int) returns (ok: bool, r: int, ghost txns: seq<seq<Store>>)
      requires fs.Valid() && inum < NINODES && off < U32 && n <= |src| && n < U32
      modifies `off, fs
      ensures forall t :: 0 <= t < |txns| ==> SmallTxn(txns[t])
      ensures ok ==> fs.Valid() && fs.blocks == ReplayAll(old(fs.blocks), txns)
      ensures ok ==>
        var w := Accepted(writable, old(off), old(fs.inodes)[inum].size, n);
        && r == (if writable && w == n then n else -1) && off == old(off) + w && w <= |src|
        && FilesOf(fs.blocks, fs.inodes) == After(FilesOf(old(fs.blocks), old(fs.inodes)), inum, old(off), src[..w])
      ensures ok ==> forall j :: 0 <= j < NINODES && j != inum ==> fs.inodes[j] == old(fs.inodes)[j]
      ensures old(fs.Settled(inum)) ==>
        var w := Accepted(writable, old(off), old(fs.inodes)[inum].size, n);
        && w <= |src| && (ok ==> fs.Settled(inum))
        && Chunked(old(fs.blocks), FilesOf(old(fs.blocks), old(fs.inodes)), inum, old(off), src, w, txns)
    {
      hide Linked, Marked, Splice, Data, Fitting, File, OnDisk, Dense, Replay, Stored, After, ReplayAll, SmallTxn, FilesOf, Chunked,
           Accepted;
      txns := [];
      ghost var files, off0 := FilesOf(fs.blocks, fs.inodes), off;
      ghost var size := fs.inodes[inum].size;
      ghost var w := Accepted(writable, off, size, n);
      AcceptedFacts(writable, off, size, n);
      NoneWritten(fs.blocks, fs.inodes, fs.owner, inum, off, src);
      FileIn(fs.blocks, fs.inodes, inum);
      if !writable {
        return true, -1, txns;
      }
      var i := 0;
      ok, r := true, 0;
      while i < n
        invariant 0 <= i && (n >= 0 ==> i <= n) && (n < 0 ==> i == 0)
        invariant ok && fs.Valid() && off == off0 + i && i <= w <= |src|
        invariant n > 0 && off0 <= size ==> off <= LARGEST && w == i + Fitting(off, n - i)
        invariant off0 > size ==> i == 0 && w == 0 && fs.inodes[inum].size == size
        invariant off0 <= size ==> off <= fs.inodes[inum].size
        invariant fs.blocks == ReplayAll(old(fs.blocks), txns) && (i < n ==> i == |txns| * CHUNK)
        invariant FilesOf(fs.blocks, fs.inodes) == After(files, inum, off0, src[..i])
        invariant forall j :: 0 <= j < NINODES && j != inum ==> fs.inodes[j] == old(fs.inodes)[j]
        invariant forall t :: 0 <= t < |txns| ==> SmallTxn(txns[t])
        invariant old(fs.Settled(inum)) ==> fs.Settled(inum) && Chunked(old(fs.blocks), files, inum, off0, src, i, txns)
        decreases n - i
      {
        var n1 := if n - i > CHUNK then CHUNK else n - i;
        ghost var blocks1, inodes1 := fs.blocks, fs.inodes;
        FittingNext(off0, size, off, n - i, n1);
        FileSize(blocks1, inodes1[inum]);
        ok, r := WriteChunk(fs, src[i..i + n1]);
        if !ok {
          if old(fs.Settled(inum)) {
            ChunkedOf(old(fs.blocks), files, inum, off0, src, i, w, txns);
          }
          return;
        }
        TraceSmall(fs.trace, fs.logged);
        ReplayAllAppend(old(fs.blocks), txns, fs.trace);
        if r >= 0 {
          ChunkFiles(blocks1, inodes1, fs.blocks, fs.inodes, files, inum, off0, src, i, n1);
        }
        if old(fs.Settled(inum)) {
          SyncedStored(fs.blocks, fs.inodes, fs.owner);
          ChunkedMore(old(fs.blocks), files, inum, off0, src, i, if r < 0 then i else i + n1, txns, fs.trace);
        }
        txns := txns + [fs.trace];
        if r < 0 {
          break;
        }
        i := i + r;
      }
      r := if i == n then n else -1;
    }
  }
}
