/**
 Block allocation, block mapping, truncation and byte-range access of fs.c. The
 blocks are those of the buffer cache, the blocks of inodes included; `inodes`
 are the inodes in memory. `logged` are the blocks log_write has seen since the
 operation began, `trace` is what they held at each of those calls, and `start`
 what all blocks held when the operation began.
 */
module Fs {
  import opened Params
  import opened Bytes
  import opened FsLayout
  import opened FsOwners
  import opened FsFiles
  import opened FsTrunc
  import opened FsInodes
  import opened Stores

  /** The bytes of one round: up to the end of the block, or of the request. */
  function Round(off: nat, left: nat): nat {
    if left < BSIZE - off % BSIZE then left else BSIZE - off % BSIZE
  }

  lemma {:induction false} RangeBounds(off: nat, n: nat)
    requires off + n <= MAXFILE * BSIZE
    ensures off / BSIZE <= UpTo(off, n) <= MAXFILE
    ensures n > 0 ==> off / BSIZE < UpTo(off, n)
    ensures n == 0 ==> UpTo(off, n) == off / BSIZE
  {
  }

  /** A round ends with the request or at a block boundary. */
  lemma {:induction false} RoundEnds(off: nat, left: nat)
    requires left > 0
    ensures var m := Round(off, left);
      && 0 < m <= left && off % BSIZE + m <= BSIZE
      && if m < left then off / BSIZE + 1 == (off + m) / BSIZE && (off + m) % BSIZE == 0 && UpTo(off + m, left - m) == UpTo(off, left)
         else off / BSIZE + 1 == UpTo(off, left)
  {
  }

  /** The blocks that a write to blocks lo to hi of inode i may log. */
  function Written(blocks: seq<Block>, ip: Inode, i: nat, lo: nat, hi: nat): set<nat> {
    {BMAPSTART, IBlock(i)} + IndirectAddr(ip) + RangeAddrs(blocks, ip, lo, hi)
  }

  const NO_FILES: seq<Block> := seq(FSSIZE, b => if b == BMAPSTART then FRESH else ZERO)
  const NO_INODES: seq<Inode> := seq(NINODES, _ => Raw.Inode(0, seq(NDIRECT + 1, _ => 0)))

  lemma {:induction false} FreshValid()
    ensures Linked(NO_FILES, NO_INODES, map[]) && Marked(NO_FILES[BMAPSTART], {})
  {
    hide Used;
    forall b: nat | b < FSSIZE ensures Used(NO_FILES[BMAPSTART], b) <==> b < DATASTART {
      FreshUsed(b);
    }
  }

  lemma {:induction false} FreshSettled()
    ensures forall i :: 0 <= i < NINODES ==> OnDisk(NO_FILES, i) == NO_INODES[i] && Dense(NO_FILES, NO_INODES[i])
  {
    hide InodeAt, Addr;
    forall i | 0 <= i < NINODES ensures OnDisk(NO_FILES, i) == NO_INODES[i] {
      ZeroInode(i % IPB);
    }
  }

  /** What is known of a range and of a dense file stays when the map stays. */
  lemma {:induction false} MapStays(a: Image, b: Image, i: nat, lo: nat, hi: nat)
    requires SameMap(a, b) && i < |a.inodes| && hi <= MAXFILE && RangeMapped(a.blocks, a.inodes[i], lo, hi)
    requires a.inodes[i].size <= MAXFILE * BSIZE
    ensures RangeMapped(b.blocks, b.inodes[i], lo, hi)
    ensures Written(b.blocks, b.inodes[i], i, lo, hi) == Written(a.blocks, a.inodes[i], i, lo, hi)
    ensures Dense(a.blocks, a.inodes[i]) ==> Dense(b.blocks, b.inodes[i])
  {
    hide Addr, RangeMapped, RangeAddrs;
    assert KeepsMap(a, b);
    RangeKept(a, b, i, lo, hi);
    if Dense(a.blocks, a.inodes[i]) {
      RangeKept(a, b, i, 0, UpTo(0, a.inodes[i].size));
    }
  }

  class Fs {
    var blocks: seq<Block>
    var inodes: seq<Inode>
    var logged: set<nat>
    ghost var owner: Owner
    ghost var start: seq<Block>
    ghost var trace: seq<Store>

    /** Every change to a block since the operation began has gone through log_write. */
    ghost predicate Traced()
      reads this
    {
      && |blocks| == |start| == FSSIZE && blocks == Replay(start, trace)
      && forall w :: w in trace ==> INODESTART <= w.b < FSSIZE && w.b in logged
    }

    ghost predicate Shaped()
      reads this
    {
      && Traced() && |inodes| == NINODES && Linked(blocks, inodes, owner)
      && forall i :: 0 <= i < |inodes| ==> inodes[i].size <= MAXFILE * BSIZE
    }

    ghost predicate Valid()
      reads this
    {
      Shaped() && Marked(blocks[BMAPSTART], owner.Keys)
    }

    /** The inodes on the disk are those in memory. */
    ghost predicate Synced()
      reads this
    {
      |blocks| == FSSIZE && |inodes| == NINODES && forall i :: 0 <= i < NINODES ==> OnDisk(blocks, i) == inodes[i]
    }

    /** So they are, and file i is without holes. */
    ghost predicate Settled(i: nat)
      reads this
    {
      Synced() && i < NINODES && Dense(blocks, inodes[i])
    }

    /** A file system without files. */
    constructor ()
      ensures Valid() && owner == map[]
      ensures forall i :: 0 <= i < NINODES ==> Settled(i) && inodes[i].size == 0
    {
      blocks, inodes := NO_FILES, NO_INODES;
      logged, owner, start, trace := {}, map[], NO_FILES, [];
      new;
      FreshValid();
      FreshSettled();
    }

    /** The caller changes a block and calls log_write. */
    method LogBlock(b: nat, data: Block)
      requires Traced() && INODESTART <= b < FSSIZE
      modifies `blocks, `logged, `trace
      ensures Traced() && blocks == old(blocks)[b := data] && logged == old(logged) + {b}
    {
      hide Replay;
      ReplayAppend(start, trace, Store(b, data));
      blocks := blocks[b := data];
      logged := logged + {b};
      trace := trace + [Store(b, data)];
    }

    /** The operation begins. */
    ghost method Begin()
      requires |blocks| == FSSIZE
      modifies `start, `trace
      ensures Traced() && start == blocks && trace == []
    {
      start, trace := blocks, [];
    }

    /** balloc: the first block that is not in use, zeroed; false is the panic. */
    method Balloc() returns (ok: bool, r: nat)
      requires Valid()
      modifies `blocks, `logged, `trace
      ensures Shaped() && (ok <==> |owner| < NDATA) && blocks[..BMAPSTART] == old(blocks)[..BMAPSTART]
      ensures !ok ==> blocks == old(blocks) && logged == old(logged)
      ensures ok ==> DATASTART <= r < FSSIZE && r !in owner && blocks[r] == ZERO
      ensures ok ==> forall c: nat :: c < r ==> Used(old(blocks)[BMAPSTART], c)
      ensures ok ==> logged == old(logged) + {BMAPSTART, r}
      ensures ok ==> Marked(blocks[BMAPSTART], owner.Keys + {r})
      ensures ok ==> blocks == old(blocks)[BMAPSTART := blocks[BMAPSTART]][r := ZERO]
    {
      hide Bit, Mark, SlotsOk, OwnersOk;
      var b := 0;
      while b < FSSIZE
        invariant b % BPB == 0 && Valid() && blocks == old(blocks) && logged == old(logged)
        invariant forall c: nat :: c < b && c < FSSIZE ==> Used(blocks[BMAPSTART], c)
      {
        assert b == 0;
        var bi := 0;
        while bi < BPB && b + bi < FSSIZE
          invariant 0 <= bi <= BPB && Valid() && blocks == old(blocks) && logged == old(logged)
          invariant forall c: nat :: c < b + bi && c < FSSIZE ==> Used(blocks[BMAPSTART], c)
        {
          var bitmap := blocks[BMAPSTART + b / BPB];
          if !Bit(bitmap[bi / 8], bi % 8) {
            r := b + bi;
            Claim(blocks, inodes, owner, r);
            LogBlock(BMAPSTART + b / BPB, Mark(bitmap, bi, true));
            LogBlock(r, ZERO);
            return true, r;
          }
          bi := bi + 1;
        }
        b := b + BPB;
      }
      OwnedRange(blocks, inodes, owner);
      CountFree(owner.Keys);
      return false, 0;
    }

    ghost function Now(): Image
      reads this
    {
      Image(blocks, inodes, owner)
    }

    /** The address in a slot of the inode itself, allocated when there is none. */
    method SlotAddr(i: nat, k: nat) returns (ok: bool, addr: nat)
      requires Valid() && i < NINODES && k <= NDIRECT
      modifies `blocks, `inodes, `logged, `trace, `owner
      ensures ok <==> old(inodes)[i].addrs[k] != 0 || |old(owner)| < NDATA
      ensures !ok || old(inodes)[i].addrs[k] != 0 ==> Now() == old(Now()) && logged == old(logged)
      ensures ok ==> Valid() && Grows(old(Now()), Now(), i, {k}) && blocks[..BMAPSTART] == old(blocks)[..BMAPSTART]
      ensures ok ==> addr == inodes[i].addrs[k] && addr != 0 && logged <= old(logged) + {BMAPSTART, addr}
      ensures ok && old(inodes)[i].addrs[k] == 0 ==> |owner| == |old(owner)| + 1
    {
      hide Linked, Marked, Grows, Used, Addr, UintAt, PutUint;
      addr := inodes[i].addrs[k];
      ok := true;
      ghost var was := Now();
      if addr == 0 {
        ok, addr := Balloc();
        if !ok {
          return;
        }
        FillSlot(was, blocks, i, k, addr);
        inodes := inodes[i := inodes[i].(addrs := inodes[i].addrs[k := addr])];
        owner := owner[addr := Slot(i, k)];
      } else {
        GrowsNone(Now(), i, {k});
      }
    }

    /** bmap: the block that holds the bn-th block of the file, allocated when there is none; false is a panic. */
    method Bmap(i: nat, bn: nat) returns (ok: bool, addr: nat)
      requires Valid() && i < NINODES
      modifies `blocks, `inodes, `logged, `trace, `owner
      ensures ok <==> bn < MAXFILE && |old(owner)| + Need(old(blocks), old(inodes)[i], bn, bn + 1) <= NDATA
      ensures ok ==> Valid() && Grows(old(Now()), Now(), i, Touched(bn)) && blocks[..BMAPSTART] == old(blocks)[..BMAPSTART]
      ensures ok ==> addr == Addr(blocks, inodes[i], SlotOf(bn)) && addr in owner && owner[addr] == Slot(i, SlotOf(bn))
      ensures ok ==> DATASTART <= addr < FSSIZE && (bn >= NDIRECT ==> inodes[i].addrs[NDIRECT] != 0)
      ensures ok ==> |owner| == |old(owner)| + Need(old(blocks), old(inodes)[i], bn, bn + 1)
      ensures ok ==> logged <= old(logged) + {BMAPSTART, addr} + IndirectAddr(inodes[i])
      ensures ok && Need(old(blocks), old(inodes)[i], bn, bn + 1) == 0 ==> Now() == old(Now()) && logged == old(logged)
    {
      hide Linked, Marked, Grows, Used, UintAt, PutUint, Need;
      NeedOne(blocks, inodes[i], bn);
      OwnedBound(blocks, inodes, owner);
      if bn < NDIRECT {
        ok, addr := SlotAddr(i, bn);
        if ok {
          SlotOwned(blocks, inodes, owner, i, bn);
        }
      } else if bn < MAXFILE {
        ok, addr := BmapIndirect(i, bn - NDIRECT);
      } else {
        ok, addr := false, 0;
      }
    }

    /** The part of bmap beyond the direct blocks. */
    method BmapIndirect(i: nat, bn: nat) returns (ok: bool, addr: nat)
      requires Valid() && i < NINODES && bn < NINDIRECT
      modifies `blocks, `inodes, `logged, `trace, `owner
      ensures var k := NDIRECT + 1 + bn;
        var need := (if Addr(old(blocks), old(inodes)[i], k) == 0 then 1 else 0) + if old(inodes)[i].addrs[NDIRECT] == 0 then 1 else 0;
        && (ok <==> |old(owner)| + need <= NDATA)
        && (ok ==> Valid() && Grows(old(Now()), Now(), i, {NDIRECT, k}) && blocks[..BMAPSTART] == old(blocks)[..BMAPSTART])
        && (ok ==> addr == Addr(blocks, inodes[i], k) && addr in owner && owner[addr] == Slot(i, k))
        && (ok ==> DATASTART <= addr < FSSIZE && inodes[i].addrs[NDIRECT] != 0 && |owner| == |old(owner)| + need)
        && (ok ==> logged <= old(logged) + {BMAPSTART, addr, inodes[i].addrs[NDIRECT]})
        && (ok && need == 0 ==> Now() == old(Now()) && logged == old(logged))
    {
      hide Linked, Marked, Grows, Used, UintAt, PutUint, Replay;
      ghost var k := NDIRECT + 1 + bn;
      ghost var was := Now();
      ok, addr := SlotAddr(i, NDIRECT);
      if !ok {
        return;
      }
      IndirectOwned(blocks, inodes, owner, i);
      GrowsAddr(was, Now(), i, {NDIRECT}, i, k);
      var bp := addr;
      ghost var mid := Now();
      addr := UintAt(blocks[bp], bn);
      if addr == 0 {
        ok, addr := Balloc();
        if !ok {
          return;
        }
        FillEntry(mid, blocks, i, bn, addr);
        LogBlock(bp, PutUint(blocks[bp], bn, addr));
        owner := owner[addr := Slot(i, k)];
      } else {
        GrowsNone(mid, i, {k});
      }
      GrowsTrans(was, mid, Now(), i, {NDIRECT}, {k});
      assert {NDIRECT, k} == {NDIRECT} + {k};
      SlotOwned(blocks, inodes, owner, i, k);
      OwnedBound(blocks, inodes, owner);
    }

    /** One round of writei: at most a block's worth of bytes. */
    method PutBytes(i: nat, off: nat, bytes: seq<Byte>, ghost hi: nat) returns (ok: bool)
      requires Valid() && i < NINODES && off % BSIZE + |bytes| <= BSIZE && off / BSIZE < hi <= MAXFILE
      modifies `blocks, `inodes, `logged, `trace, `owner
      ensures ok <==> |old(owner)| + Need(old(blocks), old(inodes)[i], off / BSIZE, off / BSIZE + 1) <= NDATA
      ensures ok ==> Valid() && Put(old(Now()), Now(), i, off / BSIZE, off, bytes, hi, old(logged), logged)
      ensures ok ==> blocks[..BMAPSTART] == old(blocks)[..BMAPSTART]
    {
      hide Linked, Marked, Grows, Used, Need, Addr, Wrote, SameInodes, KeepsMap, SameMap, Patch, IndirectAddr;
      ghost var was := Now();
      var addr;
      ok, addr := Bmap(i, off / BSIZE);
      if !ok {
        return;
      }
      PutFacts(was, Now(), i, off / BSIZE, off % BSIZE, bytes, hi);
      assert |owner| == |was.owner| ==> inodes == was.inodes;
      LogBlock(addr, Patch(blocks[addr], off % BSIZE, bytes));
    }

    /** The loop of writei. */
    method WriteRange(i: nat, src: seq<Byte>, off: nat) returns (ok: bool)
      requires Valid() && i < NINODES && off + |src| <= MAXFILE * BSIZE
      modifies `blocks, `inodes, `logged, `trace, `owner
      ensures ok <==> |old(owner)| + Need(old(blocks), old(inodes)[i], off / BSIZE, UpTo(off, |src|)) <= NDATA
      ensures ok ==> Valid() && blocks[..BMAPSTART] == old(blocks)[..BMAPSTART]
      ensures ok ==> var hi := UpTo(off, |src|);
        Progress(old(Now()), Now(), i, off / BSIZE, hi, hi, off, src, old(logged), logged)
    {
      hide Linked, Marked, Used, Need, Addr, UpTo, Round, Progress, Put;
      var n := |src|;
      var tot := 0;
      ghost var was, l0 := Now(), logged;
      ghost var lo, hi := off / BSIZE, UpTo(off, n);
      ghost var cur := lo;
      RangeBounds(off, n);
      ProgressNone(was, i, lo, hi, off, logged);
      while tot < n
        invariant 0 <= tot <= n && Valid()
        invariant if tot < n then cur == (off + tot) / BSIZE && UpTo(off + tot, n - tot) == hi else cur == hi
        invariant Progress(was, Now(), i, lo, cur, hi, off, src[..tot], l0, logged)
        invariant blocks[..BMAPSTART] == old(blocks)[..BMAPSTART]
      {
        var o := off + tot;
        var m := Round(o, n - tot);
        RoundEnds(o, n - tot);
        RangeBounds(o, n - tot);
        ghost var mid, l1 := Now(), logged;
        ok := PutBytes(i, o, src[tot..tot + m], hi);
        if !ok {
          ProgressNeeds(was, mid, i, lo, cur, hi, off, src[..tot], l0, l1);
          return;
        }
        ProgressPut(was, mid, Now(), i, lo, cur, hi, off, src[..tot], src[tot..tot + m], l0, l1, logged);
        assert src[..tot] + src[tot..tot + m] == src[..tot + m];
        tot, cur := tot + m, cur + 1;
      }
      assert src[..n] == src;
      ok := true;
      OwnedBound(blocks, inodes, owner);
      ProgressDone(was, Now(), i, lo, hi, off, src, l0, logged);
    }

    /** iupdate: the inode as it is in memory goes to its block. */
    method Iupdate(i: nat)
      requires Valid() && i < NINODES
      modifies `blocks, `logged, `trace
      ensures Valid() && logged == old(logged) + {IBlock(i)}
      ensures blocks == old(blocks)[IBlock(i) := blocks[IBlock(i)]]
      ensures forall j :: 0 <= j < NINODES ==> OnDisk(blocks, j) == if j == i then inodes[i] else OnDisk(old(blocks), j)
      ensures forall j :: 0 <= j < NINODES ==> File(blocks, inodes[j]) == File(old(blocks), inodes[j])
      ensures SameMap(old(Now()), Now())
      ensures forall j :: 0 <= j < NINODES && Dense(old(blocks), inodes[j]) ==> Dense(blocks, inodes[j])
    {
      hide Linked, Marked, OnDisk, PutInode, Replay, Addr, File, Dense;
      OwnedFits(blocks, inodes, owner, i);
      var dip := PutInode(blocks[IBlock(i)], i % IPB, inodes[i]);
      MetadataKeepsFiles(blocks, inodes, owner, IBlock(i), dip);
      LogBlock(IBlock(i), dip);
      UpdatedInodes(old(blocks), blocks, i, inodes[i]);
      DenseAll(old(Now()), Now());
    }

    /**
     writei. It refuses an offset past the end, a range that wraps around and one
     past the largest file; otherwise it writes all bytes, or panics when the
     disk has too few free blocks.
     */
    method Writei(i: nat, src: seq<Byte>, off: nat) returns (ok: bool, r: int)
      requires Valid() && i < NINODES && off < U32 && |src| < U32
      modifies `blocks, `inodes, `logged, `trace, `owner
      ensures r == -1 <==> off > old(inodes)[i].size || off + |src| > MAXFILE * BSIZE
      ensures r == -1 ==> ok && Now() == old(Now()) && logged == old(logged) && trace == old(trace)
      ensures r != -1 ==> r == |src| && off <= old(inodes)[i].size && off + |src| <= MAXFILE * BSIZE
      ensures r != -1 ==> (ok <==> |old(owner)| + Need(old(blocks), old(inodes)[i], off / BSIZE, UpTo(off, |src|)) <= NDATA)
      ensures ok ==> Valid()
      ensures ok && r != -1 ==> File(blocks, inodes[i]) == Splice(File(old(blocks), old(inodes)[i]), off, src)
      ensures ok ==> forall j :: 0 <= j < NINODES && j != i ==>
        inodes[j] == old(inodes)[j] && File(blocks, inodes[j]) == File(old(blocks), old(inodes)[j])
      ensures ok && r != -1 ==> |owner| == |old(owner)| + Need(old(blocks), old(inodes)[i], off / BSIZE, UpTo(off, |src|))
      ensures ok && r != -1 ==> RangeMapped(blocks, inodes[i], off / BSIZE, UpTo(off, |src|))
      ensures ok && r != -1 ==> logged <= old(logged) + Written(blocks, inodes[i], i, off / BSIZE, UpTo(off, |src|))
      ensures ok ==> forall j :: 0 <= j < NINODES && j != i ==> OnDisk(blocks, j) == OnDisk(old(blocks), j)
      ensures ok && OnDisk(old(blocks), i) == old(inodes)[i] && Dense(old(blocks), old(inodes)[i]) ==>
        OnDisk(blocks, i) == inodes[i] && Dense(blocks, inodes[i])
      ensures ok && old(Settled(i)) ==> Settled(i)
      ensures ok ==> forall j :: 0 <= j < NINODES && Dense(old(blocks), old(inodes)[j]) ==> Dense(blocks, inodes[j])
    {
      hide Linked, Marked, Used, Need, Addr, UpTo, RangeMapped, RangeAddrs, IndirectAddr, Progress, File, Splice, Dense, OnDisk,
           Replay, SameMap;
      var n := |src|;
      if off > inodes[i].size || (off + n) % U32 < off {
        return true, -1;
      }
      if off + n > MAXFILE * BSIZE {
        return true, -1;
      }
      ghost var was, l0 := Now(), logged;
      ghost var lo, hi := off / BSIZE, UpTo(off, n);
      r := n;
      ok := WriteRange(i, src, off);
      if !ok {
        return;
      }
      RangeBounds(off, n);
      SameInodeBlocks(was.blocks, blocks);
      DenseOthers(was, Now(), i, lo, hi, off, src, l0, logged);
      ProgressDone(was, Now(), i, lo, hi, off, src, l0, logged);
      WriteiDone(was, Now(), i, lo, hi, off, src, l0, logged);
      if Dense(was.blocks, was.inodes[i]) {
        DenseAfter(was, Now(), i, off, src, l0, logged);
      }
      if n > 0 && off + n > inodes[i].size {
        inodes := inodes[i := inodes[i].(size := off + n)];
        ghost var mid := Now();
        Iupdate(i);
        MapStays(mid, Now(), i, lo, hi);
      } else {
        assert inodes[i := inodes[i].(size := inodes[i].size)] == inodes;
      }
    }

    /** The loop of readi. */
    method ReadRange(i: nat, off: nat, n: nat) returns (ok: bool, dst: seq<Byte>)
      requires Valid() && i < NINODES && off + n <= MAXFILE * BSIZE
      modifies `blocks, `inodes, `logged, `trace, `owner
      ensures ok <==> |old(owner)| + Need(old(blocks), old(inodes)[i], off / BSIZE, UpTo(off, n)) <= NDATA
      ensures ok ==> Valid()
      ensures ok ==> var hi := UpTo(off, n);
        Progress(old(Now()), Now(), i, off / BSIZE, hi, hi, off, [], old(logged), logged)
      ensures ok ==> |dst| == n && forall t: nat :: t < n ==> dst[t] == Data(old(blocks), old(inodes)[i], off + t)
      ensures Need(old(blocks), old(inodes)[i], off / BSIZE, UpTo(off, n)) == 0 ==> ok && Now() == old(Now()) && logged == old(logged)
    {
      hide Linked, Marked, Used, Need, Addr, Data, UpTo, Round, Progress, Put, Grows, IndirectAddr;
      var tot := 0;
      dst := [];
      ghost var was, l0 := Now(), logged;
      ghost var lo, hi := off / BSIZE, UpTo(off, n);
      ghost var cur := lo;
      RangeBounds(off, n);
      OwnedBound(blocks, inodes, owner);
      ProgressNone(was, i, lo, hi, off, logged);
      while tot < n
        invariant 0 <= tot <= n && Valid() && |dst| == tot
        invariant if tot < n then cur == (off + tot) / BSIZE && UpTo(off + tot, n - tot) == hi else cur == hi
        invariant Progress(was, Now(), i, lo, cur, hi, off, [], l0, logged)
        invariant forall t: nat :: t < tot ==> dst[t] == Data(was.blocks, was.inodes[i], off + t)
        invariant Need(was.blocks, was.inodes[i], lo, hi) == 0 ==> Now() == was && logged == l0
      {
        var o := off + tot;
        var m := Round(o, n - tot);
        RoundEnds(o, n - tot);
        RangeBounds(o, n - tot);
        ghost var mid, l1 := Now(), logged;
        ProgressNeeds(was, mid, i, lo, cur, hi, off, [], l0, l1);
        var addr;
        ok, addr := Bmap(i, o / BSIZE);
        if !ok {
          return;
        }
        GrowsPut(mid, Now(), i, cur, off, hi, l1, logged);
        ProgressPut(was, mid, Now(), i, lo, cur, hi, off, [], [], l0, l1, logged);
        assert dst[..0] + dst[..0] == [];
        BlockBytes(blocks, inodes[i], o, m);
        SameBytes(was, Now(), i, lo, cur + 1, hi, off, l0, logged, o, m);
        dst := dst + blocks[addr][o % BSIZE..o % BSIZE + m];
        tot, cur := tot + m, cur + 1;
      }
      ok := true;
      OwnedBound(blocks, inodes, owner);
      ProgressDone(was, Now(), i, lo, hi, off, [], l0, logged);
    }

    /**
     readi. It refuses an offset past the end and a range that wraps around;
     otherwise it returns the bytes up to the end of the file. A block that is
     not mapped would be allocated here, which a dense file rules out.
     */
    method Readi(i: nat, off: nat, n: nat) returns (ok: bool, r: int, dst: seq<Byte>)
      requires Valid() && i < NINODES && off < U32 && n < U32
      modifies `blocks, `inodes, `logged, `trace, `owner
      ensures r == -1 <==> off > old(inodes)[i].size || off + n >= U32
      ensures r == -1 ==> ok && Now() == old(Now()) && logged == old(logged)
      ensures r != -1 ==> 0 <= r && r == if off + n > old(inodes)[i].size then old(inodes)[i].size - off else n
      ensures r != -1 ==> (ok <==> |old(owner)| + Need(old(blocks), old(inodes)[i], off / BSIZE, UpTo(off, r)) <= NDATA)
      ensures ok && r != -1 ==> dst == File(old(blocks), old(inodes)[i])[off..off + r]
      ensures ok && r != -1 ==> |owner| == |old(owner)| + Need(old(blocks), old(inodes)[i], off / BSIZE, UpTo(off, r))
      ensures ok ==> Valid()
      ensures ok ==> forall j :: 0 <= j < NINODES ==> File(blocks, inodes[j]) == File(old(blocks), old(inodes)[j])
      ensures Dense(old(blocks), old(inodes)[i]) ==> ok && Now() == old(Now()) && logged == old(logged)
    {
      hide Linked, Marked, Used, Need, Addr, UpTo, Progress, Dense, Data;
      dst := [];
      if off > inodes[i].size || (off + n) % U32 < off {
        return true, -1, dst;
      }
      var left := n;
      if off + n > inodes[i].size {
        left := inodes[i].size - off;
      }
      ghost var was, l0 := Now(), logged;
      if Dense(blocks, inodes[i]) {
        DenseNeeds(blocks, inodes[i], off, left);
      }
      r := left;
      ok, dst := ReadRange(i, off, left);
      if ok {
        ProgressDone(was, Now(), i, off / BSIZE, UpTo(off, left), off, [], l0, logged);
        ReadiDone(was, Now(), i, off / BSIZE, UpTo(off, left), off, l0, logged);
        assert dst == File(was.blocks, was.inodes[i])[off..off + r];
      }
    }

    /** bfree: the block is marked free; false is the panic on a block that is free already. */
    method Bfree(b: nat) returns (ok: bool)
      requires Traced() && b < FSSIZE
      modifies `blocks, `logged, `trace
      ensures Traced()
      ensures ok <==> Used(old(blocks)[BMAPSTART], b)
      ensures !ok ==> blocks == old(blocks) && logged == old(logged)
      ensures ok ==> blocks == old(blocks)[BMAPSTART := Mark(old(blocks)[BMAPSTART], b, false)] && logged == old(logged) + {BMAPSTART}
    {
      hide Bit, Mark;
      var bitmap := blocks[BMAPSTART + b / BPB];
      var bi := b % BPB;
      if !Bit(bitmap[bi / 8], bi % 8) {
        return false;
      }
      LogBlock(BMAPSTART + b / BPB, Mark(bitmap, bi, false));
      return true;
    }

    /** The first loop of itrunc: the direct blocks. */
    method TruncDirect(i: nat) returns (ok: bool)
      requires Valid() && i < NINODES
      modifies `blocks, `inodes, `logged, `trace, `owner
      ensures ok && Valid() && owner == old(owner) - Held(old(owner), i, 0, NDIRECT)
      ensures inodes == old(inodes)[i := inodes[i]] && inodes[i].size == old(inodes)[i].size
      ensures inodes[i].addrs[NDIRECT] == old(inodes)[i].addrs[NDIRECT] && forall l :: 0 <= l < NDIRECT ==> inodes[i].addrs[l] == 0
      ensures blocks == old(blocks)[BMAPSTART := blocks[BMAPSTART]] && logged <= old(logged) + {BMAPSTART}
    {
      hide Linked, Used, Held, Mark;
      ok := true;
      var k := 0;
      HeldNone(owner, i, 0);
      while k < NDIRECT
        invariant k <= NDIRECT && ok && Valid() && owner == old(owner) - Held(old(owner), i, 0, k)
        invariant inodes == old(inodes)[i := inodes[i]] && inodes[i].size == old(inodes)[i].size
        invariant forall l :: 0 <= l <= NDIRECT ==> inodes[i].addrs[l] == if l < k then 0 else old(inodes)[i].addrs[l]
        invariant blocks == old(blocks)[BMAPSTART := blocks[BMAPSTART]] && logged <= old(logged) + {BMAPSTART}
      {
        HeldSplit(old(owner), i, 0, k, k + 1);
        DetachDirect(blocks, inodes, owner, i, k);
        var a := inodes[i].addrs[k];
        if a != 0 {
          SlotOwned(blocks, inodes, owner, i, k);
          Release(blocks, inodes, owner, owner.Keys, a);
          ok := Bfree(a);
          DetachDirect(blocks, inodes, owner, i, k);
          inodes := inodes[i := inodes[i].(addrs := inodes[i].addrs[k := 0])];
          owner := owner - {a};
        }
        k := k + 1;
      }
    }

    /** The rest of itrunc: the entries of the indirect block, then the block itself. */
    method TruncIndirect(i: nat) returns (ok: bool)
      requires Valid() && i < NINODES && inodes[i].addrs[NDIRECT] != 0
      modifies `blocks, `inodes, `logged, `trace, `owner
      ensures ok && Valid() && owner == old(owner) - Held(old(owner), i, NDIRECT, NSLOT)
      ensures inodes == old(inodes)[i := old(inodes)[i].(addrs := old(inodes)[i].addrs[NDIRECT := 0])]
      ensures blocks == old(blocks)[BMAPSTART := blocks[BMAPSTART]] && logged <= old(logged) + {BMAPSTART}
    {
      hide Linked, Used, Held, Mark, Addr, UintAt;
      ok := true;
      var x := inodes[i].addrs[NDIRECT];
      IndirectOwned(blocks, inodes, owner, i);
      var bp := blocks[x];
      var j := 0;
      HeldNone(owner, i, NDIRECT + 1);
      while j < NINDIRECT
        invariant j <= NINDIRECT && ok && Shaped() && inodes == old(inodes) && owner == old(owner)
        invariant Marked(blocks[BMAPSTART], owner.Keys - Held(owner, i, NDIRECT + 1, NDIRECT + 1 + j))
        invariant blocks == old(blocks)[BMAPSTART := blocks[BMAPSTART]] && logged <= old(logged) + {BMAPSTART}
      {
        EntryHeld(blocks, inodes, owner, i, j);
        var a := UintAt(bp, j);
        if a != 0 {
          Release(blocks, inodes, owner, owner.Keys - Held(owner, i, NDIRECT + 1, NDIRECT + 1 + j), a);
          ok := Bfree(a);
        }
        j := j + 1;
      }
      ghost var marked := owner.Keys - Held(owner, i, NDIRECT + 1, NSLOT);
      EntryHeld(blocks, inodes, owner, i, 0);
      Release(blocks, inodes, owner, marked, x);
      ok := Bfree(x);
      DetachIndirect(blocks, inodes, owner, i);
      HeldIndirect(blocks, inodes, owner, i);
      inodes := inodes[i := inodes[i].(addrs := inodes[i].addrs[NDIRECT := 0])];
      owner := owner - Held(owner, i, NDIRECT, NSLOT);
    }

    /** itrunc: exactly the blocks of the inode become free, and no other file changes. */
    method Itrunc(i: nat) returns (ok: bool)
      requires Valid() && i < NINODES
      modifies `blocks, `inodes, `logged, `trace, `owner
      ensures ok && Valid() && owner == old(owner) - Held(old(owner), i, 0, NSLOT)
      ensures inodes == old(inodes)[i := inodes[i]] && inodes[i].size == 0 && forall k :: 0 <= k <= NDIRECT ==> inodes[i].addrs[k] == 0
      ensures forall j :: 0 <= j < NINODES && j != i ==> File(blocks, inodes[j]) == File(old(blocks), old(inodes)[j])
      ensures forall j :: 0 <= j < NINODES ==> OnDisk(blocks, j) == if j == i then inodes[i] else OnDisk(old(blocks), j)
      ensures logged <= old(logged) + {BMAPSTART, IBlock(i)}
      ensures old(Synced()) ==> Settled(i)
      ensures forall j :: 0 <= j < NINODES && Dense(old(blocks), old(inodes)[j]) ==> Dense(blocks, inodes[j])
    {
      hide Linked, Marked, Held, File, Addr, Dense, OnDisk, Replay;
      ghost var was := Now();
      ok := TruncDirect(i);
      HeldSplit(was.owner, i, 0, NDIRECT, NSLOT);
      if inodes[i].addrs[NDIRECT] != 0 {
        ok := TruncIndirect(i);
      } else {
        NoEntries(blocks, inodes, owner, i);
      }
      assert blocks == was.blocks[BMAPSTART := blocks[BMAPSTART]];
      MetadataKeepsFiles(was.blocks, was.inodes, was.owner, BMAPSTART, blocks[BMAPSTART]);
      DenseAll(was, was.(blocks := blocks));
      SameInodeBlocks(was.blocks, blocks);
      ResizeLinked(Now(), i, 0);
      inodes := inodes[i := inodes[i].(size := 0)];
      Iupdate(i);
      DenseEmpty(blocks, inodes[i]);
    }
  }
}
