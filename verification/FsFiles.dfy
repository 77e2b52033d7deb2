/** What a write does to the bytes of every file. */
module FsFiles {
  import opened Params
  import opened Bytes
  import opened FsLayout
  import opened FsOwners

  ghost predicate SameInodes(a: Image, b: Image, i: nat) {
    && |b.inodes| == |a.inodes|
    && (forall j :: 0 <= j < |a.inodes| && j != i ==> b.inodes[j] == a.inodes[j])
    && (i < |a.inodes| ==> b.inodes[i].size == a.inodes[i].size)
  }

  /** Addresses that inodes have stay where they are. */
  ghost predicate KeepsMap(a: Image, b: Image) {
    && |a.inodes| == |b.inodes|
    && forall j: nat, l: nat {:trigger Addr(b.blocks, b.inodes[j], l)} ::
      j < |a.inodes| && l < NSLOT && Addr(a.blocks, a.inodes[j], l) != 0 ==>
        Addr(b.blocks, b.inodes[j], l) == Addr(a.blocks, a.inodes[j], l)
  }

  ghost predicate SameMap(a: Image, b: Image) {
    && a.inodes == b.inodes
    && forall j: nat, l: nat {:trigger Addr(b.blocks, b.inodes[j], l)} ::
      j < |a.inodes| && l < NSLOT ==> Addr(b.blocks, b.inodes[j], l) == Addr(a.blocks, a.inodes[j], l)
  }

  lemma {:induction false} SameNeed(a: Image, b: Image, i: nat, lo: nat, hi: nat)
    requires SameMap(a, b) && i < |a.inodes| && hi <= MAXFILE
    ensures Need(b.blocks, b.inodes[i], lo, hi) == Need(a.blocks, a.inodes[i], lo, hi)
  {
    hide Addr;
    HolesSame(a.blocks, a.inodes[i], b.blocks, b.inodes[i], lo, hi);
  }

  /** From byte o on, inode i reads `bytes`; every other byte of every file reads as before. */
  ghost predicate Wrote(a: Image, b: Image, i: nat, o: nat, bytes: seq<Byte>) {
    && |b.inodes| == |a.inodes|
    && forall j: nat, p: nat {:trigger Data(b.blocks, b.inodes[j], p)} :: j < |a.inodes| && p < MAXFILE * BSIZE ==>
      Data(b.blocks, b.inodes[j], p) == if j == i && o <= p < o + |bytes| then bytes[p - o] else Data(a.blocks, a.inodes[j], p)
  }

  lemma {:induction false} WroteTrans(a: Image, b: Image, c: Image, i: nat, o: nat, x: seq<Byte>, y: seq<Byte>)
    requires Wrote(a, b, i, o, x) && Wrote(b, c, i, o + |x|, y)
    ensures Wrote(a, c, i, o, x + y)
  {
    hide Data;
    forall j: nat, p: nat | j < |a.inodes| && p < MAXFILE * BSIZE
      ensures Data(c.blocks, c.inodes[j], p)
        == if j == i && o <= p < o + |x + y| then (x + y)[p - o] else Data(a.blocks, a.inodes[j], p)
    {
      assert Data(b.blocks, b.inodes[j], p) == Data(b.blocks, b.inodes[j], p);
    }
  }

  lemma {:induction false} GrowsWroteNone(a: Image, b: Image, i: nat, ks: set<nat>, o: nat)
    requires Grows(a, b, i, ks) && i < |a.inodes|
    ensures Wrote(a, b, i, o, []) && SameInodes(a, b, i) && KeepsMap(a, b)
  {
    hide Data, Addr;
  }

  lemma {:induction false} KeepsMapTrans(a: Image, b: Image, c: Image, i: nat)
    requires KeepsMap(a, b) && KeepsMap(b, c) && SameInodes(a, b, i) && SameInodes(b, c, i)
    ensures KeepsMap(a, c) && SameInodes(a, c, i)
  {
    hide Addr;
    forall j: nat, l: nat | j < |a.inodes| && l < NSLOT && Addr(a.blocks, a.inodes[j], l) != 0
      ensures Addr(c.blocks, c.inodes[j], l) == Addr(a.blocks, a.inodes[j], l)
    {
      assert Addr(b.blocks, b.inodes[j], l) == Addr(a.blocks, a.inodes[j], l);
    }
  }

  /** The block with `bytes` from position x on. */
  function Patch(block: Block, x: nat, bytes: seq<Byte>): Block
    requires x + |bytes| <= BSIZE
  {
    block[..x] + bytes + block[x + |bytes|..]
  }

  lemma {:induction false} PatchData(a: Image, i: nat, bn: nat, x: nat, bytes: seq<Byte>)
    requires LinkedImage(a) && i < |a.inodes| && bn < MAXFILE && x + |bytes| <= BSIZE
    requires Addr(a.blocks, a.inodes[i], SlotOf(bn)) != 0
    ensures var d := Addr(a.blocks, a.inodes[i], SlotOf(bn));
      && DATASTART <= d < FSSIZE
      && var b := a.(blocks := a.blocks[d := Patch(a.blocks[d], x, bytes)]);
        LinkedImage(b) && Wrote(a, b, i, bn * BSIZE + x, bytes) && SameMap(a, b)
  {
    hide Addr, Used;
    var d := Addr(a.blocks, a.inodes[i], SlotOf(bn));
    SlotOwned(a.blocks, a.inodes, a.owner, i, SlotOf(bn));
    var b := a.(blocks := a.blocks[d := Patch(a.blocks[d], x, bytes)]);
    KeepAddrs(a.blocks, b.blocks, a.inodes, a.owner);
    var o := bn * BSIZE + x;
    forall j: nat, p: nat | j < |a.inodes| && p < MAXFILE * BSIZE
      ensures Data(b.blocks, b.inodes[j], p)
        == if j == i && o <= p < o + |bytes| then bytes[p - o] else Data(a.blocks, a.inodes[j], p)
    {
      PatchByte(a, b, i, bn, x, bytes, j, p);
    }
  }

  lemma {:induction false} PatchByte(a: Image, b: Image, i: nat, bn: nat, x: nat, bytes: seq<Byte>, j: nat, p: nat)
    requires Linked(a.blocks, a.inodes, a.owner) && i < |a.inodes| && bn < MAXFILE && x + |bytes| <= BSIZE
    requires var d := Addr(a.blocks, a.inodes[i], SlotOf(bn));
      0 < d < FSSIZE && b == a.(blocks := a.blocks[d := Patch(a.blocks[d], x, bytes)])
    requires j < |a.inodes| && p < MAXFILE * BSIZE
    requires Addr(b.blocks, b.inodes[j], SlotOf(p / BSIZE)) == Addr(a.blocks, a.inodes[j], SlotOf(p / BSIZE))
    ensures var o := bn * BSIZE + x;
      Data(b.blocks, b.inodes[j], p) == if j == i && o <= p < o + |bytes| then bytes[p - o] else Data(a.blocks, a.inodes[j], p)
  {
    hide Addr;
    var d := Addr(a.blocks, a.inodes[i], SlotOf(bn));
    SlotOwned(a.blocks, a.inodes, a.owner, i, SlotOf(bn));
    var e := Addr(a.blocks, a.inodes[j], SlotOf(p / BSIZE));
    if e != 0 {
      SlotOwned(a.blocks, a.inodes, a.owner, j, SlotOf(p / BSIZE));
    }
    if e == d {
      assert j == i && p / BSIZE == bn;
    }
  }

  /** The block is mapped, then patched: all that one round of writei does. */
  lemma {:induction false} PutFacts(a: Image, b: Image, i: nat, bn: nat, x: nat, bytes: seq<Byte>, hi: nat)
    requires |b.blocks| == FSSIZE && LinkedImage(b) && Grows(a, b, i, Touched(bn))
    requires i < |a.inodes| && bn < hi <= MAXFILE && x + |bytes| <= BSIZE
    requires Addr(b.blocks, b.inodes[i], SlotOf(bn)) != 0 && (bn >= NDIRECT ==> b.inodes[i].addrs[NDIRECT] != 0)
    ensures var d := Addr(b.blocks, b.inodes[i], SlotOf(bn));
      && DATASTART <= d < FSSIZE
      && var c := b.(blocks := b.blocks[d := Patch(b.blocks[d], x, bytes)]);
        && LinkedImage(c) && Wrote(a, c, i, bn * BSIZE + x, bytes) && SameInodes(a, c, i) && KeepsMap(a, c)
        && Addr(c.blocks, c.inodes[i], SlotOf(bn)) == d
        && Need(a.blocks, a.inodes[i], bn, hi)
           == Need(c.blocks, c.inodes[i], bn + 1, hi) + Need(a.blocks, a.inodes[i], bn, bn + 1)
  {
    hide Addr, Grows, LinkedImage, Wrote, Patch, Need;
    GrowsWroteNone(a, b, i, Touched(bn), bn * BSIZE + x);
    var d := Addr(b.blocks, b.inodes[i], SlotOf(bn));
    PatchData(b, i, bn, x, bytes);
    var c := b.(blocks := b.blocks[d := Patch(b.blocks[d], x, bytes)]);
    WroteTrans(a, b, c, i, bn * BSIZE + x, [], bytes);
    assert [] + bytes == bytes;
    KeepsMapTrans(a, b, c, i);
    NeedStep(a, b, i, bn, hi);
    SameNeed(b, c, i, bn + 1, hi);
  }

  // ------------------------------------------------------ blocks of a range

  /** One past the last block that n bytes from `off` reach. */
  function UpTo(off: nat, n: nat): nat {
    if n == 0 then off / BSIZE else (off + n - 1) / BSIZE + 1
  }

  /** The addresses of blocks lo to hi. */
  function RangeAddrs(blocks: seq<Block>, ip: Inode, lo: nat, hi: nat): (s: set<nat>)
    ensures lo <= hi ==> |s| <= hi - lo
    decreases hi - lo
  {
    if lo >= hi then {} else RangeAddrs(blocks, ip, lo, hi - 1) + {Addr(blocks, ip, SlotOf(hi - 1))}
  }

  ghost predicate RangeMapped(blocks: seq<Block>, ip: Inode, lo: nat, hi: nat) {
    forall bn: nat {:trigger SlotOf(bn)} :: lo <= bn < hi ==> Addr(blocks, ip, SlotOf(bn)) != 0
  }

  function IndirectAddr(ip: Inode): set<nat> {
    if ip.addrs[NDIRECT] == 0 then {} else {ip.addrs[NDIRECT]}
  }

  lemma {:induction false} RangeKept(a: Image, b: Image, i: nat, lo: nat, hi: nat)
    requires KeepsMap(a, b) && i < |a.inodes| && hi <= MAXFILE && RangeMapped(a.blocks, a.inodes[i], lo, hi)
    ensures RangeMapped(b.blocks, b.inodes[i], lo, hi)
    ensures RangeAddrs(b.blocks, b.inodes[i], lo, hi) == RangeAddrs(a.blocks, a.inodes[i], lo, hi)
    decreases hi - lo
  {
    hide Addr;
    if lo < hi {
      RangeKept(a, b, i, lo, hi - 1);
      assert Addr(b.blocks, b.inodes[i], SlotOf(hi - 1)) == Addr(a.blocks, a.inodes[i], SlotOf(hi - 1));
    }
  }

  lemma {:induction false} IndirectKept(a: Image, b: Image, i: nat)
    requires KeepsMap(a, b) && i < |a.inodes|
    ensures IndirectAddr(a.inodes[i]) <= IndirectAddr(b.inodes[i])
  {
    assert Addr(b.blocks, b.inodes[i], NDIRECT) == b.inodes[i].addrs[NDIRECT];
    assert Addr(a.blocks, a.inodes[i], NDIRECT) == a.inodes[i].addrs[NDIRECT];
  }

  lemma {:induction false} WroteNothing(a: Image, i: nat, off: nat, lo: nat)
    requires i < |a.inodes|
    ensures Wrote(a, a, i, off, []) && SameInodes(a, a, i) && RangeMapped(a.blocks, a.inodes[i], lo, lo)
  {
    hide Data;
  }

  lemma {:induction false} NeedMore(blocks: seq<Block>, ip: Inode, lo: nat, hi: nat)
    requires lo < hi
    ensures Need(blocks, ip, lo, lo + 1) <= Need(blocks, ip, lo, hi)
  {
    hide Addr;
    assert Holes(blocks, ip, lo + 1, lo + 1) == 0;
  }

  /** The blocks, other than that of the inode, that a write to blocks lo to hi may log. */
  function Touches(blocks: seq<Block>, ip: Inode, lo: nat, hi: nat): set<nat> {
    {BMAPSTART} + IndirectAddr(ip) + RangeAddrs(blocks, ip, lo, hi)
  }

  /** One round of writei, in block bn. */
  ghost predicate Put(a: Image, b: Image, i: nat, bn: nat, off: nat, bytes: seq<Byte>, hi: nat, l0: set<nat>, l1: set<nat>) {
    && i < |a.inodes| == |b.inodes| && bn < hi <= MAXFILE
    && Wrote(a, b, i, off, bytes) && SameInodes(a, b, i) && KeepsMap(a, b)
    && Addr(b.blocks, b.inodes[i], SlotOf(bn)) != 0
    && |b.owner| == |a.owner| + Need(a.blocks, a.inodes[i], bn, bn + 1) && (|b.owner| == |a.owner| ==> b.inodes == a.inodes)
    && Need(a.blocks, a.inodes[i], bn, hi) == Need(b.blocks, b.inodes[i], bn + 1, hi) + Need(a.blocks, a.inodes[i], bn, bn + 1)
    && l1 <= l0 + {BMAPSTART, Addr(b.blocks, b.inodes[i], SlotOf(bn))} + IndirectAddr(b.inodes[i])
  }

  /** The rounds that wrote `bytes`, up to block cur. */
  ghost predicate Progress(a: Image, b: Image, i: nat, lo: nat, cur: nat, hi: nat, off: nat, bytes: seq<Byte>, l0: set<nat>, l1: set<nat>) {
    && i < |a.inodes| == |b.inodes| && lo <= cur <= hi <= MAXFILE
    && Wrote(a, b, i, off, bytes) && SameInodes(a, b, i)
    && RangeMapped(b.blocks, b.inodes[i], lo, cur) && KeepsMap(a, b)
    && |a.owner| <= |b.owner| && (|b.owner| == |a.owner| ==> b.inodes == a.inodes)
    && |b.owner| + Need(b.blocks, b.inodes[i], cur, hi) == |a.owner| + Need(a.blocks, a.inodes[i], lo, hi)
    && l1 <= l0 + Touches(b.blocks, b.inodes[i], lo, cur)
  }

  lemma {:induction false} ProgressNone(a: Image, i: nat, lo: nat, hi: nat, off: nat, l: set<nat>)
    requires i < |a.inodes| && lo <= hi <= MAXFILE
    ensures Progress(a, a, i, lo, lo, hi, off, [], l, l)
  {
    hide Addr, Need;
    WroteNothing(a, i, off, lo);
  }

  lemma {:induction false} ProgressPut(
      a: Image, b: Image, c: Image, i: nat, lo: nat, cur: nat, hi: nat, off: nat, x: seq<Byte>, y: seq<Byte>,
      l0: set<nat>, l1: set<nat>, l2: set<nat>)
    requires Progress(a, b, i, lo, cur, hi, off, x, l0, l1) && Put(b, c, i, cur, off + |x|, y, hi, l1, l2)
    ensures Progress(a, c, i, lo, cur + 1, hi, off, x + y, l0, l2)
  {
    hide Addr, Wrote, IndirectAddr, Need, SameInodes, KeepsMap, RangeMapped, Touches;
    WroteTrans(a, b, c, i, off, x, y);
    assert RangeMapped(c.blocks, c.inodes[i], lo, cur + 1) && l2 <= l0 + Touches(c.blocks, c.inodes[i], lo, cur + 1) by {
      TouchesMore(b, c, i, lo, cur, l0, l1, l2);
    }
    KeepsMapTrans(a, b, c, i);
  }

  lemma {:induction false} TouchesMore(b: Image, c: Image, i: nat, lo: nat, cur: nat, l0: set<nat>, l1: set<nat>, l2: set<nat>)
    requires KeepsMap(b, c) && i < |b.inodes| && lo <= cur < MAXFILE && RangeMapped(b.blocks, b.inodes[i], lo, cur)
    requires Addr(c.blocks, c.inodes[i], SlotOf(cur)) != 0
    requires l1 <= l0 + Touches(b.blocks, b.inodes[i], lo, cur)
    requires l2 <= l1 + {BMAPSTART, Addr(c.blocks, c.inodes[i], SlotOf(cur))} + IndirectAddr(c.inodes[i])
    ensures RangeMapped(c.blocks, c.inodes[i], lo, cur + 1)
    ensures l2 <= l0 + Touches(c.blocks, c.inodes[i], lo, cur + 1)
  {
    hide Addr, IndirectAddr;
    RangeKept(b, c, i, lo, cur);
    IndirectKept(b, c, i);
  }

  lemma {:induction false} ProgressNeeds(
      a: Image, b: Image, i: nat, lo: nat, cur: nat, hi: nat, off: nat, x: seq<Byte>, l0: set<nat>, l1: set<nat>)
    requires Progress(a, b, i, lo, cur, hi, off, x, l0, l1) && cur < hi
    ensures |b.owner| + Need(b.blocks, b.inodes[i], cur, cur + 1) <= |a.owner| + Need(a.blocks, a.inodes[i], lo, hi)
  {
    hide Addr, Wrote, Need;
    NeedMore(b.blocks, b.inodes[i], cur, hi);
  }

  lemma {:induction false} ProgressDone(a: Image, b: Image, i: nat, lo: nat, hi: nat, off: nat, x: seq<Byte>, l0: set<nat>, l1: set<nat>)
    requires Progress(a, b, i, lo, hi, hi, off, x, l0, l1)
    ensures |b.owner| == |a.owner| + Need(a.blocks, a.inodes[i], lo, hi)
  {
    hide Addr, Wrote;
  }

  /** A round of readi: the block is mapped and nothing is written. */
  lemma {:induction false} GrowsPut(a: Image, b: Image, i: nat, bn: nat, off: nat, hi: nat, l0: set<nat>, l1: set<nat>)
    requires Grows(a, b, i, Touched(bn)) && i < |a.inodes| && bn < hi <= MAXFILE
    requires i < |b.inodes| && Addr(b.blocks, b.inodes[i], SlotOf(bn)) != 0
    requires bn >= NDIRECT ==> b.inodes[i].addrs[NDIRECT] != 0
    requires |b.owner| == |a.owner| + Need(a.blocks, a.inodes[i], bn, bn + 1)
    requires l1 <= l0 + {BMAPSTART, Addr(b.blocks, b.inodes[i], SlotOf(bn))} + IndirectAddr(b.inodes[i])
    requires |b.owner| == |a.owner| ==> b.inodes == a.inodes
    ensures Put(a, b, i, bn, off, [], hi, l0, l1)
  {
    hide Addr, Grows, Wrote, Need, IndirectAddr;
    GrowsWroteNone(a, b, i, Touched(bn), off);
    NeedStep(a, b, i, bn, hi);
  }

  lemma {:induction false} BlockBytes(blocks: seq<Block>, ip: Inode, off: nat, m: nat)
    requires off % BSIZE + m <= BSIZE && 0 < Addr(blocks, ip, SlotOf(off / BSIZE)) < |blocks|
    ensures var block := blocks[Addr(blocks, ip, SlotOf(off / BSIZE))];
      block[off % BSIZE..off % BSIZE + m] == seq(m, t requires 0 <= t < m => Data(blocks, ip, off + t))
  {
    hide Addr;
    var part := blocks[Addr(blocks, ip, SlotOf(off / BSIZE))][off % BSIZE..off % BSIZE + m];
    forall t | 0 <= t < m ensures part[t] == Data(blocks, ip, off + t) {
      assert (off + t) / BSIZE == off / BSIZE && (off + t) % BSIZE == off % BSIZE + t;
    }
  }

  lemma {:induction false} SameBytes(a: Image, b: Image, i: nat, lo: nat, cur: nat, hi: nat, off: nat, l0: set<nat>, l1: set<nat>, o: nat, m: nat)
    requires Progress(a, b, i, lo, cur, hi, off, [], l0, l1) && o + m <= MAXFILE * BSIZE
    ensures seq(m, t requires 0 <= t < m => Data(b.blocks, b.inodes[i], o + t))
      == seq(m, t requires 0 <= t < m => Data(a.blocks, a.inodes[i], o + t))
  {
    hide Data, Need, RangeMapped, SameInodes;
  }

  // ------------------------------------------------------ whole files

  /** The file with `src` at offset `off`. */
  function Splice(file: seq<Byte>, off: nat, src: seq<Byte>): seq<Byte>
    requires off <= |file|
  {
    file[..off] + src + if off + |src| <= |file| then file[off + |src|..] else []
  }

  lemma {:induction false} WroteSplices(a: Image, b: Image, i: nat, off: nat, src: seq<Byte>, ip: Inode)
    requires Wrote(a, b, i, off, src) && SameInodes(a, b, i) && i < |a.inodes| && off <= a.inodes[i].size
    requires a.inodes[i].size <= MAXFILE * BSIZE && off + |src| <= MAXFILE * BSIZE
    requires ip == b.inodes[i].(size := if off + |src| > a.inodes[i].size then off + |src| else a.inodes[i].size)
    ensures File(b.blocks, ip) == Splice(File(a.blocks, a.inodes[i]), off, src)
  {
    hide Addr;
    var f, g := File(b.blocks, ip), Splice(File(a.blocks, a.inodes[i]), off, src);
    assert |f| == |g|;
    forall p: nat | p < |f| ensures f[p] == g[p] {
      assert Data(b.blocks, ip, p) == Data(b.blocks, b.inodes[i], p) by { DataIgnoresSize(b.blocks, ip, b.inodes[i], p); }
    }
  }

  lemma {:induction false} DataIgnoresSize(blocks: seq<Block>, x: Inode, y: Inode, p: nat)
    requires x.addrs == y.addrs
    ensures Data(blocks, x, p) == Data(blocks, y, p)
  {
  }

  lemma {:induction false} WroteOthers(a: Image, b: Image, i: nat, off: nat, src: seq<Byte>, j: nat)
    requires Wrote(a, b, i, off, src) && SameInodes(a, b, i) && j < |a.inodes| && j != i
    requires a.inodes[j].size <= MAXFILE * BSIZE
    ensures File(b.blocks, b.inodes[j]) == File(a.blocks, a.inodes[j])
  {
    hide Addr;
    assert forall p: nat :: p < a.inodes[j].size ==> Data(b.blocks, b.inodes[j], p) == Data(a.blocks, a.inodes[j], p);
  }

  function Resized(a: Image, i: nat, size: nat): Image
    requires i < |a.inodes|
  {
    a.(inodes := a.inodes[i := a.inodes[i].(size := size)])
  }

  lemma {:induction false} ResizeLinked(a: Image, i: nat, size: nat)
    requires LinkedImage(a) && i < |a.inodes|
    ensures LinkedImage(Resized(a, i, size))
  {
    var b := Resized(a, i, size);
    forall j: nat, l: nat | j < |a.inodes| && l < NSLOT
      ensures Addr(b.blocks, b.inodes[j], l) == Addr(a.blocks, a.inodes[j], l)
    {
    }
  }

  lemma {:induction false} ResizeRange(blocks: seq<Block>, ip: Inode, size: nat, lo: nat, hi: nat)
    ensures RangeAddrs(blocks, ip.(size := size), lo, hi) == RangeAddrs(blocks, ip, lo, hi)
    ensures RangeMapped(blocks, ip, lo, hi) ==> RangeMapped(blocks, ip.(size := size), lo, hi)
    decreases hi - lo
  {
    if lo < hi {
      ResizeRange(blocks, ip, size, lo, hi - 1);
    }
    forall k: nat ensures Addr(blocks, ip.(size := size), k) == Addr(blocks, ip, k) {
    }
  }

  /** writei as a whole: the file is spliced and no other file changes. */
  lemma {:induction false} WriteiDone(a: Image, b: Image, i: nat, lo: nat, hi: nat, off: nat, src: seq<Byte>, l0: set<nat>, l1: set<nat>)
    requires Progress(a, b, i, lo, hi, hi, off, src, l0, l1) && LinkedImage(b)
    requires forall j :: 0 <= j < |a.inodes| ==> a.inodes[j].size <= MAXFILE * BSIZE
    requires off <= a.inodes[i].size && off + |src| <= MAXFILE * BSIZE
    ensures var size := if off + |src| > a.inodes[i].size then off + |src| else a.inodes[i].size;
      var c := Resized(b, i, size);
      && LinkedImage(c) && File(c.blocks, c.inodes[i]) == Splice(File(a.blocks, a.inodes[i]), off, src)
      && (forall j :: 0 <= j < |a.inodes| && j != i ==>
            c.inodes[j] == a.inodes[j] && File(c.blocks, c.inodes[j]) == File(a.blocks, a.inodes[j]))
      && RangeMapped(c.blocks, c.inodes[i], lo, hi) && l1 <= l0 + Touches(c.blocks, c.inodes[i], lo, hi)
      && b.inodes[i].size == a.inodes[i].size
  {
    hide LinkedImage, Wrote, RangeMapped, RangeAddrs, File, Need;
    var size := if off + |src| > a.inodes[i].size then off + |src| else a.inodes[i].size;
    ResizeLinked(b, i, size);
    WroteSplices(a, b, i, off, src, b.inodes[i].(size := size));
    ResizeRange(b.blocks, b.inodes[i], size, lo, hi);
    forall j | 0 <= j < |a.inodes| && j != i ensures File(b.blocks, b.inodes[j]) == File(a.blocks, a.inodes[j]) {
      WroteOthers(a, b, i, off, src, j);
    }
  }

  lemma {:induction false} ReadiDone(a: Image, b: Image, i: nat, lo: nat, hi: nat, off: nat, l0: set<nat>, l1: set<nat>)
    requires Progress(a, b, i, lo, hi, hi, off, [], l0, l1)
    requires forall j :: 0 <= j < |a.inodes| ==> a.inodes[j].size <= MAXFILE * BSIZE
    ensures |b.inodes| == |a.inodes| && forall j :: 0 <= j < |a.inodes| ==> File(b.blocks, b.inodes[j]) == File(a.blocks, a.inodes[j])
  {
    hide Data, Need, RangeMapped;
  }

  // ------------------------------------------------------ dense files

  /** Every block up to the size is mapped. */
  ghost predicate Dense(blocks: seq<Block>, ip: Inode) {
    RangeMapped(blocks, ip, 0, UpTo(0, ip.size))
  }

  lemma {:induction false} MappedNeeds(blocks: seq<Block>, ip: Inode, lo: nat, hi: nat)
    requires RangeMapped(blocks, ip, lo, hi) && hi <= MAXFILE
    ensures Need(blocks, ip, lo, hi) == 0
    decreases hi - lo
  {
    hide UintAt;
    if lo < hi {
      assert Addr(blocks, ip, SlotOf(lo)) != 0;
      assert Addr(blocks, ip, SlotOf(hi - 1)) != 0;
      MappedNeeds(blocks, ip, lo + 1, hi);
    }
  }

  lemma {:induction false} DenseNeeds(blocks: seq<Block>, ip: Inode, off: nat, n: nat)
    requires Dense(blocks, ip) && ip.size <= MAXFILE * BSIZE && off + n <= ip.size
    ensures Need(blocks, ip, off / BSIZE, UpTo(off, n)) == 0
  {
    hide Addr;
    assert UpTo(off, n) <= UpTo(0, ip.size) <= MAXFILE;
    MappedNeeds(blocks, ip, off / BSIZE, UpTo(off, n));
  }

  /** A dense file stays dense, and its inode changes only when the file grows. */
  lemma {:induction false} DenseAfter(a: Image, b: Image, i: nat, off: nat, src: seq<Byte>, l0: set<nat>, l1: set<nat>)
    requires var hi := UpTo(off, |src|); Progress(a, b, i, off / BSIZE, hi, hi, off, src, l0, l1)
    requires Dense(a.blocks, a.inodes[i]) && a.inodes[i].size <= MAXFILE * BSIZE
    requires off <= a.inodes[i].size && off + |src| <= MAXFILE * BSIZE
    ensures var size := if off + |src| > a.inodes[i].size then off + |src| else a.inodes[i].size;
      && Dense(b.blocks, b.inodes[i].(size := size))
      && (off + |src| <= a.inodes[i].size ==> b.inodes == a.inodes)
  {
    hide Addr, Wrote, Need, RangeMapped;
    var end, hi := UpTo(0, a.inodes[i].size), UpTo(off, |src|);
    RangeKept(a, b, i, 0, end);
    var size := if off + |src| > a.inodes[i].size then off + |src| else a.inodes[i].size;
    RangeJoin(b.blocks, b.inodes[i], end, off / BSIZE, hi, UpTo(0, size));
    ResizeRange(b.blocks, b.inodes[i], size, 0, UpTo(0, size));
    if off + |src| <= a.inodes[i].size {
      DenseNeeds(a.blocks, a.inodes[i], off, |src|);
      ProgressDone(a, b, i, off / BSIZE, hi, off, src, l0, l1);
    }
  }

  lemma {:induction false} RangeJoin(blocks: seq<Block>, ip: Inode, x: nat, lo: nat, hi: nat, y: nat)
    requires RangeMapped(blocks, ip, 0, x) && RangeMapped(blocks, ip, lo, hi)
    requires y <= x || (lo <= x && y <= hi)
    ensures RangeMapped(blocks, ip, 0, y)
  {
    hide Addr;
  }

  ghost predicate SizesOk(inodes: seq<Inode>) {
    forall j :: 0 <= j < |inodes| ==> inodes[j].size <= MAXFILE * BSIZE
  }

  /** A file whose inode does not change stays dense. */
  lemma {:induction false} DenseKept(a: Image, b: Image, j: nat)
    requires KeepsMap(a, b) && j < |a.inodes| && b.inodes[j] == a.inodes[j] && Dense(a.blocks, a.inodes[j])
    requires a.inodes[j].size <= MAXFILE * BSIZE
    ensures Dense(b.blocks, b.inodes[j])
  {
    hide Addr, RangeMapped;
    RangeKept(a, b, j, 0, UpTo(0, a.inodes[j].size));
  }

  lemma {:induction false} DenseOthers(a: Image, b: Image, i: nat, lo: nat, hi: nat, off: nat, x: seq<Byte>, l0: set<nat>, l1: set<nat>)
    requires Progress(a, b, i, lo, hi, hi, off, x, l0, l1) && SizesOk(a.inodes)
    ensures forall j :: 0 <= j < |a.inodes| && j != i && Dense(a.blocks, a.inodes[j]) ==> Dense(b.blocks, b.inodes[j])
  {
    hide Addr, Dense, RangeMapped, KeepsMap, Wrote, Need, Touches;
    forall j | 0 <= j < |a.inodes| && j != i && Dense(a.blocks, a.inodes[j]) ensures Dense(b.blocks, b.inodes[j]) {
      DenseKept(a, b, j);
    }
  }

  lemma {:induction false} DenseAll(a: Image, b: Image)
    requires SameMap(a, b) && SizesOk(a.inodes)
    ensures forall j :: 0 <= j < |a.inodes| && Dense(a.blocks, a.inodes[j]) ==> Dense(b.blocks, a.inodes[j])
  {
    hide Addr, Dense, RangeMapped;
    assert KeepsMap(a, b);
    forall j | 0 <= j < |a.inodes| && Dense(a.blocks, a.inodes[j]) ensures Dense(b.blocks, a.inodes[j]) {
      DenseKept(a, b, j);
    }
  }

  lemma {:induction false} DenseEmpty(blocks: seq<Block>, ip: Inode)
    requires ip.size == 0
    ensures Dense(blocks, ip)
  {
  }
}
