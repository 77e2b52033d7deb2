/**
 Who owns each block: every address slot of every inode (12 direct, one
 indirect, 128 in the indirect block) holds zero or a data block that no other
 slot holds, and the bitmap marks exactly the blocks that are held.
 */
module FsOwners {
  import opened Params
  import opened Sets
  import opened Bytes
  import opened FsLayout

  const NSLOT: nat := NDIRECT + 1 + NINDIRECT

  datatype Raw = Inode(size: nat, addrs: seq<nat>)
  type Inode = ip: Raw | |ip.addrs| == NDIRECT + 1 witness Raw.Inode(0, seq(NDIRECT + 1, _ => 0))

  datatype Slot = Slot(inum: nat, k: nat)

  const ZERO: Block := seq(BSIZE, _ => 0)

  /** The address in slot k: direct, the indirect block, then its entries. */
  function Addr(blocks: seq<Block>, ip: Inode, k: nat): nat {
    if k <= NDIRECT then ip.addrs[k]
    else if 0 < ip.addrs[NDIRECT] < |blocks| && k < NSLOT then UintAt(blocks[ip.addrs[NDIRECT]], k - NDIRECT - 1)
    else 0
  }

  /** The slot of the bn-th block of a file. */
  function SlotOf(bn: nat): nat {
    if bn < NDIRECT then bn else bn + 1
  }

  /** The p-th byte of a file; a block that is not mapped reads as zeros. */
  function Data(blocks: seq<Block>, ip: Inode, p: nat): Byte {
    var a := Addr(blocks, ip, SlotOf(p / BSIZE));
    if 0 < a < |blocks| then blocks[a][p % BSIZE] else 0
  }

  function File(blocks: seq<Block>, ip: Inode): seq<Byte> {
    seq(ip.size, p requires 0 <= p < ip.size => Data(blocks, ip, p))
  }

  // ------------------------------------------------------ ownership

  type Owner = map<nat, Slot>

  ghost predicate SlotsOk(blocks: seq<Block>, inodes: seq<Inode>, owner: Owner) {
    forall i: nat, k: nat {:trigger Addr(blocks, inodes[i], k)} ::
      i < |inodes| && k < NSLOT && Addr(blocks, inodes[i], k) != 0 ==>
        Addr(blocks, inodes[i], k) in owner && owner[Addr(blocks, inodes[i], k)] == Slot(i, k)
  }

  ghost predicate OwnersOk(blocks: seq<Block>, inodes: seq<Inode>, owner: Owner) {
    forall b {:trigger owner[b]} {:trigger b in owner} :: b in owner ==>
      && DATASTART <= b < FSSIZE && owner[b].inum < |inodes| && owner[b].k < NSLOT
      && Addr(blocks, inodes[owner[b].inum], owner[b].k) == b
  }

  /** The bitmap marks the metadata and what is owned, and nothing else. */
  ghost predicate Marked(bitmap: Block, owner: set<nat>) {
    forall b: nat :: b < FSSIZE ==> (Used(bitmap, b) <==> b < DATASTART || b in owner)
  }

  ghost predicate Linked(blocks: seq<Block>, inodes: seq<Inode>, owner: Owner) {
    |blocks| == FSSIZE && SlotsOk(blocks, inodes, owner) && OwnersOk(blocks, inodes, owner)
  }

  /** No address changes when the indirect blocks stay as they are. */
  lemma {:induction false} KeepAddrs(blocks: seq<Block>, blocks': seq<Block>, inodes: seq<Inode>, owner: Owner)
    requires Linked(blocks, inodes, owner) && |blocks'| == FSSIZE
    requires forall b :: b in owner && owner[b].k == NDIRECT ==> blocks'[b] == blocks[b]
    ensures Linked(blocks', inodes, owner)
    ensures forall i: nat, k: nat :: i < |inodes| && k < NSLOT ==> Addr(blocks', inodes[i], k) == Addr(blocks, inodes[i], k)
  {
    hide UintAt;
    forall i: nat, k: nat | i < |inodes| && k < NSLOT ensures Addr(blocks', inodes[i], k) == Addr(blocks, inodes[i], k) {
      assert Addr(blocks, inodes[i], NDIRECT) == inodes[i].addrs[NDIRECT];
    }
  }

  /** A fresh block enters a direct or the indirect slot. */
  lemma {:induction false} AttachAddrs(blocks: seq<Block>, inodes: seq<Inode>, i: nat, k: nat, r: nat)
    requires |blocks| == FSSIZE && i < |inodes| && k <= NDIRECT && inodes[i].addrs[k] == 0 && 0 < r < FSSIZE
    requires k == NDIRECT ==> blocks[r] == ZERO
    ensures Addr(blocks, inodes[i], k) == 0
    ensures var inodes' := inodes[i := inodes[i].(addrs := inodes[i].addrs[k := r])];
      forall j: nat, l: nat {:trigger Addr(blocks, inodes'[j], l)} :: j < |inodes| && l < NSLOT ==>
        Addr(blocks, inodes'[j], l) == if j == i && l == k then r else Addr(blocks, inodes[j], l)
  {
  }

  lemma {:induction false} Attach(blocks: seq<Block>, inodes: seq<Inode>, owner: Owner, i: nat, k: nat, r: nat)
    requires Linked(blocks, inodes, owner) && i < |inodes| && k <= NDIRECT && inodes[i].addrs[k] == 0
    requires r !in owner && DATASTART <= r < FSSIZE && (k == NDIRECT ==> blocks[r] == ZERO)
    ensures Linked(blocks, inodes[i := inodes[i].(addrs := inodes[i].addrs[k := r])], owner[r := Slot(i, k)])
  {
    hide UintAt, Addr;
    AttachAddrs(blocks, inodes, i, k, r);
    var inodes' := inodes[i := inodes[i].(addrs := inodes[i].addrs[k := r])];
    assert Addr(blocks, inodes'[i], k) == r;
  }

  /** A fresh block enters an entry of an indirect block. */
  lemma {:induction false} AttachEntryAddrs(blocks: seq<Block>, inodes: seq<Inode>, owner: Owner, i: nat, j: nat, r: nat)
    requires Linked(blocks, inodes, owner) && i < |inodes| && j < NINDIRECT && r < FSSIZE
    requires 0 < inodes[i].addrs[NDIRECT] < FSSIZE
    ensures var x := inodes[i].addrs[NDIRECT]; var blocks' := blocks[x := PutUint(blocks[x], j, r)];
      forall h: nat, l: nat {:trigger Addr(blocks', inodes[h], l)} :: h < |inodes| && l < NSLOT ==>
        Addr(blocks', inodes[h], l) == if h == i && l == NDIRECT + 1 + j then r else Addr(blocks, inodes[h], l)
  {
    hide UintAt, PutUint;
    var x := inodes[i].addrs[NDIRECT];
    var blocks' := blocks[x := PutUint(blocks[x], j, r)];
    forall h: nat, l: nat | h < |inodes| && l < NSLOT
      ensures Addr(blocks', inodes[h], l) == if h == i && l == NDIRECT + 1 + j then r else Addr(blocks, inodes[h], l)
    {
      assert Addr(blocks, inodes[h], NDIRECT) == inodes[h].addrs[NDIRECT];
      assert Addr(blocks, inodes[i], NDIRECT) == x;
      if l > NDIRECT {
        PutUintAt(blocks[x], j, r, l - NDIRECT - 1);
      }
    }
  }

  lemma {:induction false} AttachEntry(blocks: seq<Block>, inodes: seq<Inode>, owner: Owner, i: nat, j: nat, r: nat)
    requires Linked(blocks, inodes, owner) && i < |inodes| && j < NINDIRECT
    requires 0 < inodes[i].addrs[NDIRECT] < FSSIZE && Addr(blocks, inodes[i], NDIRECT + 1 + j) == 0
    requires r !in owner && DATASTART <= r < FSSIZE
    ensures var x := inodes[i].addrs[NDIRECT];
      Linked(blocks[x := PutUint(blocks[x], j, r)], inodes, owner[r := Slot(i, NDIRECT + 1 + j)])
  {
    hide UintAt, Addr;
    AttachEntryAddrs(blocks, inodes, owner, i, j, r);
    var x := inodes[i].addrs[NDIRECT];
    var blocks' := blocks[x := PutUint(blocks[x], j, r)];
    assert Addr(blocks', inodes[i], NDIRECT + 1 + j) == r;
  }

  // ------------------------------------------------------ free blocks

  const NDATA: nat := FSSIZE - DATASTART

  lemma {:induction false} OwnedRange(blocks: seq<Block>, inodes: seq<Inode>, owner: Owner)
    requires Linked(blocks, inodes, owner)
    ensures forall b :: b in owner.Keys ==> DATASTART <= b < FSSIZE
  {
  }

  lemma {:induction false} CountFree(owned: set<nat>)
    requires forall b :: b in owned ==> DATASTART <= b < FSSIZE
    ensures |owned| <= NDATA
    ensures |owned| == NDATA <==> forall b :: DATASTART <= b < FSSIZE ==> b in owned
  {
    hide Interval;
    var all := Interval(DATASTART, FSSIZE);
    assert owned <= all;
    Subset(owned, all);
    if forall b :: DATASTART <= b < FSSIZE ==> b in owned {
      assert owned == all;
    }
  }

  lemma {:induction false} OwnedBound(blocks: seq<Block>, inodes: seq<Inode>, owner: Owner)
    requires Linked(blocks, inodes, owner)
    ensures |owner| <= NDATA
  {
    OwnedRange(blocks, inodes, owner);
    CountFree(owner.Keys);
  }

  /** balloc's effect: a block nobody owns is marked and zeroed. */
  lemma {:induction false} Claim(blocks: seq<Block>, inodes: seq<Inode>, owner: Owner, r: nat)
    requires Linked(blocks, inodes, owner) && Marked(blocks[BMAPSTART], owner.Keys)
    requires r < FSSIZE && !Used(blocks[BMAPSTART], r)
    ensures DATASTART <= r && r !in owner && |owner| < NDATA
    ensures var blocks' := blocks[BMAPSTART := Mark(blocks[BMAPSTART], r, true)][r := ZERO];
      && Linked(blocks', inodes, owner) && Marked(blocks'[BMAPSTART], owner.Keys + {r})
      && (forall i: nat, k: nat {:trigger Addr(blocks', inodes[i], k)} :: i < |inodes| && k < NSLOT ==>
            Addr(blocks', inodes[i], k) == Addr(blocks, inodes[i], k))
  {
    hide Used, Mark, Addr;
    var blocks' := blocks[BMAPSTART := Mark(blocks[BMAPSTART], r, true)][r := ZERO];
    CountFree(owner.Keys);
    KeepAddrs(blocks, blocks', inodes, owner);
    forall b: nat | b < FSSIZE ensures Used(blocks'[BMAPSTART], b) <==> b < DATASTART || b in owner.Keys + {r} {
      MarkUsed(blocks[BMAPSTART], r, true, b);
    }
  }

  // ------------------------------------------------------ contents

  /** Every file reads the same. */
  ghost predicate SameFiles(blocks: seq<Block>, inodes: seq<Inode>, blocks': seq<Block>, inodes': seq<Inode>) {
    && |inodes'| == |inodes|
    && (forall i :: 0 <= i < |inodes| ==> inodes'[i].size == inodes[i].size)
    && (forall i: nat, p: nat {:trigger Data(blocks', inodes'[i], p)} ::
          i < |inodes| && p < MAXFILE * BSIZE ==> Data(blocks', inodes'[i], p) == Data(blocks, inodes[i], p))
  }

  /** Addresses stay, or go from none to a block of zeros; owned data blocks keep their bytes. */
  lemma {:induction false} KeepFiles(blocks: seq<Block>, inodes: seq<Inode>, owner: Owner, blocks': seq<Block>, inodes': seq<Inode>)
    requires Linked(blocks, inodes, owner) && |blocks'| == FSSIZE && |inodes'| == |inodes|
    requires forall i :: 0 <= i < |inodes| ==> inodes'[i].size == inodes[i].size
    requires forall b :: b in owner && owner[b].k != NDIRECT ==> blocks'[b] == blocks[b]
    requires forall i: nat, k: nat {:trigger Addr(blocks', inodes'[i], k)} :: i < |inodes| && k < NSLOT && k != NDIRECT ==>
      || Addr(blocks', inodes'[i], k) == Addr(blocks, inodes[i], k)
      || (Addr(blocks, inodes[i], k) == 0 && Addr(blocks', inodes'[i], k) < FSSIZE && blocks'[Addr(blocks', inodes'[i], k)] == ZERO)
    ensures SameFiles(blocks, inodes, blocks', inodes')
  {
    hide Addr;
    forall i: nat, p: nat | i < |inodes| && p < MAXFILE * BSIZE
      ensures Data(blocks', inodes'[i], p) == Data(blocks, inodes[i], p)
    {
      var k := SlotOf(p / BSIZE);
      assert k < NSLOT && k != NDIRECT;
      var a := Addr(blocks, inodes[i], k);
      assert a != 0 ==> a in owner && owner[a].k == k;
    }
  }

  lemma {:induction false} SameFilesTrans(b0: seq<Block>, i0: seq<Inode>, b1: seq<Block>, i1: seq<Inode>, b2: seq<Block>, i2: seq<Inode>)
    requires SameFiles(b0, i0, b1, i1) && SameFiles(b1, i1, b2, i2)
    ensures SameFiles(b0, i0, b2, i2)
  {
    forall i: nat, p: nat | i < |i0| && p < MAXFILE * BSIZE ensures Data(b2, i2[i], p) == Data(b0, i0[i], p) {
      assert Data(b1, i1[i], p) == Data(b0, i0[i], p);
    }
  }

  // ------------------------------------------------------ growing a file's map

  datatype Image = Image(blocks: seq<Block>, inodes: seq<Inode>, owner: Owner)

  /** Empty slots `ks` of inode i may have been filled; every file still reads the same. */
  ghost predicate Grows(a: Image, b: Image, i: nat, ks: set<nat>) {
    && |a.blocks| == |b.blocks| == FSSIZE && |b.inodes| == |a.inodes|
    && (forall j :: 0 <= j < |a.inodes| && j != i ==> b.inodes[j] == a.inodes[j])
    && (forall j: nat, l: nat {:trigger Addr(b.blocks, b.inodes[j], l)} :: j < |a.inodes| && l < NSLOT ==>
          || Addr(b.blocks, b.inodes[j], l) == Addr(a.blocks, a.inodes[j], l)
          || (j == i && l in ks && Addr(a.blocks, a.inodes[j], l) == 0))
    && (forall x :: x in a.owner ==> x in b.owner && b.owner[x] == a.owner[x])
    && SameFiles(a.blocks, a.inodes, b.blocks, b.inodes)
  }

  ghost predicate LinkedImage(a: Image) {
    Linked(a.blocks, a.inodes, a.owner) && Marked(a.blocks[BMAPSTART], a.owner.Keys)
  }

  lemma {:induction false} GrowsTrans(a: Image, b: Image, c: Image, i: nat, ks: set<nat>, ls: set<nat>)
    requires Grows(a, b, i, ks) && Grows(b, c, i, ls)
    ensures Grows(a, c, i, ks + ls)
  {
    hide Addr, SameFiles;
    assert SameFiles(a.blocks, a.inodes, c.blocks, c.inodes) by {
      SameFilesTrans(a.blocks, a.inodes, b.blocks, b.inodes, c.blocks, c.inodes);
    }
    forall j: nat, l: nat | j < |a.inodes| && l < NSLOT
      ensures || Addr(c.blocks, c.inodes[j], l) == Addr(a.blocks, a.inodes[j], l)
              || (j == i && l in ks + ls && Addr(a.blocks, a.inodes[j], l) == 0)
    {
      assert Addr(b.blocks, b.inodes[j], l) == Addr(b.blocks, b.inodes[j], l);
    }
  }

  /** balloc, then the new block into a slot of the inode. */
  lemma {:induction false} FillSlot(a: Image, blocks: seq<Block>, i: nat, k: nat, r: nat)
    requires LinkedImage(a) && i < |a.inodes| && k <= NDIRECT && a.inodes[i].addrs[k] == 0
    requires Linked(blocks, a.inodes, a.owner) && Marked(blocks[BMAPSTART], a.owner.Keys + {r})
    requires DATASTART <= r < FSSIZE && r !in a.owner
    requires blocks == a.blocks[BMAPSTART := blocks[BMAPSTART]][r := ZERO]
    ensures var b := Image(blocks, a.inodes[i := a.inodes[i].(addrs := a.inodes[i].addrs[k := r])], a.owner[r := Slot(i, k)]);
      LinkedImage(b) && Grows(a, b, i, {k})
  {
    hide Addr, Used, SameFiles;
    var b := Image(blocks, a.inodes[i := a.inodes[i].(addrs := a.inodes[i].addrs[k := r])], a.owner[r := Slot(i, k)]);
    assert b.owner.Keys == a.owner.Keys + {r};
    KeepAddrs(a.blocks, blocks, a.inodes, a.owner);
    Attach(blocks, a.inodes, a.owner, i, k, r);
    AttachAddrs(blocks, a.inodes, i, k, r);
    KeepFiles(a.blocks, a.inodes, a.owner, b.blocks, b.inodes);
  }

  /** balloc, then the new block into an entry of the indirect block. */
  lemma {:induction false} FillEntry(a: Image, blocks: seq<Block>, i: nat, j: nat, r: nat)
    requires LinkedImage(a) && i < |a.inodes| && j < NINDIRECT && a.inodes[i].addrs[NDIRECT] != 0
    requires Addr(a.blocks, a.inodes[i], NDIRECT + 1 + j) == 0
    requires Linked(blocks, a.inodes, a.owner) && Marked(blocks[BMAPSTART], a.owner.Keys + {r})
    requires DATASTART <= r < FSSIZE && r !in a.owner
    requires blocks == a.blocks[BMAPSTART := blocks[BMAPSTART]][r := ZERO]
    ensures var x := a.inodes[i].addrs[NDIRECT];
      && DATASTART <= x < FSSIZE && x in a.owner && blocks[x] == a.blocks[x]
      && var b := Image(blocks[x := PutUint(blocks[x], j, r)], a.inodes, a.owner[r := Slot(i, NDIRECT + 1 + j)]);
        LinkedImage(b) && Grows(a, b, i, {NDIRECT + 1 + j}) && Addr(b.blocks, a.inodes[i], NDIRECT + 1 + j) == r
  {
    hide Addr, Used, SameFiles, PutUint;
    var x := a.inodes[i].addrs[NDIRECT];
    IndirectOwned(a.blocks, a.inodes, a.owner, i);
    var b := Image(blocks[x := PutUint(blocks[x], j, r)], a.inodes, a.owner[r := Slot(i, NDIRECT + 1 + j)]);
    assert b.owner.Keys == a.owner.Keys + {r};
    KeepAddrs(a.blocks, blocks, a.inodes, a.owner);
    AttachEntry(blocks, a.inodes, a.owner, i, j, r);
    AttachEntryAddrs(blocks, a.inodes, a.owner, i, j, r);
    KeepFiles(a.blocks, a.inodes, a.owner, b.blocks, b.inodes);
  }

  lemma {:induction false} GrowsNone(a: Image, i: nat, ks: set<nat>)
    requires |a.blocks| == FSSIZE
    ensures Grows(a, a, i, ks)
  {
  }

  lemma {:induction false} GrowsAddr(a: Image, b: Image, i: nat, ks: set<nat>, j: nat, l: nat)
    requires Grows(a, b, i, ks) && j < |a.inodes| && l < NSLOT
    ensures j < |b.inodes|
    ensures l !in ks || Addr(a.blocks, a.inodes[j], l) != 0 ==>
      Addr(b.blocks, b.inodes[j], l) == Addr(a.blocks, a.inodes[j], l)
  {
    hide Addr, SameFiles;
  }

  lemma {:induction false} SlotOwned(blocks: seq<Block>, inodes: seq<Inode>, owner: Owner, i: nat, k: nat)
    requires Linked(blocks, inodes, owner) && i < |inodes| && k < NSLOT && Addr(blocks, inodes[i], k) != 0
    ensures var x := Addr(blocks, inodes[i], k); x in owner && owner[x] == Slot(i, k) && DATASTART <= x < FSSIZE
  {
    hide Addr;
  }

  lemma {:induction false} IndirectOwned(blocks: seq<Block>, inodes: seq<Inode>, owner: Owner, i: nat)
    requires Linked(blocks, inodes, owner) && i < |inodes| && inodes[i].addrs[NDIRECT] != 0
    ensures var x := inodes[i].addrs[NDIRECT];
      x in owner && owner[x] == Slot(i, NDIRECT) && DATASTART <= x < FSSIZE
  {
    assert Addr(blocks, inodes[i], NDIRECT) == inodes[i].addrs[NDIRECT];
  }

  // ------------------------------------------------------ blocks a write will need

  /** Unmapped blocks among those from lo to hi. */
  function Holes(blocks: seq<Block>, ip: Inode, lo: nat, hi: nat): nat
    decreases hi - lo
  {
    if lo >= hi then 0
    else (if Addr(blocks, ip, SlotOf(lo)) == 0 then 1 else 0) + Holes(blocks, ip, lo + 1, hi)
  }

  /** Blocks that mapping lo to hi will allocate, the indirect block included. */
  function Need(blocks: seq<Block>, ip: Inode, lo: nat, hi: nat): nat {
    Holes(blocks, ip, lo, hi) + if lo < hi && NDIRECT < hi && ip.addrs[NDIRECT] == 0 then 1 else 0
  }

  lemma {:induction false} NeedOne(blocks: seq<Block>, ip: Inode, bn: nat)
    ensures Need(blocks, ip, bn, bn + 1) ==
      (if Addr(blocks, ip, SlotOf(bn)) == 0 then 1 else 0) + (if NDIRECT <= bn && ip.addrs[NDIRECT] == 0 then 1 else 0)
  {
    hide Addr;
    assert Holes(blocks, ip, bn + 1, bn + 1) == 0;
  }

  lemma {:induction false} HolesSame(blocks: seq<Block>, ip: Inode, blocks': seq<Block>, ip': Inode, lo: nat, hi: nat)
    requires forall bn: nat :: lo <= bn < hi ==> Addr(blocks', ip', SlotOf(bn)) == Addr(blocks, ip, SlotOf(bn))
    ensures Holes(blocks', ip', lo, hi) == Holes(blocks, ip, lo, hi)
    decreases hi - lo
  {
    hide Addr;
    if lo < hi {
      HolesSame(blocks, ip, blocks', ip', lo + 1, hi);
    }
  }

  /** The slots that mapping the bn-th block may fill. */
  function Touched(bn: nat): set<nat> {
    if bn < NDIRECT then {bn} else {NDIRECT, bn + 1}
  }

  lemma {:induction false} NeedStep(a: Image, b: Image, i: nat, bn: nat, hi: nat)
    requires Grows(a, b, i, Touched(bn)) && i < |a.inodes| && bn < hi <= MAXFILE
    requires Addr(b.blocks, b.inodes[i], SlotOf(bn)) != 0 && (bn >= NDIRECT ==> b.inodes[i].addrs[NDIRECT] != 0)
    ensures Need(a.blocks, a.inodes[i], bn, hi)
      == Need(b.blocks, b.inodes[i], bn + 1, hi) + Need(a.blocks, a.inodes[i], bn, bn + 1)
  {
    hide UintAt, SameFiles;
    forall c: nat | bn < c < hi
      ensures Addr(b.blocks, b.inodes[i], SlotOf(c)) == Addr(a.blocks, a.inodes[i], SlotOf(c))
    {
      assert SlotOf(c) < NSLOT && SlotOf(c) !in Touched(bn);
    }
    HolesSame(a.blocks, a.inodes[i], b.blocks, b.inodes[i], bn + 1, hi);
    assert Addr(b.blocks, b.inodes[i], NDIRECT) == b.inodes[i].addrs[NDIRECT];
    assert Addr(a.blocks, a.inodes[i], NDIRECT) == a.inodes[i].addrs[NDIRECT];
    assert bn < NDIRECT ==> b.inodes[i].addrs[NDIRECT] == a.inodes[i].addrs[NDIRECT];
    assert Holes(a.blocks, a.inodes[i], bn + 1, bn + 1) == 0;
  }
}
