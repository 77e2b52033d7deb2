/** Giving the blocks of a file back. */
module FsTrunc {
  import opened Params
  import opened Bytes
  import opened FsLayout
  import opened FsOwners

  /** The blocks in slots lo to hi of inode i. */
  function Held(owner: Owner, i: nat, lo: nat, hi: nat): set<nat> {
    set x | x in owner && owner[x].inum == i && lo <= owner[x].k < hi
  }

  /** bfree of a marked block. */
  lemma {:induction false} Release(blocks: seq<Block>, inodes: seq<Inode>, owner: Owner, marked: set<nat>, x: nat)
    requires Linked(blocks, inodes, owner) && Marked(blocks[BMAPSTART], marked) && DATASTART <= x < FSSIZE
    ensures var blocks' := blocks[BMAPSTART := Mark(blocks[BMAPSTART], x, false)];
      && Linked(blocks', inodes, owner) && Marked(blocks'[BMAPSTART], marked - {x})
      && (forall i: nat, k: nat {:trigger Addr(blocks', inodes[i], k)} :: i < |inodes| && k < NSLOT ==>
            Addr(blocks', inodes[i], k) == Addr(blocks, inodes[i], k))
  {
    hide Used, Mark, Addr;
    var blocks' := blocks[BMAPSTART := Mark(blocks[BMAPSTART], x, false)];
    KeepAddrs(blocks, blocks', inodes, owner);
    forall b: nat | b < FSSIZE ensures Used(blocks'[BMAPSTART], b) <==> b < DATASTART || b in marked - {x} {
      MarkUsed(blocks[BMAPSTART], x, false, b);
    }
  }

  /** A direct slot is cleared. */
  lemma {:induction false} DetachDirect(blocks: seq<Block>, inodes: seq<Inode>, owner: Owner, i: nat, k: nat)
    requires Linked(blocks, inodes, owner) && i < |inodes| && k < NDIRECT
    ensures var inodes' := inodes[i := inodes[i].(addrs := inodes[i].addrs[k := 0])];
      && Linked(blocks, inodes', owner - Held(owner, i, k, k + 1))
      && (inodes[i].addrs[k] != 0 ==> Held(owner, i, k, k + 1) == {inodes[i].addrs[k]})
      && (inodes[i].addrs[k] == 0 ==> Held(owner, i, k, k + 1) == {})
  {
    hide UintAt;
    var inodes' := inodes[i := inodes[i].(addrs := inodes[i].addrs[k := 0])];
    assert Addr(blocks, inodes[i], k) == inodes[i].addrs[k];
    forall j: nat, l: nat | j < |inodes| && l < NSLOT
      ensures Addr(blocks, inodes'[j], l) == if j == i && l == k then 0 else Addr(blocks, inodes[j], l)
    {
    }
    var owner' := owner - Held(owner, i, k, k + 1);
    forall b | b in owner' ensures Addr(blocks, inodes'[owner'[b].inum], owner'[b].k) == b {
      assert Addr(blocks, inodes[owner[b].inum], owner[b].k) == b;
    }
  }

  /** The indirect slot is cleared; with it go all entries of the block. */
  lemma {:induction false} DetachIndirect(blocks: seq<Block>, inodes: seq<Inode>, owner: Owner, i: nat)
    requires Linked(blocks, inodes, owner) && i < |inodes|
    ensures var inodes' := inodes[i := inodes[i].(addrs := inodes[i].addrs[NDIRECT := 0])];
      Linked(blocks, inodes', owner - Held(owner, i, NDIRECT, NSLOT))
  {
    hide UintAt;
    var inodes' := inodes[i := inodes[i].(addrs := inodes[i].addrs[NDIRECT := 0])];
    forall j: nat, l: nat | j < |inodes| && l < NSLOT
      ensures Addr(blocks, inodes'[j], l) == if j == i && l >= NDIRECT then 0 else Addr(blocks, inodes[j], l)
    {
    }
    var owner' := owner - Held(owner, i, NDIRECT, NSLOT);
    forall b | b in owner' ensures Addr(blocks, inodes'[owner'[b].inum], owner'[b].k) == b {
      assert Addr(blocks, inodes[owner[b].inum], owner[b].k) == b;
    }
  }

  /** An entry of the indirect block: what it holds, and that nothing below it holds the same. */
  lemma {:induction false} EntryHeld(blocks: seq<Block>, inodes: seq<Inode>, owner: Owner, i: nat, j: nat)
    requires Linked(blocks, inodes, owner) && i < |inodes| && j < NINDIRECT && inodes[i].addrs[NDIRECT] != 0
    ensures var x := inodes[i].addrs[NDIRECT]; var lo, k := NDIRECT + 1, NDIRECT + 1 + j;
      && DATASTART <= x < FSSIZE && x in owner && x !in Held(owner, i, lo, NSLOT)
      && var a := UintAt(blocks[x], j);
        if a == 0 then Held(owner, i, lo, k + 1) == Held(owner, i, lo, k)
        else DATASTART <= a < FSSIZE && a in owner && a !in Held(owner, i, lo, k) && Held(owner, i, lo, k + 1) == Held(owner, i, lo, k) + {a}
  {
    hide UintAt;
    IndirectOwned(blocks, inodes, owner, i);
    var k := NDIRECT + 1 + j;
    var a := Addr(blocks, inodes[i], k);
    if a != 0 {
      SlotOwned(blocks, inodes, owner, i, k);
    }
    forall b | b in owner && owner[b] == Slot(i, k) ensures b == a {
      assert Addr(blocks, inodes[owner[b].inum], owner[b].k) == b;
    }
  }

  lemma {:induction false} HeldSplit(owner: Owner, i: nat, lo: nat, mid: nat, hi: nat)
    requires lo <= mid <= hi
    ensures var rest := owner - Held(owner, i, lo, mid);
      && rest - Held(rest, i, mid, hi) == owner - Held(owner, i, lo, hi)
      && Held(rest, i, mid, hi) == Held(owner, i, mid, hi)
  {
  }

  lemma {:induction false} HeldNone(owner: Owner, i: nat, lo: nat)
    ensures Held(owner, i, lo, lo) == {} && owner - Held(owner, i, lo, lo) == owner
  {
  }

  /** Files keep their bytes and addresses when a block of metadata changes. */
  lemma {:induction false} MetadataKeepsFiles(blocks: seq<Block>, inodes: seq<Inode>, owner: Owner, x: nat, block: Block)
    requires Linked(blocks, inodes, owner) && x < DATASTART
    requires forall j :: 0 <= j < |inodes| ==> inodes[j].size <= MAXFILE * BSIZE
    ensures var blocks' := blocks[x := block];
      && Linked(blocks', inodes, owner)
      && (forall j :: 0 <= j < |inodes| ==> File(blocks', inodes[j]) == File(blocks, inodes[j]))
      && (forall j: nat, k: nat :: j < |inodes| && k < NSLOT ==> Addr(blocks', inodes[j], k) == Addr(blocks, inodes[j], k))
  {
    hide Addr;
    var blocks' := blocks[x := block];
    KeepAddrs(blocks, blocks', inodes, owner);
    KeepFiles(blocks, inodes, owner, blocks', inodes);
    forall j | 0 <= j < |inodes| ensures File(blocks', inodes[j]) == File(blocks, inodes[j]) {
      assert forall p: nat :: p < inodes[j].size ==> Data(blocks', inodes[j], p) == Data(blocks, inodes[j], p);
    }
  }

  lemma {:induction false} HeldIndirect(blocks: seq<Block>, inodes: seq<Inode>, owner: Owner, i: nat)
    requires Linked(blocks, inodes, owner) && i < |inodes| && inodes[i].addrs[NDIRECT] != 0
    ensures Held(owner, i, NDIRECT, NSLOT) == Held(owner, i, NDIRECT + 1, NSLOT) + {inodes[i].addrs[NDIRECT]}
  {
    hide UintAt;
    IndirectOwned(blocks, inodes, owner, i);
    forall b | b in owner && owner[b] == Slot(i, NDIRECT) ensures b == inodes[i].addrs[NDIRECT] {
      assert Addr(blocks, inodes[owner[b].inum], owner[b].k) == b;
    }
  }

  /** Without an indirect block there is nothing beyond the direct blocks. */
  lemma {:induction false} NoEntries(blocks: seq<Block>, inodes: seq<Inode>, owner: Owner, i: nat)
    requires Linked(blocks, inodes, owner) && i < |inodes| && inodes[i].addrs[NDIRECT] == 0
    ensures Held(owner, i, NDIRECT, NSLOT) == {} && owner - Held(owner, i, NDIRECT, NSLOT) == owner
  {
    forall b | b in owner && owner[b].inum == i ensures owner[b].k < NDIRECT {
      assert Addr(blocks, inodes[owner[b].inum], owner[b].k) == b;
    }
  }
}
