/**
 Inodes on the disk: eight to a block, sixteen words each, the size in the third
 word and the addresses in the last thirteen.
 */
module FsInodes {
  import opened Params
  import opened Bytes
  import opened FsLayout
  import opened FsOwners

  const NINODES: nat := 200

  /** The block that holds inode i. */
  function IBlock(i: nat): nat {
    i / IPB + INODESTART
  }

  function WordsAt(b: Block, base: nat, n: nat): (ws: seq<nat>)
    requires base + n <= NINDIRECT
    ensures |ws| == n && forall k :: 0 <= k < n ==> ws[k] == UintAt(b, base + k)
  {
    if n == 0 then [] else WordsAt(b, base, n - 1) + [UintAt(b, base + n - 1)]
  }

  function InodeAt(b: Block, s: nat): Inode
    requires s < IPB
  {
    Raw.Inode(UintAt(b, 16 * s + 2), WordsAt(b, 16 * s + 3, NDIRECT + 1))
  }

  /** The inode as the disk has it. */
  function OnDisk(blocks: seq<Block>, i: nat): Inode
    requires |blocks| == FSSIZE && i < NINODES
  {
    InodeAt(blocks[IBlock(i)], i % IPB)
  }

  predicate Fits(ip: Inode) {
    ip.size < U32 && forall k :: 0 <= k <= NDIRECT ==> ip.addrs[k] < U32
  }

  predicate Words(ws: seq<nat>) {
    forall k :: 0 <= k < |ws| ==> ws[k] < U32
  }

  /** The block with the words ws from word `base` on. */
  function PutWords(b: Block, base: nat, ws: seq<nat>): Block
    requires base + |ws| <= NINDIRECT && Words(ws)
    decreases |ws|
  {
    if ws == [] then b else PutUint(PutWords(b, base, ws[..|ws| - 1]), base + |ws| - 1, ws[|ws| - 1])
  }

  lemma {:induction false} PutWordsAt(b: Block, base: nat, ws: seq<nat>, l: nat)
    requires base + |ws| <= NINDIRECT && Words(ws) && l < NINDIRECT
    ensures UintAt(PutWords(b, base, ws), l) == if base <= l < base + |ws| then ws[l - base] else UintAt(b, l)
    decreases |ws|
  {
    hide UintAt, PutUint;
    if ws != [] {
      var n := |ws| - 1;
      PutWordsAt(b, base, ws[..n], l);
      PutUintAt(PutWords(b, base, ws[..n]), base + n, ws[n], l);
    }
  }

  function PutInode(b: Block, s: nat, ip: Inode): Block
    requires s < IPB && Fits(ip)
  {
    PutWords(b, 16 * s + 2, [ip.size] + ip.addrs)
  }

  /** An inode that is written reads back, and its neighbours stay as they were. */
  lemma {:induction false} PutInodeAt(b: Block, s: nat, ip: Inode, t: nat)
    requires s < IPB && Fits(ip) && t < IPB
    ensures InodeAt(PutInode(b, s, ip), t) == if t == s then ip else InodeAt(b, t)
  {
    hide UintAt, PutWords;
    var b' := PutInode(b, s, ip);
    PutWordsAt(b, 16 * s + 2, [ip.size] + ip.addrs, 16 * t + 2);
    var was, now := WordsAt(b, 16 * t + 3, NDIRECT + 1), WordsAt(b', 16 * t + 3, NDIRECT + 1);
    forall k | 0 <= k <= NDIRECT ensures now[k] == if t == s then ip.addrs[k] else was[k] {
      PutWordsAt(b, 16 * s + 2, [ip.size] + ip.addrs, 16 * t + 3 + k);
    }
    assert now == if t == s then ip.addrs else was;
  }

  lemma {:induction false} UpdatedInodes(blocks: seq<Block>, blocks': seq<Block>, i: nat, ip: Inode)
    requires |blocks| == FSSIZE && i < NINODES && Fits(ip)
    requires blocks' == blocks[IBlock(i) := PutInode(blocks[IBlock(i)], i % IPB, ip)]
    ensures forall j :: 0 <= j < NINODES ==> OnDisk(blocks', j) == if j == i then ip else OnDisk(blocks, j)
  {
    hide InodeAt, PutInode;
    forall j | 0 <= j < NINODES ensures OnDisk(blocks', j) == if j == i then ip else OnDisk(blocks, j) {
      PutInodeAt(blocks[IBlock(i)], i % IPB, ip, j % IPB);
      assert j == j / IPB * IPB + j % IPB && i == i / IPB * IPB + i % IPB;
    }
  }

  /** Addresses that are owned fit a word. */
  lemma {:induction false} OwnedFits(blocks: seq<Block>, inodes: seq<Inode>, owner: Owner, i: nat)
    requires Linked(blocks, inodes, owner) && i < |inodes| && inodes[i].size < U32
    ensures Fits(inodes[i])
  {
    forall k | 0 <= k <= NDIRECT ensures inodes[i].addrs[k] < U32 {
      assert Addr(blocks, inodes[i], k) == inodes[i].addrs[k];
    }
  }

  lemma {:induction false} ZeroInode(s: nat)
    requires s < IPB
    ensures InodeAt(ZERO, s) == Raw.Inode(0, seq(NDIRECT + 1, _ => 0))
  {
    hide UintAt, WordsAt;
    ZeroWords();
    assert WordsAt(ZERO, 16 * s + 3, NDIRECT + 1) == seq(NDIRECT + 1, _ => 0);
  }

  lemma {:induction false} ZeroWords()
    ensures forall j :: 0 <= j < NINDIRECT ==> UintAt(ZERO, j) == 0
  {
  }

  /** The inodes on the disk depend on the blocks below the bitmap only. */
  lemma {:induction false} SameInodeBlocks(blocks: seq<Block>, blocks': seq<Block>)
    requires |blocks| == |blocks'| == FSSIZE && blocks'[..BMAPSTART] == blocks[..BMAPSTART]
    ensures forall j :: 0 <= j < NINODES ==> OnDisk(blocks', j) == OnDisk(blocks, j)
  {
    hide InodeAt;
    forall j | 0 <= j < NINODES ensures OnDisk(blocks', j) == OnDisk(blocks, j) {
      assert blocks'[..BMAPSTART][IBlock(j)] == blocks[..BMAPSTART][IBlock(j)];
    }
  }

  // ------------------------------------------------------ files on the disk

  /** The files, from the inodes in memory. */
  function FilesOf(blocks: seq<Block>, inodes: seq<Inode>): seq<seq<Byte>> {
    seq(|inodes|, j requires 0 <= j < |inodes| => File(blocks, inodes[j]))
  }

  ghost predicate InData(blocks: seq<Block>, ip: Inode) {
    forall k: nat {:trigger Addr(blocks, ip, k)} :: k < NSLOT ==>
      Addr(blocks, ip, k) == 0 || DATASTART <= Addr(blocks, ip, k) < FSSIZE
  }

  /** On the disk, the files are these. */
  ghost predicate Stored(blocks: seq<Block>, files: seq<seq<Byte>>) {
    && |blocks| == FSSIZE && |files| == NINODES
    && forall j :: 0 <= j < NINODES ==>
      && OnDisk(blocks, j).size <= MAXFILE * BSIZE && InData(blocks, OnDisk(blocks, j))
      && File(blocks, OnDisk(blocks, j)) == files[j]
  }

  lemma {:induction false} LinkedInData(blocks: seq<Block>, inodes: seq<Inode>, owner: Owner, j: nat)
    requires Linked(blocks, inodes, owner) && j < |inodes|
    ensures InData(blocks, inodes[j])
  {
    hide Addr;
  }

  /** When the inodes on the disk are those in memory, so are the files. */
  lemma {:induction false} SyncedStored(blocks: seq<Block>, inodes: seq<Inode>, owner: Owner)
    requires Linked(blocks, inodes, owner) && |blocks| == FSSIZE && |inodes| == NINODES
    requires forall j :: 0 <= j < NINODES ==> OnDisk(blocks, j) == inodes[j] && inodes[j].size <= MAXFILE * BSIZE
    ensures Stored(blocks, FilesOf(blocks, inodes))
  {
    hide Linked, InData, OnDisk, Addr, File;
    forall j | 0 <= j < NINODES ensures InData(blocks, inodes[j]) {
      LinkedInData(blocks, inodes, owner, j);
    }
  }

  /** A disk with the same metadata and data blocks holds the same files. */
  lemma {:induction false} StoredSame(blocks: seq<Block>, blocks': seq<Block>, files: seq<seq<Byte>>)
    requires Stored(blocks, files) && |blocks'| == FSSIZE
    requires forall b :: INODESTART <= b < FSSIZE ==> blocks'[b] == blocks[b]
    ensures Stored(blocks', files)
  {
    hide InodeAt;
    forall j | 0 <= j < NINODES ensures OnDisk(blocks', j) == OnDisk(blocks, j)
        && InData(blocks', OnDisk(blocks', j)) && File(blocks', OnDisk(blocks', j)) == files[j] {
      SameFile(blocks, blocks', OnDisk(blocks, j));
    }
  }

  lemma {:induction false} SameFile(blocks: seq<Block>, blocks': seq<Block>, ip: Inode)
    requires |blocks| == |blocks'| == FSSIZE && InData(blocks, ip) && ip.size <= MAXFILE * BSIZE
    requires forall b :: INODESTART <= b < FSSIZE ==> blocks'[b] == blocks[b]
    ensures InData(blocks', ip) && File(blocks', ip) == File(blocks, ip)
  {
    hide UintAt;
    forall k: nat | k < NSLOT ensures Addr(blocks', ip, k) == Addr(blocks, ip, k) {
      assert Addr(blocks, ip, NDIRECT) == ip.addrs[NDIRECT];
    }
    assert InData(blocks', ip);
    forall p: nat | p < ip.size ensures Data(blocks', ip, p) == Data(blocks, ip, p) {
      assert SlotOf(p / BSIZE) < NSLOT;
    }
  }
}
