/**
 bio.c with its circular doubly linked list. The list links live in nodes; the
 other fields of the buffers are in `bufs`, by the number of the buffer. The
 ghost machine `m` takes the step that each locked section stands for.
 */
module Bcache {
  import opened Params
  import opened Bytes
  import opened BcacheMachine
  import opened BcacheTheorems

  class Node {
    const id: nat // the number of the buffer; NBUF for the head
    var prev: Node
    var next: Node

    constructor (id: nat)
      ensures this.id == id && prev == this && next == this
    {
      this.id, prev, next := id, this, this;
    }
  }

  /** The numbers around the ring, from the head back to the head. */
  function Around(order: seq<nat>): (r: seq<nat>)
    ensures |r| == |order| + 2
  {
    [NBUF] + order + [NBUF]
  }

  class Cache {
    const nodes: seq<Node> // the buffers, then the head
    var bufs: seq<Buf>
    var disk: seq<Block>
    ghost var m: State

    ghost predicate Shape() {
      |nodes| == NBUF + 1 && forall i :: 0 <= i <= NBUF ==> nodes[i].id == i
    }

    /** Places i and i + 1 of the walk r are linked both ways. */
    ghost predicate Joined(r: seq<nat>, i: nat)
      reads nodes
    {
      && Shape() && i + 1 < |r| && r[i] <= NBUF && r[i + 1] <= NBUF
      && nodes[r[i]].next == nodes[r[i + 1]] && nodes[r[i + 1]].prev == nodes[r[i]]
    }

    /** Following next from the head visits the buffers in this order, and prev goes back. */
    ghost predicate Ring(order: seq<nat>)
      reads nodes
    {
      Shape() && Within(order, NBUF) && forall i :: 0 <= i <= |order| ==> Joined(Around(order), i)
    }

    ghost predicate Valid()
      reads this, nodes
    {
      && Shape() && Inv(m) && Ring(m.order) && m.bufs == bufs && m.disk == disk
    }

    /** b becomes the first of the list. */
    method PushFront(b: Node, ghost order: seq<nat>)
      requires Ring(order) && b.id < NBUF && nodes[b.id] == b && b.id !in order
      modifies nodes
      ensures Ring([b.id] + order)
    {
      var head := nodes[NBUF];
      ghost var q, r := Around(order), Around([b.id] + order);
      assert Joined(q, 0);
      b.next := head.next;
      b.prev := head;
      head.next.prev := b;
      head.next := b;
      forall i | 0 <= i <= |order| + 1 ensures Joined(r, i) {
        if i >= 2 {
          assert old(Joined(q, i - 1)) && r[i] == q[i - 1] && r[i + 1] == q[i];
        }
      }
    }

    /** b leaves the list. */
    method Unlink(b: Node, ghost order: seq<nat>, ghost k: nat)
      requires Ring(order) && k < |order| && b.id == order[k] && nodes[b.id] == b
      requires forall i, j :: 0 <= i < j < |order| ==> order[i] != order[j]
      modifies nodes
      ensures Ring(order[..k] + order[k + 1..])
    {
      ghost var q, r := Around(order), Around(order[..k] + order[k + 1..]);
      assert Joined(q, k) && Joined(q, k + 1);
      b.next.prev := b.prev;
      b.prev.next := b.next;
      forall i | 0 <= i < |order| ensures Joined(r, i) {
        if i < k {
          assert old(Joined(q, i)) && r[i] == q[i] && r[i + 1] == q[i + 1];
        } else if i > k {
          assert old(Joined(q, i + 1)) && r[i] == q[i + 1] && r[i + 1] == q[i + 2];
        }
      }
    }

    /** binit: the buffers enter the list one by one, each at the front. */
    constructor (image: seq<Block>)
      requires |image| == FSSIZE
      ensures Valid() && Init(m) && disk == image && fresh(nodes)
    {
      var ns := AllNodes();
      nodes := ns;
      disk := image;
      bufs := seq(NBUF, _ => Buf(0, 0, false, false, 0, Nobody, image[0]));
      m := State(bufs, seq(NBUF, i => NBUF - 1 - i), map[], image, image, seq(NBUF, i => i), NBUF);
      new;
      InitInv(m);
      ghost var order: seq<nat> := [];
      assert Joined(Around(order), 0);
      var k := 0;
      while k < NBUF
        invariant k <= NBUF && |order| == k && Ring(order) && Init(m) && m.bufs == bufs && m.disk == disk == image
        invariant forall i :: 0 <= i < k ==> order[i] == k - 1 - i
      {
        PushFront(nodes[k], order);
        order := [k] + order;
        k := k + 1;
      }
      assert order == m.order;
    }

    /** The locked section of bget; false is the panic. */
    method Bget(ghost u: nat, blockno: nat) returns (ok: bool, b: Node)
      requires Valid() && u !in m.uses && blockno < FSSIZE
      modifies `bufs, `m
      ensures !ok <==> Step(old(m), Get(u, blockno)).Panic?
      ensures !ok ==> m == old(m) && bufs == old(bufs)
      ensures ok ==> Valid() && Step(old(m), Get(u, blockno)) == Went(m) && b in nodes && b.id == m.uses[u].b < NBUF
    {
      hide Inv, UsesOk, BufsOk, DiskOk, CountsOk;
      Ordered(m);
      var head := nodes[NBUF];
      ghost var q := Around(m.order);
      ghost var i := 0;
      assert Joined(q, 0);
      b := head.next;
      while b != head
        invariant i <= |m.order| && b == nodes[q[i + 1]]
        invariant forall j :: 0 <= j < i ==> !Caches(bufs[m.order[j]], blockno)
        decreases |m.order| - i
      {
        assert Joined(q, i + 1) && q[i + 1] == m.order[i];
        if bufs[b.id].dev == ROOTDEV && bufs[b.id].blockno == blockno {
          bufs := bufs[b.id := bufs[b.id].(refcnt := bufs[b.id].refcnt + 1)];
          Advance(Get(u, blockno));
          return true, b;
        }
        b := b.next;
        i := i + 1;
      }
      ok, b := Recycle(u, blockno);
    }

    ghost method Advance(l: Label)
      requires Inv(m) && Step(m, l).Went?
      modifies `m
      ensures Inv(m) && Step(old(m), l) == Went(m)
    {
      hide Inv;
      KeepStep(m, l);
      m := Step(m, l).s;
    }

    /** The second loop of bget: from the end of the list, an idle buffer. */
    method Recycle(ghost u: nat, blockno: nat) returns (ok: bool, b: Node)
      requires Valid() && u !in m.uses && blockno < FSSIZE && Listed(m) && FindCached(m.bufs, m.order, blockno) == |m.order|
      modifies `bufs, `m
      ensures !ok <==> Step(old(m), Get(u, blockno)).Panic?
      ensures !ok ==> m == old(m) && bufs == old(bufs)
      ensures ok ==> Valid() && Step(old(m), Get(u, blockno)) == Went(m) && b in nodes && b.id == m.uses[u].b < NBUF
    {
      hide Inv, UsesOk, BufsOk, DiskOk, CountsOk;
      var head := nodes[NBUF];
      ghost var q := Around(m.order);
      ghost var i := |m.order|;
      assert Joined(q, i);
      b := head.prev;
      while b != head
        invariant 0 <= i <= |m.order| && b == nodes[q[i]]
        invariant forall j :: i <= j < |m.order| ==> !Idle(bufs[m.order[j]])
        decreases i
      {
        assert Joined(q, i - 1) && q[i] == m.order[i - 1];
        if bufs[b.id].refcnt == 0 && !bufs[b.id].dirty {
          bufs := bufs[b.id := bufs[b.id].(dev := ROOTDEV, blockno := blockno, valid := false, dirty := false, refcnt := 1)];
          Advance(Get(u, blockno));
          return true, b;
        }
        b := b.prev;
        i := i - 1;
      }
      return false, b;
    }

    /** The rest of bread once the buffer's lock is held: a buffer that is not valid is read from the disk. */
    method Bread(ghost u: nat, b: Node)
      requires Valid() && Holding(m, u) && b in nodes && b.id == m.uses[u].b
      modifies `bufs, `m
      ensures Valid() && m == (if old(m).bufs[b.id].valid then old(m) else DoFill(old(m), u)) && CanTouch(m, u)
    {
      hide Inv;
      UseFacts(m, u);
      if !bufs[b.id].valid {
        bufs := bufs[b.id := bufs[b.id].(data := disk[bufs[b.id].blockno], valid := true)];
        Advance(Fill(u));
      }
    }

    /** bwrite of a buffer whose lock is held. */
    method WriteThrough(ghost u: nat, b: Node)
      requires Valid() && CanTouch(m, u) && b in nodes && b.id == m.uses[u].b
      modifies `bufs, `disk, `m
      ensures Valid() && m == DoBwrite(old(m), u)
    {
      hide Inv;
      bufs := bufs[b.id := bufs[b.id].(dirty := true)];
      disk := disk[bufs[b.id].blockno := bufs[b.id].data];
      bufs := bufs[b.id := bufs[b.id].(dirty := false, valid := true)];
      Advance(Bwrite(u));
    }

    /** The locked section of brelse: the last reference moves the buffer to the front of the list. */
    method Brelse(ghost u: nat, b: Node)
      requires Valid() && CanDrop(m, u) && b in nodes && b.id == m.uses[u].b
      modifies `bufs, `m, nodes
      ensures Valid() && m == DoDrop(old(m), u)
    {
      hide Inv;
      UseFacts(m, u);
      bufs := bufs[b.id := bufs[b.id].(refcnt := bufs[b.id].refcnt - 1)];
      if bufs[b.id].refcnt == 0 {
        Ordering(m);
        AllListed(m.order, b.id);
        ghost var k :| 0 <= k < |m.order| && m.order[k] == b.id;
        WithoutAt(m.order, k);
        Unlink(b, m.order, k);
        PushFront(b, Without(m.order, b.id));
      }
      Advance(Drop(u));
    }
  }

  lemma {:induction false} Ordering(s: State)
    requires Inv(s)
    ensures Permutes(s.order)
  {
  }

  method AllNodes() returns (nodes: seq<Node>)
    ensures |nodes| == NBUF + 1 && fresh(nodes) && forall i :: 0 <= i <= NBUF ==> nodes[i].id == i && nodes[i].next == nodes[i] == nodes[i].prev
  {
    nodes := [];
    while |nodes| <= NBUF
      invariant |nodes| <= NBUF + 1 && fresh(nodes)
      invariant forall i :: 0 <= i < |nodes| ==> nodes[i].id == i && nodes[i].next == nodes[i] == nodes[i].prev
    {
      var n := new Node(|nodes|);
      nodes := nodes + [n];
    }
  }
}
