/**
 The heap of umalloc.c, in units of one header. The free list is the circular
 list from `base`, kept here in address order; `cover` maps every unit obtained
 from sbrk to the header of the block it belongs to, so that blocks that are
 free or live partition those units.
 */
module HeapModel {
  import opened Sets

  datatype Header = Header(ptr: nat, size: nat)
  type Mem = map<nat, Header>

  function Size(mem: Mem, b: nat): nat {
    if b in mem then mem[b].size else 0
  }

  // ------------------------------------------------------ the free list

  function Next(list: seq<nat>, i: nat): nat
    requires i < |list|
  {
    if i + 1 < |list| then list[i + 1] else list[0]
  }

  predicate PointsOn(mem: Mem, list: seq<nat>, i: nat) {
    i < |list| && list[i] in mem && mem[list[i]].ptr == Next(list, i)
  }

  /** Every element points to the next, the last to the first. */
  ghost predicate Circular(mem: Mem, list: seq<nat>) {
    forall i :: 0 <= i < |list| ==> PointsOn(mem, list, i)
  }

  /** In address order from base on, and no two neighbours touch. */
  ghost predicate Coalesced(mem: Mem, list: seq<nat>, base: nat) {
    && |list| > 0 && list[0] == base && Size(mem, base) == 0
    && (forall i :: 0 < i < |list| ==> Size(mem, list[i]) > 0)
    && (forall i, j :: 0 <= i < j < |list| ==> list[i] + Size(mem, list[i]) < list[j])
  }

  ghost predicate ListOk(mem: Mem, list: seq<nat>, base: nat) {
    Circular(mem, list) && Coalesced(mem, list, base)
  }

  /** Block b belongs after list[k]. */
  ghost predicate Follows(list: seq<nat>, k: nat, b: nat) {
    k < |list| && list[k] < b && (k + 1 < |list| ==> b < list[k + 1])
  }

  function Insert(list: seq<nat>, k: nat, b: nat): seq<nat>
    requires k < |list|
  {
    list[..k + 1] + [b] + list[k + 1..]
  }

  function Remove(list: seq<nat>, k: nat): seq<nat>
    requires k < |list|
  {
    list[..k] + list[k + 1..]
  }

  lemma {:induction false} InsertOk(mem: Mem, list: seq<nat>, base: nat, k: nat, b: nat)
    requires ListOk(mem, list, base) && Follows(list, k, b) && Size(mem, b) > 0
    requires list[k] + Size(mem, list[k]) < b && (k + 1 < |list| ==> b + Size(mem, b) < list[k + 1])
    ensures b in mem && list[k] in mem
    ensures ListOk(mem[b := mem[b].(ptr := Next(list, k))][list[k] := mem[list[k]].(ptr := b)], Insert(list, k, b), base)
  {
    assert PointsOn(mem, list, k);
    var p := list[k];
    var mem' := mem[b := mem[b].(ptr := Next(list, k))][p := mem[p].(ptr := b)];
    var list' := Insert(list, k, b);
    assert forall x: nat :: Size(mem', x) == Size(mem, x);
    InsertSpaced(mem, list, base, k, b);
    assert Coalesced(mem', list', base);
    forall i | 0 <= i < |list'| ensures PointsOn(mem', list', i) {
      if i < k {
        assert PointsOn(mem, list, i) && list[i] < list[k];
      } else if i > k + 1 {
        assert PointsOn(mem, list, i - 1) && list[k] < list[i - 1];
        assert list[k + 1] <= list[i - 1];
      }
    }
  }

  lemma {:induction false} InsertSpaced(mem: Mem, list: seq<nat>, base: nat, k: nat, b: nat)
    requires Coalesced(mem, list, base) && Follows(list, k, b) && Size(mem, b) > 0
    requires list[k] + Size(mem, list[k]) < b && (k + 1 < |list| ==> b + Size(mem, b) < list[k + 1])
    ensures Coalesced(mem, Insert(list, k, b), base)
  {
    var list' := Insert(list, k, b);
    forall i, j | 0 <= i < j < |list'| ensures list'[i] + Size(mem, list'[i]) < list'[j] {
      if i == k + 1 {
        assert j == k + 2 || list[k + 1] < list[j - 1];
      } else if j == k + 1 {
        assert i == k || list[i] + Size(mem, list[i]) < list[k];
      }
    }
  }

  lemma {:induction false} RemoveOk(mem: Mem, mem': Mem, list: seq<nat>, base: nat, k: nat)
    requires ListOk(mem, list, base) && k + 1 < |list|
    requires forall i :: 0 <= i < |list| && i != k && i != k + 1 ==> list[i] in mem' && list[i] in mem && mem'[list[i]] == mem[list[i]]
    requires list[k] in mem && list[k] in mem' && mem'[list[k]] == mem[list[k]].(ptr := Next(list, k + 1))
    ensures ListOk(mem', Remove(list, k + 1), base)
  {
    var list' := Remove(list, k + 1);
    forall i | 0 <= i < |list'| ensures PointsOn(mem', list', i) {
      if i < k {
        assert PointsOn(mem, list, i);
      } else if i > k {
        assert PointsOn(mem, list, i + 1);
      }
    }
    RemoveSpaced(mem, mem', list, base, k);
  }

  lemma {:induction false} RemoveSpaced(mem: Mem, mem': Mem, list: seq<nat>, base: nat, k: nat)
    requires Coalesced(mem, list, base) && k + 1 < |list|
    requires forall i :: 0 <= i < |list| && i != k + 1 ==> Size(mem', list[i]) == Size(mem, list[i])
    ensures Coalesced(mem', Remove(list, k + 1), base)
  {
  }

  lemma {:induction false} ResizeOk(mem: Mem, mem': Mem, list: seq<nat>, base: nat, k: nat)
    requires ListOk(mem, list, base) && 0 < k < |list|
    requires forall i :: 0 <= i < |list| && i != k ==> list[i] in mem' && list[i] in mem && mem'[list[i]] == mem[list[i]]
    requires list[k] in mem && list[k] in mem' && mem'[list[k]].ptr == mem[list[k]].ptr && mem'[list[k]].size > 0
    requires k + 1 < |list| ==> list[k] + mem'[list[k]].size < list[k + 1]
    ensures ListOk(mem', list, base)
  {
    forall i | 0 <= i < |list| ensures PointsOn(mem', list, i) {
      assert PointsOn(mem, list, i);
    }
    forall i, j | 0 <= i < j < |list| ensures list[i] + Size(mem', list[i]) < list[j] {
      assert i == k ==> j == k + 1 || list[k + 1] < list[j];
    }
  }

  // ------------------------------------------------------ the partition

  /** Every unit of block b belongs to b. */
  ghost predicate Covers(mem: Mem, cover: map<nat, nat>, b: nat) {
    forall x {:trigger cover[x]} {:trigger x in cover} :: b <= x < b + Size(mem, b) ==> x in cover && cover[x] == b
  }

  ghost predicate Partition(mem: Mem, blocks: set<nat>, cover: map<nat, nat>) {
    && (forall b :: b in blocks ==> Covers(mem, cover, b))
    && (forall x :: x in cover ==> cover[x] in blocks && cover[x] <= x < cover[x] + Size(mem, cover[x]))
  }

  /** Two blocks of the partition do not overlap. */
  lemma {:induction false} Apart(mem: Mem, blocks: set<nat>, cover: map<nat, nat>, b: nat, c: nat)
    requires Partition(mem, blocks, cover) && b in blocks && c in blocks && b < c && Size(mem, c) > 0
    ensures b + Size(mem, b) <= c
  {
    assert Covers(mem, cover, b) && Covers(mem, cover, c);
    assert c in cover && cover[c] == c;
  }

  /** Units of q now belong to b. */
  function Moved(cover: map<nat, nat>, q: nat, b: nat): (r: map<nat, nat>)
    ensures r.Keys == cover.Keys
  {
    map x | x in cover :: if cover[x] == q then b else cover[x]
  }

  /** Two blocks that touch become one. */
  lemma {:induction false} MergeOk(mem: Mem, mem': Mem, blocks: set<nat>, cover: map<nat, nat>, b: nat, q: nat)
    requires Partition(mem, blocks, cover) && b in blocks && q in blocks && b + Size(mem, b) == q && b != q
    requires Size(mem', b) == Size(mem, b) + Size(mem, q)
    requires forall c :: c in blocks && c != b && c != q ==> Size(mem', c) == Size(mem, c)
    ensures Partition(mem', blocks - {q}, Moved(cover, q, b))
  {
    var cover' := Moved(cover, q, b);
    assert Covers(mem, cover, b) && Covers(mem, cover, q);
    forall c | c in blocks - {q} ensures Covers(mem', cover', c) {
      assert Covers(mem, cover, c);
    }
  }

  /** Units of b from q on belong to q. */
  function Cut(cover: map<nat, nat>, b: nat, q: nat): (r: map<nat, nat>)
    ensures r.Keys == cover.Keys
  {
    map x | x in cover :: if cover[x] == b && q <= x then q else cover[x]
  }

  /** A block is cut in two. */
  lemma {:induction false} CutOk(mem: Mem, mem': Mem, blocks: set<nat>, cover: map<nat, nat>, b: nat, q: nat)
    requires Partition(mem, blocks, cover) && b in blocks && b < q < b + Size(mem, b)
    requires b + Size(mem', b) == q && q + Size(mem', q) == b + Size(mem, b)
    requires forall c :: c in blocks && c != b ==> Size(mem', c) == Size(mem, c)
    ensures q !in blocks && Partition(mem', blocks + {q}, Cut(cover, b, q))
  {
    var cover' := Cut(cover, b, q);
    assert Covers(mem, cover, b) && q in cover && cover[q] == b;
    assert q in blocks ==> Covers(mem, cover, q);
    forall c | c in blocks + {q} ensures Covers(mem', cover', c) {
      if c != q {
        assert Covers(mem, cover, c);
      }
    }
  }

  function Region(b: nat, n: nat): (r: map<nat, nat>)
    ensures forall x: nat :: x in r <==> b <= x < b + n
    ensures forall x: nat :: x in r ==> r[x] == b
  {
    if n == 0 then map[] else Region(b, n - 1)[b + n - 1 := b]
  }

  /** sbrk hands out n units that belonged to nobody. */
  lemma {:induction false} AddOk(mem: Mem, mem': Mem, blocks: set<nat>, cover: map<nat, nat>, b: nat, n: nat)
    requires Partition(mem, blocks, cover) && b !in blocks && Size(mem', b) == n
    requires forall x :: b <= x < b + n ==> x !in cover
    requires forall c :: c in blocks ==> Size(mem', c) == Size(mem, c)
    ensures Partition(mem', blocks + {b}, cover + Region(b, n))
  {
    var cover' := cover + Region(b, n);
    forall c | c in blocks + {b} ensures Covers(mem', cover', c) {
      if c != b {
        assert Covers(mem, cover, c);
      }
    }
  }

  // ------------------------------------------------------ whole heaps

  datatype Heap = Heap(
    mem: Mem,
    list: seq<nat>,       // the free list, from base in address order
    live: set<nat>,       // headers of the blocks handed out
    cover: map<nat, nat>)

  ghost predicate LiveOk(h: Heap, base: nat) {
    forall b :: b in h.live ==> b in h.mem && h.mem[b].size > 0 && b !in h.list && base < b
  }

  ghost predicate HeapOk(h: Heap, base: nat) {
    && ListOk(h.mem, h.list, base) && LiveOk(h, base)
    && Partition(h.mem, h.live + Elems(h.list), h.cover)
  }

  /** A live block between two free ones touches them at most. */
  lemma {:induction false} Between(h: Heap, base: nat, k: nat, b: nat)
    requires HeapOk(h, base) && b in h.live && Follows(h.list, k, b)
    ensures h.list[k] in h.mem && h.list[k] + Size(h.mem, h.list[k]) <= b
    ensures k + 1 < |h.list| ==> h.list[k + 1] in h.mem && b + Size(h.mem, b) <= h.list[k + 1]
  {
    hide Partition, Coalesced;
    var blocks := h.live + Elems(h.list);
    assert PointsOn(h.mem, h.list, k);
    Apart(h.mem, blocks, h.cover, h.list[k], b);
    if k + 1 < |h.list| {
      assert PointsOn(h.mem, h.list, k + 1);
      FreeSize(h.mem, h.list, base, k + 1);
      Apart(h.mem, blocks, h.cover, b, h.list[k + 1]);
    }
  }

  lemma {:induction false} FreeSize(mem: Mem, list: seq<nat>, base: nat, k: nat)
    requires Coalesced(mem, list, base) && 0 < k < |list|
    ensures Size(mem, list[k]) > 0 && base < list[k]
  {
  }

  lemma {:induction false} ElemsRemove(list: seq<nat>, mem: Mem, base: nat, k: nat)
    requires Coalesced(mem, list, base) && k < |list|
    ensures Elems(Remove(list, k)) == Elems(list) - {list[k]}
  {
    var r := Remove(list, k);
    forall x | x in Elems(list) - {list[k]} ensures x in r {
      var i :| 0 <= i < |list| && list[i] == x;
      assert r[if i < k then i else i - 1] == x;
    }
  }

  lemma {:induction false} ElemsInsert(list: seq<nat>, k: nat, b: nat)
    requires k < |list|
    ensures Elems(Insert(list, k, b)) == Elems(list) + {b}
  {
    var r := Insert(list, k, b);
    assert r[k + 1] == b;
    forall x | x in Elems(list) ensures x in r {
      var i :| 0 <= i < |list| && list[i] == x;
      assert r[if i <= k then i else i + 1] == x;
    }
  }

  // ------------------------------------------------------ free

  /** A live block takes in the free block that it touches. */
  function Absorb(h: Heap, k: nat, b: nat): Heap
    requires k + 1 < |h.list| && h.list[k] in h.mem && h.list[k + 1] in h.mem && b in h.mem
  {
    var p, q := h.list[k], h.list[k + 1];
    h.(mem := h.mem[b := Header(h.mem[q].ptr, h.mem[b].size + h.mem[q].size)][p := h.mem[p].(ptr := h.mem[q].ptr)],
       list := Remove(h.list, k + 1), cover := Moved(h.cover, q, b))
  }

  lemma {:induction false} AbsorbOk(h: Heap, base: nat, k: nat, b: nat)
    requires HeapOk(h, base) && b in h.live && Follows(h.list, k, b)
    requires k + 1 < |h.list| && h.list[k] in h.mem && h.list[k + 1] in h.mem && b + Size(h.mem, b) == h.list[k + 1]
    ensures HeapOk(Absorb(h, k, b), base) && Follows(Absorb(h, k, b).list, k, b)
  {
    hide Partition, Coalesced, Circular, Moved;
    var p, q := h.list[k], h.list[k + 1];
    var g := Absorb(h, k, b);
    assert PointsOn(h.mem, h.list, k + 1) by { Pointed(h.mem, h.list, k + 1); }
    ListParts(h.mem, h.list, base);
    RemoveOk(h.mem, g.mem, h.list, base, k);
    MergeOk(h.mem, g.mem, h.live + Elems(h.list), h.cover, b, q);
    ElemsRemove(h.list, h.mem, base, k + 1);
    assert g.live + Elems(g.list) == h.live + Elems(h.list) - {q};
    assert forall c :: c in g.list ==> c in Elems(g.list);
  }

  lemma {:induction false} Pointed(mem: Mem, list: seq<nat>, k: nat)
    requires Circular(mem, list) && k < |list|
    ensures PointsOn(mem, list, k)
  {
  }

  lemma {:induction false} ListParts(mem: Mem, list: seq<nat>, base: nat)
    requires ListOk(mem, list, base)
    ensures forall i :: 0 <= i < |list| ==> list[i] in mem
    ensures forall i, j :: 0 <= i < j < |list| ==> list[i] < list[j]
    ensures |list| > 0 && list[0] == base
  {
    forall i | 0 <= i < |list| ensures list[i] in mem {
      assert PointsOn(mem, list, i);
    }
  }

  /** A live block that touches nothing enters the list. */
  function Enter(h: Heap, k: nat, b: nat): Heap
    requires k < |h.list| && h.list[k] in h.mem && b in h.mem
  {
    var p := h.list[k];
    h.(mem := h.mem[b := h.mem[b].(ptr := Next(h.list, k))][p := h.mem[p].(ptr := b)],
       list := Insert(h.list, k, b), live := h.live - {b})
  }

  lemma {:induction false} EnterOk(h: Heap, base: nat, k: nat, b: nat)
    requires HeapOk(h, base) && b in h.live && Follows(h.list, k, b) && h.list[k] in h.mem
    requires h.list[k] + Size(h.mem, h.list[k]) != b && (k + 1 < |h.list| ==> b + Size(h.mem, b) != h.list[k + 1])
    ensures HeapOk(Enter(h, k, b), base)
  {
    hide Partition, Coalesced, Circular;
    var g := Enter(h, k, b);
    Between(h, base, k, b);
    InsertOk(h.mem, h.list, base, k, b);
    ElemsInsert(h.list, k, b);
    assert g.live + Elems(g.list) == h.live + Elems(h.list);
    SameSizes(h.mem, g.mem, h.live + Elems(h.list), h.cover);
    assert forall c :: c in g.list ==> c in Elems(g.list);
    assert forall c :: c in h.list ==> c in Elems(h.list);
  }

  lemma {:induction false} SameSizes(mem: Mem, mem': Mem, blocks: set<nat>, cover: map<nat, nat>)
    requires Partition(mem, blocks, cover) && forall b :: b in blocks ==> Size(mem', b) == Size(mem, b)
    ensures Partition(mem', blocks, cover)
  {
    forall b | b in blocks ensures Covers(mem', cover, b) {
      assert Covers(mem, cover, b);
    }
  }

  /** The free block before a live one takes it in. */
  function Extend(h: Heap, k: nat, b: nat): Heap
    requires k < |h.list| && h.list[k] in h.mem && b in h.mem
  {
    var p := h.list[k];
    h.(mem := h.mem[b := h.mem[b].(ptr := Next(h.list, k))][p := Header(Next(h.list, k), h.mem[p].size + h.mem[b].size)],
       live := h.live - {b}, cover := Moved(h.cover, b, p))
  }

  lemma {:induction false} ExtendOk(h: Heap, base: nat, k: nat, b: nat)
    requires HeapOk(h, base) && b in h.live && Follows(h.list, k, b) && h.list[k] in h.mem
    requires h.list[k] + Size(h.mem, h.list[k]) == b && (k + 1 < |h.list| ==> b + Size(h.mem, b) != h.list[k + 1])
    ensures HeapOk(Extend(h, k, b), base)
  {
    hide Partition, Coalesced, Circular, Moved;
    var g := Extend(h, k, b);
    Between(h, base, k, b);
    ListParts(h.mem, h.list, base);
    assert k > 0 by { BaseEmpty(h.mem, h.list, base); }
    Pointed(h.mem, h.list, k);
    ResizeOk(h.mem, g.mem, h.list, base, k);
    MergeOk(h.mem, g.mem, h.live + Elems(h.list), h.cover, h.list[k], b);
    assert g.live + Elems(g.list) == h.live + Elems(h.list) - {b};
  }

  lemma {:induction false} BaseEmpty(mem: Mem, list: seq<nat>, base: nat)
    requires Coalesced(mem, list, base)
    ensures Size(mem, base) == 0
  {
  }

  /** All of free, for a block that belongs after list[k]. */
  function Freed(h: Heap, k: nat, b: nat): Heap
    requires k < |h.list| && b in h.mem && forall i :: 0 <= i < |h.list| ==> h.list[i] in h.mem
  {
    var g := if k + 1 < |h.list| && b + h.mem[b].size == h.list[k + 1] then Absorb(h, k, b) else h;
    assert g.list[k] == h.list[k];
    if h.list[k] + h.mem[h.list[k]].size == b then Extend(g, k, b) else Enter(g, k, b)
  }

  lemma {:induction false} FreedOk(h: Heap, base: nat, k: nat, b: nat)
    requires HeapOk(h, base) && b in h.live && b in h.mem && Follows(h.list, k, b)
    requires forall i :: 0 <= i < |h.list| ==> h.list[i] in h.mem
    ensures var g := Freed(h, k, b);
      HeapOk(g, base) && g.live == h.live - {b} && g.cover.Keys == h.cover.Keys && h.list[k] in g.list
  {
    hide HeapOk, Partition, Coalesced, Circular;
    Between(h, base, k, b);
    var g := h;
    if k + 1 < |h.list| && b + h.mem[b].size == h.list[k + 1] {
      AbsorbOk(h, base, k, b);
      g := Absorb(h, k, b);
      AbsorbApart(h, base, k, b);
    }
    if h.list[k] + h.mem[h.list[k]].size == b {
      ExtendOk(g, base, k, b);
    } else {
      assert h.list[k] in g.mem && b in g.mem;
      EnterOk(g, base, k, b);
      assert Enter(g, k, b).list[k] == h.list[k];
    }
  }

  /** The two steps of free on the headers: first the upper neighbour, then the lower. */
  function JoinUpper(mem: Mem, p: nat, b: nat): Mem
    requires p in mem && b in mem && mem[p].ptr in mem
  {
    var q := mem[p].ptr;
    mem[b := if b + mem[b].size == q then Header(mem[q].ptr, mem[b].size + mem[q].size) else mem[b].(ptr := q)]
  }

  function JoinLower(mem: Mem, p: nat, b: nat): Mem
    requires p in mem && b in mem
  {
    mem[p := if p + mem[p].size == b then Header(mem[b].ptr, mem[p].size + mem[b].size) else mem[p].(ptr := b)]
  }

  lemma {:induction false} FreedMem(h: Heap, base: nat, k: nat, b: nat)
    requires HeapOk(h, base) && b in h.live && b in h.mem && Follows(h.list, k, b)
    requires forall i :: 0 <= i < |h.list| ==> h.list[i] in h.mem
    ensures var p := h.list[k];
      && h.mem[p].ptr in h.mem && p in JoinUpper(h.mem, p, b) && b in JoinUpper(h.mem, p, b)
      && Freed(h, k, b).mem == JoinLower(JoinUpper(h.mem, p, b), p, b)
  {
    hide Partition, Coalesced, Circular;
    var p := h.list[k];
    Pointed(h.mem, h.list, k);
    ListParts(h.mem, h.list, base);
    var q := Next(h.list, k);
    assert b + h.mem[b].size == q ==> k + 1 < |h.list|;
    if b + h.mem[b].size == q {
      Pointed(h.mem, h.list, k + 1);
      assert Next(Absorb(h, k, b).list, k) == h.mem[q].ptr;
    }
  }

  /** Other live blocks keep their size; the freed units are in list[k] or in the block after it. */
  lemma {:induction false} FreedSizes(h: Heap, base: nat, k: nat, b: nat)
    requires HeapOk(h, base) && b in h.live && Follows(h.list, k, b) && forall i :: 0 <= i < |h.list| ==> h.list[i] in h.mem
    ensures var g := Freed(h, k, b); var p := h.list[k];
      && (forall c :: c in g.live ==> Size(g.mem, c) == Size(h.mem, c))
      && p in g.mem && (Size(g.mem, p) >= Size(h.mem, b) || Size(g.mem, g.mem[p].ptr) >= Size(h.mem, b))
  {
    hide Partition, Circular, Coalesced;
    assert forall i :: 0 <= i < |h.list| ==> h.list[i] !in h.live;
  }

  /** The free block behind the one taken in does not touch it. */
  lemma {:induction false} AbsorbApart(h: Heap, base: nat, k: nat, b: nat)
    requires HeapOk(h, base) && k + 1 < |h.list| && h.list[k] in h.mem && h.list[k + 1] in h.mem && b in h.live && b in h.mem
    requires b + Size(h.mem, b) == h.list[k + 1] && h.list[k] < b
    ensures var g := Absorb(h, k, b);
      && g.list[k] == h.list[k] && Size(g.mem, g.list[k]) == Size(h.mem, h.list[k])
      && (k + 1 < |g.list| ==> b + Size(g.mem, b) != g.list[k + 1])
  {
    hide Partition, Circular;
    assert h.list[k + 1] != b;
  }

  // ------------------------------------------------------ malloc

  /** A free block of the right size leaves the list. */
  function TakeWhole(h: Heap, k: nat): Heap
    requires k + 1 < |h.list| && h.list[k] in h.mem && h.list[k + 1] in h.mem
  {
    var p, q := h.list[k], h.list[k + 1];
    h.(mem := h.mem[p := h.mem[p].(ptr := h.mem[q].ptr)], list := Remove(h.list, k + 1), live := h.live + {q})
  }

  lemma {:induction false} TakeWholeOk(h: Heap, base: nat, k: nat)
    requires HeapOk(h, base) && k + 1 < |h.list| && h.list[k] in h.mem && h.list[k + 1] in h.mem
    ensures h.list[k + 1] !in h.live && HeapOk(TakeWhole(h, k), base) && h.list[k] in TakeWhole(h, k).list
    ensures forall b: nat :: Size(TakeWhole(h, k).mem, b) == Size(h.mem, b)
  {
    hide Partition, Coalesced, Circular, LiveOk;
    var q := h.list[k + 1];
    var g := TakeWhole(h, k);
    Pointed(h.mem, h.list, k + 1);
    FreeSize(h.mem, h.list, base, k + 1);
    ListParts(h.mem, h.list, base);
    RemoveOk(h.mem, g.mem, h.list, base, k);
    ElemsRemove(h.list, h.mem, base, k + 1);
    assert q in Elems(h.list);
    assert g.live + Elems(g.list) == h.live + Elems(h.list);
    SameSizes(h.mem, g.mem, h.live + Elems(h.list), h.cover);
    TakenLive(h, base, k);
    assert g.list[k] == h.list[k];
  }

  lemma {:induction false} TakenLive(h: Heap, base: nat, k: nat)
    requires HeapOk(h, base) && k + 1 < |h.list| && h.list[k] in h.mem && h.list[k + 1] in h.mem
    ensures h.list[k + 1] !in h.live && LiveOk(TakeWhole(h, k), base)
  {
    hide Partition, Circular, Coalesced, Remove;
    var g := TakeWhole(h, k);
    FreeSize(h.mem, h.list, base, k + 1);
    ElemsRemove(h.list, h.mem, base, k + 1);
    assert forall c :: c in g.list ==> c in Elems(g.list);
  }

  /** The end of a larger free block is cut off; `junk` is whatever its pointer field held. */
  function TakeTail(h: Heap, k: nat, n: nat, junk: nat): Heap
    requires k < |h.list| && h.list[k] in h.mem && n < h.mem[h.list[k]].size
  {
    var p := h.list[k];
    var rest := h.mem[p].size - n;
    h.(mem := h.mem[p := h.mem[p].(size := rest)][p + rest := Header(junk, n)],
       live := h.live + {p + rest}, cover := Cut(h.cover, p, p + rest))
  }

  lemma {:induction false} TakeTailOk(h: Heap, base: nat, k: nat, n: nat, junk: nat)
    requires HeapOk(h, base) && 0 < k < |h.list| && h.list[k] in h.mem && 0 < n < h.mem[h.list[k]].size
    ensures var q := h.list[k] + h.mem[h.list[k]].size - n;
      var g := TakeTail(h, k, n, junk);
      && q !in h.live && q !in h.list && HeapOk(g, base) && Size(g.mem, q) == n && g.cover.Keys == h.cover.Keys
      && forall b :: b in h.live ==> Size(g.mem, b) == Size(h.mem, b)
  {
    hide Partition, Coalesced, Circular, Cut;
    var p := h.list[k];
    var q := p + h.mem[p].size - n;
    var g := TakeTail(h, k, n, junk);
    ListParts(h.mem, h.list, base);
    TailFree(h, base, k, q);
    ResizeOk(h.mem, g.mem, h.list, base, k);
    assert p in Elems(h.list);
    CutOk(h.mem, g.mem, h.live + Elems(h.list), h.cover, p, q);
    assert g.live + Elems(g.list) == h.live + Elems(h.list) + {q};
  }

  lemma {:induction false} TailFree(h: Heap, base: nat, k: nat, q: nat)
    requires HeapOk(h, base) && k < |h.list| && h.list[k] < q < h.list[k] + Size(h.mem, h.list[k])
    ensures q !in h.live && q !in h.list
    ensures k + 1 < |h.list| ==> q < h.list[k + 1]
  {
    var blocks := h.live + Elems(h.list);
    var p := h.list[k];
    assert p in blocks;
    assert Covers(h.mem, h.cover, p) && q in h.cover && h.cover[q] == p;
    assert q in blocks ==> Covers(h.mem, h.cover, q);
  }

  // ------------------------------------------------------ morecore

  /** All blocks lie below the end of the heap. */
  lemma {:induction false} Beyond(h: Heap, base: nat, brk: nat, b: nat)
    requires HeapOk(h, base) && base < brk <= b && forall x :: x in h.cover ==> x < brk
    ensures b !in h.live && b !in h.list && forall x :: b <= x ==> x !in h.cover
  {
    hide Circular;
    var blocks := h.live + Elems(h.list);
    assert b in blocks ==> Covers(h.mem, h.cover, b);
    assert b in blocks && Size(h.mem, b) > 0 ==> b in h.cover;
    assert forall i :: 0 <= i < |h.list| && h.list[i] == b ==> Size(h.mem, b) > 0;
  }

  lemma {:induction false} AddBlockOk(h: Heap, base: nat, b: nat, n: nat, junk: nat)
    requires HeapOk(h, base) && b !in h.live && b !in h.list && base < b && n > 0
    requires forall x :: b <= x ==> x !in h.cover
    ensures HeapOk(Heap(h.mem[b := Header(junk, n)], h.list, h.live + {b}, h.cover + Region(b, n)), base)
  {
    hide Partition, Coalesced, Circular;
    var mem' := h.mem[b := Header(junk, n)];
    AddOk(h.mem, mem', h.live + Elems(h.list), h.cover, b, n);
    assert h.live + {b} + Elems(h.list) == h.live + Elems(h.list) + {b};
    SameList(h.mem, mem', h.list, base);
  }

  lemma {:induction false} SameList(mem: Mem, mem': Mem, list: seq<nat>, base: nat)
    requires ListOk(mem, list, base)
    requires forall b :: b in list && b in mem ==> b in mem' && mem'[b] == mem[b]
    ensures ListOk(mem', list, base)
  {
    forall i | 0 <= i < |list| ensures PointsOn(mem', list, i) && Size(mem', list[i]) == Size(mem, list[i]) {
      assert PointsOn(mem, list, i);
    }
  }

  // ------------------------------------------------------ conservation

  ghost function Pick(blocks: set<nat>): nat
    requires blocks != {}
    ensures Pick(blocks) in blocks
  {
    var b :| b in blocks;
    b
  }

  /** The units of all blocks together. */
  ghost function Total(mem: Mem, blocks: set<nat>): nat
    decreases |blocks|
  {
    if blocks == {} then 0 else Size(mem, Pick(blocks)) + Total(mem, blocks - {Pick(blocks)})
  }

  /** The units that belong to other blocks. */
  function Rest(cover: map<nat, nat>, b: nat): (r: map<nat, nat>)
    ensures forall x :: x in r <==> x in cover && cover[x] != b
    ensures forall x :: x in r ==> r[x] == cover[x]
  {
    map x | x in cover && cover[x] != b :: cover[x]
  }

  lemma {:induction false} RestPartition(mem: Mem, blocks: set<nat>, cover: map<nat, nat>, b: nat)
    requires Partition(mem, blocks, cover) && b in blocks
    ensures Partition(mem, blocks - {b}, Rest(cover, b))
  {
    hide Rest;
    forall c | c in blocks - {b} ensures Covers(mem, Rest(cover, b), c) {
      assert Covers(mem, cover, c);
    }
  }

  lemma {:induction false} RestCount(mem: Mem, blocks: set<nat>, cover: map<nat, nat>, b: nat)
    requires Partition(mem, blocks, cover) && b in blocks
    ensures |cover| == |Rest(cover, b)| + Size(mem, b)
  {
    hide Interval, Rest;
    var rest, own := Rest(cover, b).Keys, Interval(b, b + Size(mem, b));
    assert Covers(mem, cover, b);
    forall x ensures x in cover.Keys <==> x in rest + own {
    }
    assert cover.Keys == rest + own;
    assert rest !! own;
  }

  /** Free and live blocks together have exactly the units that sbrk gave. */
  lemma {:induction false} UnitsConserved(mem: Mem, blocks: set<nat>, cover: map<nat, nat>)
    requires Partition(mem, blocks, cover)
    ensures Total(mem, blocks) == |cover|
    decreases |blocks|
  {
    hide Partition;
    if blocks != {} {
      var b := Pick(blocks);
      RestPartition(mem, blocks, cover, b);
      RestCount(mem, blocks, cover, b);
      UnitsConserved(mem, blocks - {b}, Rest(cover, b));
    } else {
      NothingCovered(mem, cover);
    }
  }

  lemma {:induction false} NothingCovered(mem: Mem, cover: map<nat, nat>)
    requires Partition(mem, {}, cover)
    ensures |cover| == 0
  {
    assert cover.Keys == {};
  }
}
