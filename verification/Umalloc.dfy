/**
 umalloc.c: malloc and free over the circular free list. Addresses count
 headers of eight bytes; a block is named by its header, and the caller's pointer
 is the unit after it. What sbrk answers is a parameter.
 */
module Umalloc {
  import opened Params
  import opened HeapModel

  /** Units for nbytes and a header, in 32-bit arithmetic. */
  function Units(nbytes: nat): nat {
    (nbytes + 7) % U32 / 8 + 1
  }

  /** What morecore passes to sbrk, as an int. */
  function SbrkBytes(nu: nat): int {
    var bytes := nu * 8 % U32;
    if bytes < U32 / 2 then bytes else bytes - U32
  }

  /** The block has room for the request exactly when the rounding does not wrap around. */
  lemma {:induction false} RoomExactly(nbytes: nat)
    requires nbytes < U32
    ensures 8 * (Units(nbytes) - 1) >= nbytes <==> nbytes <= U32 - 8
  {
  }

  /** sbrk is asked for the units needed exactly when they are fewer than 2^28. */
  lemma {:induction false} AskExactly(nbytes: nat)
    requires nbytes < U32
    ensures SbrkBytes(Units(nbytes)) == 8 * Units(nbytes) <==> Units(nbytes) < 0x1000_0000
  {
  }

  /** sbrk refuses, or hands out memory `gap` units past the end of what the heap knows. */
  datatype Answer = Denied | Granted(gap: nat)

  datatype Outcome = Null | Block(header: nat) | BadSbrk

  // ------------------------------------------------------ the search of free

  /** The loop of free stops at list[i]. */
  predicate Stops(list: seq<nat>, i: nat, b: nat)
    requires i < |list|
  {
    var p, q := list[i], Next(list, i);
    (b > p && b < q) || (p >= q && (b > p || b < q))
  }

  lemma {:induction false} StopsExactly(mem: Mem, list: seq<nat>, base: nat, k: nat, b: nat, i: nat)
    requires Coalesced(mem, list, base) && Follows(list, k, b) && i < |list| && base < b
    ensures Stops(list, i, b) <==> i == k
  {
  }

  lemma {:induction false} Predecessor(mem: Mem, list: seq<nat>, base: nat, b: nat) returns (k: nat)
    requires Coalesced(mem, list, base) && base < b && b !in list
    ensures Follows(list, k, b)
  {
    k := 0;
    while k + 1 < |list| && list[k + 1] < b
      invariant k < |list| && list[k] < b
    {
      k := k + 1;
    }
    assert k + 1 < |list| ==> list[k + 1] in list;
  }

  lemma {:induction false} NoneBetween(mem: Mem, list: seq<nat>, base: nat, k: nat, b: nat)
    requires Coalesced(mem, list, base) && Follows(list, k, b)
    ensures forall x :: x in list ==> !(list[k] < x < b)
  {
    forall i | 0 <= i < |list| ensures !(list[k] < list[i] < b) {
      assert i < k ==> list[i] < list[k];
      assert i > k + 1 ==> list[k + 1] < list[i];
    }
  }

  function Distance(i: nat, k: nat, n: nat): nat
    requires i < n && k < n
  {
    if i <= k then k - i else n - i + k
  }

  class Allocator {
    const base: nat
    var mem: Mem
    var freep: nat // zero before the first call
    var brk: nat
    var calls: nat // of morecore
    ghost var list: seq<nat>
    ghost var live: set<nat>
    ghost var cover: map<nat, nat>

    ghost function Now(): Heap
      reads this
    {
      Heap(mem, list, live, cover)
    }

    ghost predicate Valid()
      reads this
    {
      && 0 < base < brk
      && if freep == 0 then list == [] && live == {} && cover == map[]
         else HeapOk(Now(), base) && freep in list && forall x :: x in cover ==> base < x < brk
    }

    constructor (base: nat, brk: nat)
      requires 0 < base < brk
      ensures Valid() && freep == 0 && calls == 0
    {
      this.base, this.brk, mem, freep, calls := base, brk, map[], 0, 0;
      list, live, cover := [], {}, map[];
    }

    /** The loop of free: the free block after which bp belongs. */
    method Seek(bp: nat) returns (p: nat, ghost k: nat)
      requires Valid() && freep != 0 && bp in live
      ensures Follows(list, k, bp) && PointsOn(mem, list, k) && p == list[k]
      ensures p in list && p < bp && forall x :: x in list ==> !(p < x < bp)
    {
      hide Partition, Coalesced, Circular;
      k := Predecessor(mem, list, base, bp);
      ghost var i :| 0 <= i < |list| && list[i] == freep;
      p := freep;
      Pointed(mem, list, i);
      StopsExactly(mem, list, base, k, bp, i);
      while !(bp > p && bp < mem[p].ptr)
        invariant i < |list| && p == list[i] && PointsOn(mem, list, i)
        invariant Stops(list, i, bp) <==> i == k
        decreases Distance(i, k, |list|)
      {
        if p >= mem[p].ptr && (bp > p || bp < mem[p].ptr) {
          break;
        }
        p := mem[p].ptr;
        i := if i + 1 < |list| then i + 1 else 0;
        Pointed(mem, list, i);
        StopsExactly(mem, list, base, k, bp, i);
      }
      NoneBetween(mem, list, base, k, bp);
    }

    /** free: the block joins the list, merged with the neighbours that it touches. */
    method Free(bp: nat)
      requires Valid() && freep != 0 && bp in live
      modifies `mem, `freep, `list, `live, `cover
      ensures Valid() && freep != 0 && live == old(live) - {bp} && cover.Keys == old(cover).Keys
      ensures forall b :: b in live ==> Size(mem, b) == Size(old(mem), b)
      ensures freep in mem && (Size(mem, freep) >= Size(old(mem), bp) || Size(mem, mem[freep].ptr) >= Size(old(mem), bp))
    {
      hide HeapOk, Freed;
      var p;
      ghost var k;
      p, k := Seek(bp);
      ghost var h := Now();
      Listed(h, base, k);
      FreedOk(h, base, k, bp);
      FreedSizes(h, base, k, bp);
      FreedMem(h, base, k, bp);
      var q := mem[p].ptr;
      if bp + mem[bp].size == q {
        mem := mem[bp := Header(mem[q].ptr, mem[bp].size + mem[q].size)];
      } else {
        mem := mem[bp := mem[bp].(ptr := q)];
      }
      if p + mem[p].size == bp {
        mem := mem[p := Header(mem[bp].ptr, mem[p].size + mem[bp].size)];
      } else {
        mem := mem[p := mem[p].(ptr := bp)];
      }
      freep := p;
      assert mem == JoinLower(JoinUpper(h.mem, p, bp), p, bp);
      ghost var g := Freed(h, k, bp);
      list, live, cover := g.list, g.live, g.cover;
    }

    /** morecore: at least 4096 units from sbrk join the list; zero when sbrk refuses. */
    method Morecore(nunits: nat, answer: Answer) returns (bad: bool, p: nat)
      requires Valid() && freep != 0 && nunits > 0
      modifies `mem, `freep, `brk, `calls, `list, `live, `cover
      ensures Valid() && freep != 0 && calls == old(calls) + 1 && live == old(live)
      ensures bad <==> SbrkBytes(Core(nunits)) != 8 * Core(nunits)
      ensures bad || answer.Denied? ==> p == 0 && Now() == old(Now()) && freep == old(freep) && brk == old(brk)
      ensures !bad && answer.Granted? ==>
        && p == freep && brk == old(brk) + answer.gap + Core(nunits) && freep in mem
        && cover.Keys == old(cover).Keys + Region(old(brk) + answer.gap, Core(nunits)).Keys
        && exists b :: b in list && Size(mem, b) >= nunits
      ensures forall b :: b in live ==> Size(mem, b) == Size(old(mem), b)
    {
      hide HeapOk, Region;
      var nu := if nunits < 4096 then 4096 else nunits;
      calls := calls + 1;
      bad, p := false, 0;
      if SbrkBytes(nu) != 8 * nu {
        bad := true;
      } else if answer.Granted? {
        var hp := brk + answer.gap;
        Beyond(Now(), base, brk, hp);
        AddBlockOk(Now(), base, hp, nu, Size(mem, hp));
        mem := mem[hp := Header(Size(mem, hp), nu)];
        brk := hp + nu;
        live, cover := live + {hp}, cover + Region(hp, nu);
        Free(hp);
        NextListed(Now(), base, freep);
        p := freep;
      }
    }

    /** One round of malloc's loop, from the block after freep to freep itself: the first that is large enough. */
    method Scan(nunits: nat) returns (found: bool, prevp: nat, p: nat, ghost k: nat, ghost f: nat, ghost t: nat)
      requires Valid() && freep != 0 && nunits > 0
      ensures f < |list| && t < |list| && list[f] == freep && k == Turn(f, t, |list|)
      ensures forall s :: 1 <= s <= t ==> Size(mem, list[Turn(f, s, |list|)]) < nunits
      ensures found ==> k + 1 < |list| && prevp == list[k] && p == list[k + 1] && p in mem && prevp in mem && mem[p].size >= nunits
      ensures !found ==> forall b :: b in list ==> Size(mem, b) < nunits
    {
      hide Partition, Coalesced, Circular, Turn, LiveOk, Next;
      f :| 0 <= f < |list| && list[f] == freep;
      ghost var n := |list|;
      t := 0;
      prevp := freep;
      k := f;
      TurnNone(mem, list, base, f);
      p := mem[prevp].ptr;
      while true
        invariant t < n && k == Turn(f, t, n) < n && prevp == list[k] && p == Next(list, k) && p in mem && prevp in mem
        invariant forall s :: 1 <= s <= t ==> Size(mem, list[Turn(f, s, n)]) < nunits
        decreases n - t
      {
        if mem[p].size >= nunits {
          Inside(mem, list, base, k);
          return true, prevp, p, k, f, t;
        }
        TurnOn(mem, list, base, f, t);
        if p == freep {
          AllTurns(mem, list, f, t, nunits);
          return false, prevp, p, k, f, t;
        }
        t := t + 1;
        k := Turn(f, t, n);
        prevp, p := p, mem[p].ptr;
      }
    }

    /** malloc takes a free block, or the end of one. */
    method Take(prevp: nat, p: nat, nunits: nat, ghost k: nat) returns (header: nat)
      requires Valid() && freep != 0 && nunits > 0
      requires k + 1 < |list| && prevp == list[k] && p == list[k + 1] && p in mem && prevp in mem && mem[p].size >= nunits
      modifies `mem, `freep, `list, `live, `cover
      ensures Valid() && freep == prevp && header !in old(live) && live == old(live) + {header} && Size(mem, header) == nunits
      ensures cover.Keys == old(cover).Keys
      ensures forall b :: b in old(live) ==> Size(mem, b) == Size(old(mem), b)
    {
      hide HeapOk, TakeWhole, TakeTail;
      header := p;
      ghost var h := Now();
      Listed(h, base, k + 1);
      if mem[p].size == nunits {
        TakeWholeOk(h, base, k);
        ghost var g := TakeWhole(h, k);
        TakeWholeIs(h, k);
        mem := mem[prevp := mem[prevp].(ptr := mem[p].ptr)];
        list, live := g.list, g.live;
      } else {
        header := p + mem[p].size - nunits;
        ghost var junk := if header in mem then mem[header].ptr else 0;
        TakeTailOk(h, base, k + 1, nunits, junk);
        TakeTailIs(h, k + 1, nunits, junk);
        mem := mem[p := mem[p].(size := mem[p].size - nunits)];
        mem := mem[header := Header(if header in mem then mem[header].ptr else 0, nunits)];
        ghost var g := TakeTail(h, k + 1, nunits, junk);
        live, cover := g.live, g.cover;
      }
      freep := prevp;
    }

    /** malloc: a block of the units asked for, from the first large enough or from more core. */
    method Malloc(nbytes: nat, answer: Answer) returns (r: Outcome)
      requires Valid() && nbytes < U32
      modifies this
      ensures Valid() && freep != 0 && calls <= old(calls) + 1
      ensures calls == old(calls) <==> exists b :: b in old(list) && Size(old(mem), b) >= Units(nbytes)
      ensures r.Null? <==> calls > old(calls) && answer.Denied? && !r.BadSbrk?
      ensures r.BadSbrk? <==> calls > old(calls) && Core(Units(nbytes)) >= 0x1000_0000
      ensures r.Block? ==>
        && r.header !in old(live) && live == old(live) + {r.header} && Size(mem, r.header) == Units(nbytes)
      ensures !r.Block? ==> live == old(live) && cover == old(cover)
      ensures forall b :: b in old(live) ==> Size(mem, b) == Size(old(mem), b)
      ensures cover.Keys == old(cover).Keys
        + if r.Block? && calls > old(calls) then Region(old(brk) + answer.gap, Core(Units(nbytes))).Keys else {}
    {
      hide HeapOk, Region;
      var nunits := Units(nbytes);
      if freep == 0 {
        mem := mem[base := Header(base, 0)];
        freep := base;
        list := [base];
        OneElement(Now(), base);
      }
      ghost var h := Now();
      var found, prevp, p;
      ghost var k, f, t;
      found, prevp, p, k, f, t := Scan(nunits);
      assert found ==> p in h.list && h == old(Now());
      if !found {
        var bad;
        bad, p := Morecore(nunits, answer);
        if bad {
          return BadSbrk;
        }
        if p == 0 {
          return Null;
        }
        found, prevp, p, k, f, t := Scan(nunits);
      }
      var header := Take(prevp, p, nunits, k);
      return Block(header);
    }
  }

  /** The units that morecore asks for. */
  function Core(nunits: nat): nat {
    if nunits < 4096 then 4096 else nunits
  }

  /** s places on from f in a circle of n. */
  function Turn(f: nat, s: nat, n: nat): (r: nat)
    requires f < n && s <= n
    ensures r < n
  {
    if f + s < n then f + s else f + s - n
  }

  lemma {:induction false} TurnNone(mem: Mem, list: seq<nat>, base: nat, f: nat)
    requires ListOk(mem, list, base) && f < |list|
    ensures Turn(f, 0, |list|) == f && list[f] in mem && mem[list[f]].ptr == Next(list, f) && Next(list, f) in mem
  {
    hide Coalesced;
    ListParts(mem, list, base);
    Pointed(mem, list, f);
  }

  /** The next place of the circle; the walk is back at its start after n places. */
  lemma {:induction false} TurnOn(mem: Mem, list: seq<nat>, base: nat, f: nat, t: nat)
    requires ListOk(mem, list, base) && f < |list| && t < |list|
    ensures var n := |list|; var k, l := Turn(f, t, n), Turn(f, t + 1, n);
      && k < n && l < n && Next(list, k) == list[l] && (list[l] == list[f] <==> t + 1 == n)
      && list[l] in mem && mem[list[l]].ptr == Next(list, l) && Next(list, l) in mem
      && forall i, j :: 0 <= i < j < n ==> list[i] < list[j]
  {
    hide Coalesced;
    ListParts(mem, list, base);
    Pointed(mem, list, Turn(f, t + 1, |list|));
  }

  /** Only base follows the last block, and base is empty. */
  lemma {:induction false} Inside(mem: Mem, list: seq<nat>, base: nat, k: nat)
    requires ListOk(mem, list, base) && k < |list| && Size(mem, Next(list, k)) > 0
    ensures k + 1 < |list| && Next(list, k) == list[k + 1]
  {
  }

  lemma {:induction false} Listed(h: Heap, base: nat, k: nat)
    requires HeapOk(h, base) && k < |h.list|
    ensures forall i :: 0 <= i < |h.list| ==> h.list[i] in h.mem && h.list[i] >= base
    ensures forall b :: b in h.live ==> b in h.mem
  {
    ListParts(h.mem, h.list, base);
  }

  lemma {:induction false} TakeWholeIs(h: Heap, k: nat)
    requires k + 1 < |h.list| && h.list[k] in h.mem && h.list[k + 1] in h.mem
    ensures var g := TakeWhole(h, k); var p, q := h.list[k], h.list[k + 1];
      g.mem == h.mem[p := h.mem[p].(ptr := h.mem[q].ptr)] && g.live == h.live + {q} && g.cover == h.cover
  {
  }

  lemma {:induction false} TakeTailIs(h: Heap, k: nat, n: nat, junk: nat)
    requires k < |h.list| && h.list[k] in h.mem && 0 < n < h.mem[h.list[k]].size
    ensures var g := TakeTail(h, k, n, junk); var p := h.list[k]; var rest := h.mem[p].size - n;
      && g.mem == h.mem[p := h.mem[p].(size := rest)][p + rest := Header(junk, n)]
      && g.live == h.live + {p + rest} && g.list == h.list
  {
  }

  lemma {:induction false} AllTurns(mem: Mem, list: seq<nat>, f: nat, t: nat, nunits: nat)
    requires f < |list| && t < |list| && forall s :: 1 <= s <= t ==> Size(mem, list[Turn(f, s, |list|)]) < nunits
    requires Next(list, Turn(f, t, |list|)) == list[f] && Size(mem, list[f]) < nunits
    requires forall i, j :: 0 <= i < j < |list| ==> list[i] < list[j]
    ensures forall b :: b in list ==> Size(mem, b) < nunits
  {
    var n := |list|;
    assert t + 1 == n;
    forall i | 0 <= i < n ensures Size(mem, list[i]) < nunits {
      if i != f {
        var s := if i > f then i - f else n - f + i;
        assert Turn(f, s, n) == i;
      }
    }
  }

  lemma {:induction false} NextListed(h: Heap, base: nat, p: nat)
    requires HeapOk(h, base) && p in h.list && p in h.mem
    ensures h.mem[p].ptr in h.list
  {
    var i :| 0 <= i < |h.list| && h.list[i] == p;
    Pointed(h.mem, h.list, i);
  }

  lemma {:induction false} OneElement(h: Heap, base: nat)
    requires h.list == [base] && h.live == {} && h.cover == map[] && base in h.mem && h.mem[base] == Header(base, 0)
    ensures HeapOk(h, base)
  {
    assert PointsOn(h.mem, h.list, 0);
  }
}
