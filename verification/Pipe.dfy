/**
 pipe.c: a ring of 512 bytes with 32-bit counters that wrap around. The methods
 are the stretches that run with the pipe's lock held, from one sleep to the
 next; readers and writers interleave between them in any order. `written` and
 `taken` are the bytes stored and read since the pipe was made.
 */
module Pipe {
  import opened Params
  import opened Bytes

  const PIPESIZE: nat := 512

  /** A count in 32 bits. */
  function Low(x: nat): (r: nat)
    ensures r < U32
  {
    x % U32
  }

  /** Where a byte of that count is stored. */
  function Slot(x: nat): (r: nat)
    ensures r < PIPESIZE
  {
    x % PIPESIZE
  }

  /** How a stretch under the lock ends: the call returns, returns -1, or sleeps and goes on later. */
  datatype Ending = Done | Failed | Sleeps

  class Pipe {
    const data: array<Byte>
    var nread: nat
    var nwrite: nat
    var readopen: bool
    var writeopen: bool
    ghost var written: seq<Byte>
    ghost var taken: seq<Byte>

    ghost predicate Valid()
      reads this, data
    {
      && data.Length == PIPESIZE
      && nread == Low(|taken|) && nwrite == Low(|written|)
      && |taken| <= |written| <= |taken| + PIPESIZE
      && taken == written[..|taken|]
      && forall t :: |taken| <= t < |written| ==> data[Slot(t)] == written[t]
    }

    constructor ()
      ensures Valid() && written == [] && taken == [] && readopen && writeopen
    {
      data := new Byte[PIPESIZE](_ => 0);
      nread, nwrite, readopen, writeopen, written, taken := 0, 0, true, true, [], [];
    }

    /** The copy loop of pipewrite, from byte i on, up to the end or to a full ring. */
    method Fill(src: seq<Byte>, i: nat) returns (j: nat)
      requires Valid() && i <= |src|
      modifies `nwrite, `written, data
      ensures Valid() && i <= j <= |src| && written == old(written) + src[i..j]
      ensures j < |src| ==> |written| == |taken| + PIPESIZE
    {
      hide Low, Slot;
      j := i;
      Wraps(|taken|, |written|);
      while j < |src| && nwrite != Low(nread + PIPESIZE)
        invariant i <= j <= |src| && Valid() && written == old(written) + src[i..j]
        invariant nwrite == Low(nread + PIPESIZE) <==> |written| == |taken| + PIPESIZE
      {
        PutByte(src[j]);
        Wraps(|taken|, |written|);
        j := j + 1;
      }
    }

    /** pipewrite from byte i on, up to its return or the next sleep. */
    method WriteSome(src: seq<Byte>, i: nat, killed: bool) returns (j: nat, end: Ending)
      requires Valid() && i <= |src|
      modifies `nwrite, `written, data
      ensures Valid() && i <= j <= |src| && written == old(written) + src[i..j]
      ensures j < |src| ==> |written| == |taken| + PIPESIZE
      ensures end == if j == |src| then Done else if !readopen || killed then Failed else Sleeps
    {
      j := Fill(src, i);
      end := if j == |src| then Done else if !readopen || killed then Failed else Sleeps;
    }

    method PutByte(c: Byte)
      requires Valid() && |written| < |taken| + PIPESIZE
      modifies `nwrite, `written, data
      ensures Valid() && written == old(written) + [c]
    {
      hide Low, Slot;
      Wraps(|taken|, |written|);
      RingSlots(|taken|, |written|);
      NextCount(|written|);
      data[Slot(nwrite)] := c;
      nwrite := Low(nwrite + 1);
      written := written + [c];
    }

    /** piperead: it waits while the ring is empty and a writer is left, and then takes what is there. */
    method ReadSome(n: nat, killed: bool) returns (dst: seq<Byte>, end: Ending)
      requires Valid()
      modifies `nread, `taken
      ensures Valid() && taken == old(taken) + dst
      ensures end == if |old(taken)| < |written| || !writeopen then Done else if killed then Failed else Sleeps
      ensures |dst| == if |written| - |old(taken)| < n then |written| - |old(taken)| else n
    {
      hide Low, Slot;
      dst := [];
      Wraps(|taken|, |written|);
      if nread == nwrite && writeopen {
        return [], if killed then Failed else Sleeps;
      }
      end := Done;
      while |dst| < n && nread != nwrite
        invariant |dst| <= n && Valid() && taken == old(taken) + dst
        invariant nread == nwrite <==> |taken| == |written|
        decreases |written| - |taken|
      {
        NextCount(|taken|);
        dst := dst + [data[Slot(nread)]];
        taken := taken + [data[Slot(nread)]];
        nread := Low(nread + 1);
        Wraps(|taken|, |written|);
      }
    }

    /** pipeclose; true when the pipe is freed. */
    method Close(writable: bool) returns (freed: bool)
      requires Valid()
      modifies `readopen, `writeopen
      ensures Valid() && writeopen == (old(writeopen) && !writable) && readopen == (old(readopen) && writable)
      ensures freed <==> !readopen && !writeopen
    {
      if writable {
        writeopen := false;
      } else {
        readopen := false;
      }
      freed := !readopen && !writeopen;
    }
  }

  /** The counters tell full and empty apart, also after they have wrapped around. */
  lemma {:induction false} Wraps(r: nat, w: nat)
    requires r <= w <= r + PIPESIZE
    ensures Low(w) == Low(Low(r) + PIPESIZE) <==> w == r + PIPESIZE
    ensures Low(r) == Low(w) <==> r == w
    ensures Slot(Low(w)) == Slot(w) && Slot(Low(r)) == Slot(r)
  {
    assert w == w / U32 * U32 + w % U32 && r == r / U32 * U32 + r % U32;
    SameSlot(w);
    SameSlot(r);
  }

  /** The ring size divides the range of the counters. */
  lemma {:induction false} SameSlot(x: nat)
    ensures Slot(Low(x)) == Slot(x)
  {
    var q, m := x / U32, x % U32;
    assert x == (q * 0x80_0000 + m / PIPESIZE) * PIPESIZE + m % PIPESIZE;
  }

  lemma {:induction false} NextCount(x: nat)
    ensures Low(Low(x) + 1) == Low(x + 1) && Slot(Low(x)) == Slot(x)
  {
    SameSlot(x);
  }

  /** Unread bytes and the next one to come have different places. */
  lemma {:induction false} RingSlots(r: nat, w: nat)
    requires r <= w < r + PIPESIZE
    ensures forall t :: r <= t < w ==> Slot(t) != Slot(w)
  {
  }
}
