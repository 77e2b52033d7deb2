/** The process table of proc.c: wakeup1, and the choice of the next process from the three queues. */
module Sched {
  import opened Params
  import opened Sets

  datatype ProcState = Unused | Embryo | Sleeping | Runnable | Running | Zombie

  const PRIORITY: int := 0
  const SJF: int := 1
  const LOTTERY: int := 2

  datatype Proc = Proc(state: ProcState, chan: nat, queue: int, tickets: int, priority: int, burst: int)

  predicate In(p: Proc, queue: int) {
    p.state == Runnable && p.queue == queue
  }

  // ------------------------------------------------------ the lottery

  /** Tickets of the lottery processes before place n. */
  function Tickets(table: seq<Proc>, n: nat): int
    requires n <= |table|
  {
    if n == 0 then 0 else Tickets(table, n - 1) + if In(table[n - 1], LOTTERY) then table[n - 1].tickets else 0
  }

  ghost predicate Fair(table: seq<Proc>) {
    forall i :: 0 <= i < |table| ==> table[i].tickets >= 0
  }

  lemma {:induction false} TicketsGrow(table: seq<Proc>, m: nat, n: nat)
    requires Fair(table) && m <= n <= |table|
    ensures 0 <= Tickets(table, m) <= Tickets(table, n)
    decreases n
  {
    if m < n {
      TicketsGrow(table, m, n - 1);
    } else if n > 0 {
      TicketsGrow(table, m - 1, n - 1);
    }
  }

  /** Process i holds the winning ticket of draw r: the first whose tickets, with all before it, reach r. */
  ghost predicate Wins(table: seq<Proc>, r: int, i: nat) {
    && i < |table| && In(table[i], LOTTERY) && r <= Tickets(table, i + 1)
    && forall j :: 0 <= j < i && In(table[j], LOTTERY) ==> Tickets(table, j + 1) < r
  }

  ghost predicate FirstIn(table: seq<Proc>, i: nat, queue: int) {
    i < |table| && In(table[i], queue) && forall j :: 0 <= j < i ==> !In(table[j], queue)
  }

  /** Conversion of an unsigned to a signed 32-bit number. */
  function Signed(x: nat): int {
    if x < U32 / 2 then x else x - U32
  }

  /** The unsigned number that generate_random divides. */
  function Number(ticks: nat): nat {
    (12345678 + ticks * ticks * ticks * ticks) % U32
  }

  /** One more than the tickets in the lottery, converted to the unsigned divisor. */
  function Divisor(table: seq<Proc>): nat {
    (1 + Tickets(table, |table|)) % U32
  }

  function Draw(table: seq<Proc>, ticks: nat): int
    requires Divisor(table) != 0
  {
    Signed(Number(ticks) % Divisor(table))
  }

  /** What lotterySched promises: the holder of the drawn ticket, or the first in the queue when the draw is out of reach. */
  ghost predicate Drawn(table: seq<Proc>, r: int, i: nat) {
    if exists j: nat :: Wins(table, r, j) then Wins(table, r, i) else FirstIn(table, i, LOTTERY)
  }

  /** lotterySched; the result -1 is no process, and -2 the divide error when the tickets come to one short of 0. */
  method LotterySched(table: seq<Proc>, ticks: nat) returns (chosen: int)
    ensures chosen == -2 <==> Divisor(table) == 0
    ensures chosen == -1 <==> Divisor(table) != 0 && forall i :: 0 <= i < |table| ==> !In(table[i], LOTTERY)
    ensures chosen >= -2
    ensures chosen >= 0 ==> Drawn(table, Draw(table, ticks), chosen)
  {
    hide Number, Signed;
    var sum := 1;
    var p := 0;
    while p < |table|
      invariant 0 <= p <= |table| && sum == 1 + Tickets(table, p)
    {
      if In(table[p], LOTTERY) {
        sum := sum + table[p].tickets;
      }
      p := p + 1;
    }
    if sum % U32 == 0 {
      return -2;
    }
    var draw := Signed(Number(ticks) % (sum % U32));
    var random := draw;
    var selected := 0;
    chosen := -1;
    p := 0;
    while p < |table|
      invariant 0 <= p <= |table| && random == draw - Tickets(table, p)
      invariant selected == 0 <==> forall i :: 0 <= i < p ==> !In(table[i], LOTTERY)
      invariant selected == 0 ==> chosen == -1
      invariant selected != 0 ==> 0 <= chosen < p && In(table[chosen], LOTTERY)
      invariant selected == 1 ==> FirstIn(table, chosen, LOTTERY)
      invariant selected == 1 ==> forall i :: 0 <= i < p && In(table[i], LOTTERY) ==> Tickets(table, i + 1) < draw
      invariant selected == 2 ==> Wins(table, draw, chosen)
      invariant 0 <= selected <= 2
    {
      if In(table[p], LOTTERY) {
        random := random - table[p].tickets;
        if selected == 0 {
          chosen := p;
          selected := 1;
        }
        if random <= 0 && selected == 1 {
          chosen := p;
          selected := 2;
        }
      }
      p := p + 1;
    }
  }

  /** With no negative tickets, and few enough for an int, the draw is a ticket that somebody holds. */
  lemma {:induction false} FairDraw(table: seq<Proc>, ticks: nat, i: nat)
    requires Fair(table) && Tickets(table, |table|) + 1 < U32 / 2 && i < |table| && In(table[i], LOTTERY)
    ensures Divisor(table) == Tickets(table, |table|) + 1 != 0
    ensures 0 <= Draw(table, ticks) <= Tickets(table, |table|)
    ensures exists j: nat :: Wins(table, Draw(table, ticks), j)
  {
    TicketsGrow(table, 0, |table|);
    var r := Draw(table, ticks);
    LastReaches(table, i, |table|);
    var j :| 0 <= j < |table| && In(table[j], LOTTERY) && r <= Tickets(table, j + 1);
    var w := FirstReach(table, r, j);
  }

  lemma {:induction false} FirstReach(table: seq<Proc>, r: int, j: nat) returns (w: nat)
    requires j < |table| && In(table[j], LOTTERY) && r <= Tickets(table, j + 1)
    ensures Wins(table, r, w)
    decreases j
  {
    if i: nat :| i < j && In(table[i], LOTTERY) && r <= Tickets(table, i + 1) {
      w := FirstReach(table, r, i);
    } else {
      w := j;
    }
  }

  /** The last lottery process reaches the total. */
  lemma {:induction false} LastReaches(table: seq<Proc>, i: nat, n: nat)
    requires i < n <= |table| && In(table[i], LOTTERY)
    ensures exists j :: 0 <= j < n && In(table[j], LOTTERY) && Tickets(table, j + 1) == Tickets(table, n)
    decreases n
  {
    if !In(table[n - 1], LOTTERY) {
      LastReaches(table, i, n - 1);
    }
  }

  lemma {:induction false} WinnerUnique(table: seq<Proc>, r: int, i: nat, j: nat)
    requires Wins(table, r, i) && Wins(table, r, j)
    ensures i == j
  {
  }

  /** The draws from 0 to the total that process i wins. */
  ghost function Draws(table: seq<Proc>, i: nat): set<nat> {
    set r: nat | r <= Tickets(table, |table|) && Wins(table, r, i)
  }

  lemma {:induction false} NoneBefore(table: seq<Proc>, i: nat)
    requires i <= |table| && forall j :: 0 <= j < i ==> !In(table[j], LOTTERY)
    ensures Tickets(table, i) == 0
  {
    if i > 0 {
      NoneBefore(table, i - 1);
    }
  }

  /** Every lottery process wins as many draws as it has tickets; the first in the table wins one more. */
  lemma {:induction false} ShareExactly(table: seq<Proc>, i: nat)
    requires Fair(table) && i < |table| && In(table[i], LOTTERY)
    ensures |Draws(table, i)| == table[i].tickets + if FirstIn(table, i, LOTTERY) then 1 else 0
  {
    var lo, hi := Tickets(table, i), Tickets(table, i + 1);
    TicketsGrow(table, 0, i);
    TicketsGrow(table, i + 1, |table|);
    if FirstIn(table, i, LOTTERY) {
      NoneBefore(table, i);
      assert Draws(table, i) == Interval(0, hi + 1);
    } else {
      EarlierReaches(table, i);
      forall r: nat ensures r in Draws(table, i) <==> lo + 1 <= r < hi + 1 {
        forall j | 0 <= j < i && In(table[j], LOTTERY) ensures Tickets(table, j + 1) <= lo {
          TicketsGrow(table, j + 1, i);
        }
      }
      assert Draws(table, i) == Interval(lo + 1, hi + 1);
    }
  }

  lemma {:induction false} EarlierReaches(table: seq<Proc>, i: nat)
    requires i < |table| && In(table[i], LOTTERY) && !FirstIn(table, i, LOTTERY)
    ensures exists j :: 0 <= j < i && In(table[j], LOTTERY) && Tickets(table, j + 1) == Tickets(table, i)
  {
    var j :| 0 <= j < i && In(table[j], LOTTERY);
    LastReaches(table, j, i);
  }

  // ------------------------------------------------------ the other queues

  /** i is the first process of the queue with the smallest key. */
  ghost predicate FirstLeast(table: seq<Proc>, queue: int, key: Proc -> int, i: nat) {
    && i < |table| && In(table[i], queue)
    && (forall j :: 0 <= j < |table| && In(table[j], queue) ==> key(table[i]) <= key(table[j]))
    && (forall j :: 0 <= j < i && In(table[j], queue) ==> key(table[i]) < key(table[j]))
  }

  method PrioritySched(table: seq<Proc>) returns (chosen: int)
    ensures chosen == -1 <==> forall i :: 0 <= i < |table| ==> !In(table[i], PRIORITY)
    ensures chosen != -1 ==> 0 <= chosen && FirstLeast(table, PRIORITY, (p: Proc) => p.priority, chosen)
  {
    chosen := -1;
    var p := 0;
    while p < |table|
      invariant 0 <= p <= |table| && -1 <= chosen < p
      invariant chosen == -1 <==> forall i :: 0 <= i < p ==> !In(table[i], PRIORITY)
      invariant chosen != -1 ==> FirstLeast(table[..p], PRIORITY, (p: Proc) => p.priority, chosen)
    {
      if In(table[p], PRIORITY) {
        if chosen == -1 {
          chosen := p;
        }
        if table[chosen].priority > table[p].priority {
          chosen := p;
        }
      }
      p := p + 1;
    }
    assert table[..p] == table;
  }

  method SjfSched(table: seq<Proc>) returns (chosen: int)
    ensures chosen == -1 <==> forall i :: 0 <= i < |table| ==> !In(table[i], SJF)
    ensures chosen != -1 ==> 0 <= chosen && FirstLeast(table, SJF, (p: Proc) => p.burst, chosen)
  {
    chosen := -1;
    var p := 0;
    while p < |table|
      invariant 0 <= p <= |table| && -1 <= chosen < p
      invariant chosen == -1 <==> forall i :: 0 <= i < p ==> !In(table[i], SJF)
      invariant chosen != -1 ==> FirstLeast(table[..p], SJF, (p: Proc) => p.burst, chosen)
    {
      if In(table[p], SJF) {
        if chosen == -1 {
          chosen := p;
        }
        if table[chosen].burst > table[p].burst {
          chosen := p;
        }
      }
      p := p + 1;
    }
    assert table[..p] == table;
  }

  /** scheduler: a later queue is used only when the earlier ones are empty; -2 is the divide error of the lottery. */
  method Choose(table: seq<Proc>, ticks: nat) returns (chosen: int)
    ensures chosen == -2 <==> Divisor(table) == 0
    ensures chosen == -1 <==> (
      && Divisor(table) != 0
      && forall i :: 0 <= i < |table| && table[i].state == Runnable ==> table[i].queue !in {PRIORITY, SJF, LOTTERY})
    ensures -2 <= chosen < |table|
    ensures chosen >= 0 ==>
      if exists i :: 0 <= i < |table| && In(table[i], LOTTERY) then Drawn(table, Draw(table, ticks), chosen)
      else if exists i :: 0 <= i < |table| && In(table[i], SJF) then FirstLeast(table, SJF, (p: Proc) => p.burst, chosen)
      else FirstLeast(table, PRIORITY, (p: Proc) => p.priority, chosen)
  {
    chosen := LotterySched(table, ticks);
    if chosen == -1 {
      chosen := SjfSched(table);
    }
    if chosen == -1 {
      chosen := PrioritySched(table);
    }
  }

  // ------------------------------------------------------ wakeup1

  /** wakeup1: exactly the processes sleeping on the channel become runnable. */
  method Wakeup1(table: array<Proc>, chan: nat)
    modifies table
    ensures forall i :: 0 <= i < table.Length ==>
      table[i] == if old(table[i]).state == Sleeping && old(table[i]).chan == chan then old(table[i]).(state := Runnable) else old(table[i])
  {
    var p := 0;
    while p < table.Length
      invariant 0 <= p <= table.Length
      invariant forall i :: p <= i < table.Length ==> table[i] == old(table[i])
      invariant forall i :: 0 <= i < p ==>
        table[i] == if old(table[i]).state == Sleeping && old(table[i]).chan == chan then old(table[i]).(state := Runnable) else old(table[i])
    {
      if table[p].state == Sleeping && table[p].chan == chan {
        table[p] := table[p].(state := Runnable);
      }
      p := p + 1;
    }
  }
}
