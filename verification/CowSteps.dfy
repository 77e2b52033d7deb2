/**
 What each kind of change does to the clauses of the invariant, part by part.
 */
module CowParts {
  import opened CowMachine
  import opened CowInvariant

  // ------------------------------------------------------------ accounting

  lemma {:induction false} AccountTake(free: seq<nat>, rc: seq<int>, counted: map<Key, nat>, use: seq<Use>, u: Use)
    requires Account(free, rc, counted, use) && |free| > 0 && (u == Kernel || u.Held?)
    ensures free[0] < |use| && use[free[0]] == Free
    ensures Account(free[1..], rc, counted, use[free[0] := u])
  {
    var use' := use[free[0] := u];
    forall f | 0 <= f < |use'| && use'[f] == Free ensures f in free[1..] {
      assert f in free && free == [free[0]] + free[1..];
    }
  }

  lemma {:induction false} AccountGive(free: seq<nat>, rc: seq<int>, counted: map<Key, nat>, use: seq<Use>, f: nat)
    requires Account(free, rc, counted, use) && f < |use| && use[f] == Kernel
    ensures Account([f] + free, rc, counted, use[f := Free])
  {
  }

  /** A held frame gets its first reference. */
  lemma {:induction false} AccountAdd(free: seq<nat>, rc: seq<int>, counted: map<Key, nat>, use: seq<Use>, k: Key, f: nat)
    requires Account(free, rc, counted, use) && f < |use| && use[f].Held? && k !in counted
    ensures Account(free, rc[f := ToChar(rc[f] + 1)], counted[k := f], use[f := User])
  {
    RefsEmpty(counted, use, f);
    RefsAdd(counted, k, f);
  }

  lemma {:induction false} AccountLose(free: seq<nat>, rc: seq<int>, counted: map<Key, nat>, use: seq<Use>, f: nat)
    requires Account(free, rc, counted, use) && f < |use| && use[f].Held?
    ensures Account(free, rc[f := ToChar(rc[f] + 1)], counted, use[f := Lost])
  {
    RefsEmpty(counted, use, f);
  }

  lemma {:induction false} AccountShare(free: seq<nat>, rc: seq<int>, counted: map<Key, nat>, use: seq<Use>, k: Key, f: nat)
    requires Account(free, rc, counted, use) && f < |use| && use[f] == User && k !in counted
    requires |RefsOf(counted, f)| <= NPROC
    ensures Account(free, rc[f := ToChar(rc[f] + 1)], counted[k := f], use)
  {
    RefsAdd(counted, k, f);
  }

  /** A reference goes away; the last one frees the frame. */
  lemma {:induction false} AccountRemove(free: seq<nat>, rc: seq<int>, counted: map<Key, nat>, use: seq<Use>, k: Key)
    requires Account(free, rc, counted, use) && k in counted
    requires |RefsOf(counted, counted[k])| <= NPROC
    ensures var f := counted[k];
      var rc' := rc[f := ToChar(rc[f] - 1)];
      && f < |use| && use[f] == User
      && (if rc'[f] == 0 then Account([f] + free, rc', counted - {k}, use[f := Free])
          else Account(free, rc', counted - {k}, use))
    ensures rc[counted[k]] == 1 ==> forall k' :: k' in counted && counted[k'] == counted[k] ==> k' == k
    ensures ToChar(rc[counted[k]] - 1) == rc[counted[k]] - 1
  {
    var f := counted[k];
    RefsRemove(counted, k);
    forall k' | k' in counted && counted[k'] == f && rc[f] == 1 ensures k' == k {
      assert k' != k ==> k' in RefsOf(counted - {k}, f);
    }
  }

  /** A reference moves from a shared frame to a held one. */
  lemma {:induction false} AccountMove(free: seq<nat>, rc: seq<int>, counted: map<Key, nat>, use: seq<Use>, k: Key, g: nat)
    requires Account(free, rc, counted, use) && k in counted && g < |use| && use[g].Held?
    requires |RefsOf(counted, counted[k])| <= NPROC
    ensures var f := counted[k];
      && f < |use| && use[f] == User
      && var rc1 := rc[f := ToChar(rc[f] - 1)];
      var use1 := if rc1[f] == 0 then use[f := Leaked] else use;
      Account(free, rc1[g := ToChar(rc1[g] + 1)], counted[k := g], use1[g := User])
  {
    var f := counted[k];
    RefsEmpty(counted, use, g);
    RefsMove(counted, k, g);
    var counted' := counted[k := g];
    var rc1 := rc[f := ToChar(rc[f] - 1)];
    forall k' | k' in counted' && counted'[k'] == f ensures rc1[f] != 0 {
      assert k' in RefsOf(counted', f);
    }
  }

  // ------------------------------------------------------------ held frames

  lemma {:induction false} HeldPc(use: seq<Use>, pc: map<nat, Pc>, d: nat, c: Pc)
    requires HeldOk(use, pc) && d in pc && PcFrame(c) == PcFrame(pc[d])
    ensures HeldOk(use, pc[d := c])
  {
  }

  lemma {:induction false} HeldTake(use: seq<Use>, pc: map<nat, Pc>, d: nat, c: Pc, f: nat)
    requires HeldOk(use, pc) && d in pc && PcFrame(pc[d]) < 0 && PcFrame(c) == f
    requires f < |use| && !use[f].Held?
    ensures HeldOk(use[f := Held(d)], pc[d := c])
  {
  }

  lemma {:induction false} HeldDrop(use: seq<Use>, pc: map<nat, Pc>, d: nat, c: Pc, f: nat, u: Use)
    requires HeldOk(use, pc) && d in pc && PcFrame(pc[d]) == f && PcFrame(c) < 0 && !u.Held?
    ensures f < |use| && use[f] == Held(d)
    ensures HeldOk(use[f := u], pc[d := c])
  {
    assert pc[d] == pc[d];
    assert use[f] == Held(d);
  }

  lemma {:induction false} HeldUse(use: seq<Use>, pc: map<nat, Pc>, f: nat, u: Use)
    requires HeldOk(use, pc) && f < |use| && !use[f].Held? && !u.Held?
    ensures HeldOk(use[f := u], pc)
  {
  }

  lemma {:induction false} HeldNew(use: seq<Use>, pc: map<nat, Pc>, d: nat)
    requires HeldOk(use, pc) && d !in pc
    ensures HeldOk(use, pc[d := Idle])
  {
  }

  lemma {:induction false} HeldGone(use: seq<Use>, pc: map<nat, Pc>, d: nat)
    requires HeldOk(use, pc) && d in pc && PcFrame(pc[d]) < 0
    ensures HeldOk(use, pc - {d})
  {
  }

  // ------------------------------------------------------------ copies

  lemma {:induction false} CopyFrame(frames: seq<Page>, pc: map<nat, Pc>, f: nat, page: Page)
    requires CopyOk(frames, pc) && f < |frames|
    requires Idly(pc, f)
    ensures CopyOk(frames[f := page], pc)
  {
  }

  lemma {:induction false} CopyPc(frames: seq<Page>, pc: map<nat, Pc>, d: nat, c: Pc)
    requires CopyOk(frames, pc) && CopyAt(frames, c)
    ensures CopyOk(frames, pc[d := c])
  {
  }

  lemma {:induction false} CopyGone(frames: seq<Page>, pc: map<nat, Pc>, d: nat)
    requires CopyOk(frames, pc)
    ensures CopyOk(frames, pc - {d})
  {
  }

  // ------------------------------------------------------------ kernel pages

  lemma {:induction false} KernelUse(slot: map<nat, nat>, use: seq<Use>, f: nat, u: Use)
    requires KernelOk(slot, use) && f < |use| && use[f] != Kernel
    ensures KernelOk(slot, use[f := u])
  {
  }

  lemma {:induction false} KernelGive(slot: map<nat, nat>, use: seq<Use>, f: nat, u: Use)
    requires KernelOk(slot, use) && f < |use| && f !in slot
    ensures KernelOk(slot, use[f := u])
  {
  }

  lemma {:induction false} KernelNew(slot: map<nat, nat>, use: seq<Use>, e: nat, p: nat)
    requires KernelOk(slot, use) && e < |use| && use[e] == Kernel
    ensures KernelOk(slot[e := p], use) && KernelOk(slot - {e}, use)
  {
  }

  // ------------------------------------------------------------ directories

  lemma {:induction false} StaffPc(slot: map<nat, nat>, role: map<nat, Role>, pc: map<nat, Pc>, under: map<nat, nat>,
                                   procs: map<nat, nat>, d: nat, c: Pc)
    requires Staff(slot, role, pc, under, procs) && d in pc && DutyAt(role[d], c) && pc[d] != Building && c != Building
    ensures Staff(slot, role, pc[d := c], under, procs)
  {
    hide OwnerOk;
  }

  lemma {:induction false} DutyNew(slot: map<nat, nat>, role: map<nat, Role>, pc: map<nat, Pc>, under: map<nat, nat>,
                                   d: nat, e: nat, p: nat, r: Role)
    requires slot.Keys == role.Keys == pc.Keys && DutyOk(slot, role, pc, under)
    requires d in pc && pc[d].Idle? && role[d].Live? && e !in pc && (r == Child || (r == Staged && slot[d] == p))
    ensures slot[e := p].Keys == role[e := r].Keys == pc[d := Building][e := Idle].Keys
    ensures DutyOk(slot[e := p], role[e := r], pc[d := Building][e := Idle], under[e := d])
  {
  }

  lemma {:induction false} OwnerNew(slot: map<nat, nat>, role: map<nat, Role>, procs: map<nat, nat>, e: nat, p: nat, r: Role)
    requires slot.Keys == role.Keys && OwnerOk(slot, role, procs) && e !in role && p < NPROC
    requires (r == Child && forall d' :: d' in slot ==> slot[d'] != p)
          || (r == Staged && exists d :: d in role && role[d] == Live(p))
    ensures slot[e := p].Keys == role[e := r].Keys
    ensures OwnerOk(slot[e := p], role[e := r], procs)
  {
  }

  lemma {:induction false} DutyLeave(slot: map<nat, nat>, role: map<nat, Role>, pc: map<nat, Pc>, under: map<nat, nat>, e: nat, r: Role)
    requires slot.Keys == role.Keys == pc.Keys && DutyOk(slot, role, pc, under)
    requires e in under && pc[e].Idle? && r != Child && r != Staged
    ensures under[e] in pc && role[under[e]].Live? && (role[e].Staged? ==> slot[e] == slot[under[e]])
    ensures slot.Keys == role[e := r].Keys == pc[under[e] := Idle].Keys
    ensures DutyOk(slot, role[e := r], pc[under[e] := Idle], under - {e})
  {
  }

  lemma {:induction false} DutyRetire(slot: map<nat, nat>, role: map<nat, Role>, pc: map<nat, Pc>, under: map<nat, nat>, d: nat)
    requires slot.Keys == role.Keys == pc.Keys && DutyOk(slot, role, pc, under) && d in pc && pc[d].Idle? && role[d].Live?
    ensures slot.Keys == role[d := Dying].Keys && DutyOk(slot, role[d := Dying], pc, under)
  {
  }

  lemma {:induction false} DutyGone(slot: map<nat, nat>, role: map<nat, Role>, pc: map<nat, Pc>, under: map<nat, nat>, d: nat)
    requires slot.Keys == role.Keys == pc.Keys && DutyOk(slot, role, pc, under) && d in pc && pc[d].Idle? && role[d].Dying?
    ensures (slot - {d}).Keys == (role - {d}).Keys == (pc - {d}).Keys
    ensures DutyOk(slot - {d}, role - {d}, pc - {d}, under)
  {
  }

  /** A directory that no process runs in is given up. */
  lemma {:induction false} OwnerDie(slot: map<nat, nat>, role: map<nat, Role>, procs: map<nat, nat>, e: nat)
    requires slot.Keys == role.Keys && OwnerOk(slot, role, procs) && e in role && !role[e].Live?
    ensures slot.Keys == role[e := Dying].Keys && OwnerOk(slot, role[e := Dying], procs)
  {
  }

  lemma {:induction false} OwnerExit(slot: map<nat, nat>, role: map<nat, Role>, procs: map<nat, nat>, p: nat)
    requires slot.Keys == role.Keys && OwnerOk(slot, role, procs) && p in procs
    ensures procs[p] in role && role[procs[p]] == Live(p) && slot[procs[p]] == p
    ensures slot.Keys == role[procs[p] := Dying].Keys && OwnerOk(slot, role[procs[p] := Dying], procs - {p})
  {
  }

  lemma {:induction false} OwnerLive(slot: map<nat, nat>, role: map<nat, Role>, procs: map<nat, nat>, e: nat)
    requires slot.Keys == role.Keys && OwnerOk(slot, role, procs) && e in role && slot[e] !in procs
    requires forall c :: c in role && role[c].Child? && slot[c] == slot[e] ==> c == e
    ensures slot.Keys == role[e := Live(slot[e])].Keys && OwnerOk(slot, role[e := Live(slot[e])], procs[slot[e] := e])
  {
  }

  lemma {:induction false} OwnerGone(slot: map<nat, nat>, role: map<nat, Role>, procs: map<nat, nat>, d: nat)
    requires slot.Keys == role.Keys && OwnerOk(slot, role, procs) && d in role && role[d].Dying?
    ensures (slot - {d}).Keys == (role - {d}).Keys
    ensures OwnerOk(slot - {d}, role - {d}, procs)
  {
  }

  // ------------------------------------------------------------ flight

  lemma {:induction false} FlightPc(ptes: map<Key, Pte>, counted: map<Key, nat>, pc: map<nat, Pc>, d: nat, c: Pc)
    requires Flight(ptes, counted, pc) && d in pc && !pc[d].FaultDropped? && !c.FaultDropped?
    requires PcAt(ptes, counted, d, c)
    requires c.FaultAlone? ==> forall k :: k in counted && counted[k] == c.f ==> k == Key(d, c.v)
    ensures Flight(ptes, counted, pc[d := c])
  {
  }

  /** An entry of a forking parent loses PTE_W. */
  lemma {:induction false} FlightClear(ptes: map<Key, Pte>, counted: map<Key, nat>, pc: map<nat, Pc>, k: Key)
    requires Flight(ptes, counted, pc) && k in ptes && k.dir in pc && pc[k.dir] == Building
    ensures Flight(ptes[k := ptes[k].(w := false)], counted, pc)
  {
  }

  /** The entry at k changes while the reference stays. */
  lemma {:induction false} FlightEntry(ptes: map<Key, Pte>, counted: map<Key, nat>, pc: map<nat, Pc>, k: Key, e: Pte)
    requires Flight(ptes, counted, pc) && k in ptes && k in counted && e.frame == counted[k] && e.frame < NFRAMES
    requires (pc[k.dir].FaultAlone? || pc[k.dir].FaultDropped?) && pc[k.dir].v == k.vpn
    ensures Flight(ptes[k := e], counted, pc[k.dir := Idle])
  {
  }

  lemma {:induction false} FlightMove(ptes: map<Key, Pte>, counted: map<Key, nat>, pc: map<nat, Pc>, d: nat, c: Pc)
    requires Flight(ptes, counted, pc) && d in pc && c == pc[d] && c.FaultCopied?
    requires forall k :: k in counted ==> counted[k] != c.mem
    ensures Flight(ptes, counted[Key(d, c.v) := c.mem], pc[d := FaultDropped(c.v, c.f, c.mem)])
  {
    var k := Key(d, c.v);
    assert PendingAt(ptes, counted, k, c.f);
    var counted' := counted[k := c.mem];
    var pc' := pc[d := FaultDropped(c.v, c.f, c.mem)];
    assert LinkOk(ptes, counted', pc') by { hide AloneOk, PcOk; }
    assert PcOk(ptes, counted', pc') by { hide AloneOk, LinkOk; }
    assert AloneOk(counted', pc') by { hide LinkOk; }
  }

  /** A new page for directory k.dir, in a frame without references. */
  lemma {:induction false} FlightAdd(ptes: map<Key, Pte>, counted: map<Key, nat>, pc: map<nat, Pc>, k: Key, e: Pte)
    requires Flight(ptes, counted, pc) && k.dir in pc && pc[k.dir].GrowHeld? && pc[k.dir].v == k.vpn
    requires e.frame < NFRAMES && forall k' :: k' in counted ==> counted[k'] != e.frame
    ensures k !in counted
    ensures Flight(ptes[k := e], counted[k := e.frame], pc[k.dir := Idle])
  {
    assert k !in ptes;
    var ptes', counted', pc' := ptes[k := e], counted[k := e.frame], pc[k.dir := Idle];
    assert LinkOk(ptes', counted', pc') by { hide AloneOk, PcOk; }
    assert PcOk(ptes', counted', pc') by { hide AloneOk, LinkOk; }
    assert AloneOk(counted', pc') by { hide LinkOk; }
  }

  lemma {:induction false} FlightRemove(ptes: map<Key, Pte>, counted: map<Key, nat>, pc: map<nat, Pc>, k: Key)
    requires Flight(ptes, counted, pc) && k in ptes && k.dir in pc && pc[k.dir].Idle?
    ensures k in counted && counted[k] == ptes[k].frame
    ensures Flight(ptes - {k}, counted - {k}, pc)
  {
    assert LinkOk(ptes - {k}, counted - {k}, pc) by { hide AloneOk, PcOk; }
    assert PcOk(ptes - {k}, counted - {k}, pc) by { hide AloneOk, LinkOk; }
    assert AloneOk(counted - {k}, pc) by { hide LinkOk, PcOk; }
  }

  /** Page k of a forking parent is shared with the child's page k'. */
  lemma {:induction false} FlightTwin(ptes: map<Key, Pte>, counted: map<Key, nat>, pc: map<nat, Pc>, k: Key, k': Key)
    requires Flight(ptes, counted, pc) && k in ptes && k.dir in pc && pc[k.dir] == Building
    requires k' !in ptes && k'.dir in pc && pc[k'.dir].Idle? && k != k'
    ensures k in counted && counted[k] == ptes[k].frame && k' !in counted
    ensures var e := ptes[k].(w := false);
      Flight(ptes[k := e][k' := e], counted[k' := e.frame], pc)
  {
    var e := ptes[k].(w := false);
    var ptes', counted' := ptes[k := e][k' := e], counted[k' := e.frame];
    assert k in counted && counted[k] == ptes[k].frame && k' !in counted by { hide AloneOk, PcOk; }
    assert LinkOk(ptes', counted', pc) by { hide AloneOk, PcOk; }
    assert PcOk(ptes', counted', pc) by { hide AloneOk, LinkOk; }
    assert AloneOk(counted', pc) by { hide LinkOk, PcOk; }
  }

  lemma {:induction false} FlightNew(ptes: map<Key, Pte>, counted: map<Key, nat>, pc: map<nat, Pc>, d: nat)
    requires Flight(ptes, counted, pc) && d !in pc
    ensures Flight(ptes, counted, pc[d := Idle])
  {
  }

  lemma {:induction false} FlightGone(ptes: map<Key, Pte>, counted: map<Key, nat>, pc: map<nat, Pc>, d: nat)
    requires Flight(ptes, counted, pc) && d in pc && pc[d].Idle? && forall k :: k in ptes ==> k.dir != d
    ensures Flight(ptes, counted, pc - {d})
  {
  }

  // ------------------------------------------------------------ sharing

  /** The entry at k becomes writable: it is the only reference to its frame. */
  lemma {:induction false} SharingEntry(ptes: map<Key, Pte>, counted: map<Key, nat>, slot: map<nat, nat>, k: Key, e: Pte)
    requires Sharing(ptes, counted, slot) && k in counted
    requires forall k' :: k' in counted && counted[k'] == counted[k] ==> k' == k
    ensures Sharing(ptes[k := e], counted, slot)
  {
    hide KinOk;
  }

  lemma {:induction false} SharingClear(ptes: map<Key, Pte>, counted: map<Key, nat>, slot: map<nat, nat>, k: Key)
    requires Sharing(ptes, counted, slot) && k in ptes
    ensures Sharing(ptes[k := ptes[k].(w := false)], counted, slot)
  {
    hide KinOk;
  }

  /** The reference at k is new, or moves, to a frame without references. */
  lemma {:induction false} SharingFresh(ptes: map<Key, Pte>, counted: map<Key, nat>, slot: map<nat, nat>, k: Key, g: nat)
    requires Sharing(ptes, counted, slot)
    requires k in counted && k in ptes ==> !ptes[k].w
    requires forall k' :: k' in counted ==> counted[k'] != g
    ensures Sharing(ptes, counted[k := g], slot)
  {
    var counted' := counted[k := g];
    assert SoleOk(ptes, counted') by { hide KinOk; }
    assert KinOk(counted', slot) by { hide SoleOk; }
  }

  lemma {:induction false} SharingRemove(ptes: map<Key, Pte>, counted: map<Key, nat>, slot: map<nat, nat>, k: Key)
    requires Sharing(ptes, counted, slot)
    ensures Sharing(ptes - {k}, counted - {k}, slot)
  {
    assert SoleOk(ptes - {k}, counted - {k}) by { hide KinOk; }
    assert KinOk(counted - {k}, slot) by { hide SoleOk; }
  }

  lemma {:induction false} SharingTwin(ptes: map<Key, Pte>, counted: map<Key, nat>, slot: map<nat, nat>, k: Key, c: nat)
    requires Sharing(ptes, counted, slot) && k in counted && k in ptes && Key(c, k.vpn) !in counted
    requires c in slot && forall k' :: k' in counted && k'.dir in slot && slot[k'.dir] == slot[c] ==> k'.dir == c
    ensures var k' := Key(c, k.vpn);
      var e := ptes[k].(w := false);
      Sharing(ptes[k := e][k' := e], counted[k' := counted[k]], slot)
  {
    var k' := Key(c, k.vpn);
    var e := ptes[k].(w := false);
    var ptes', counted' := ptes[k := e][k' := e], counted[k' := counted[k]];
    assert SoleOk(ptes', counted') by { hide KinOk; }
    assert KinOk(counted', slot) by { hide SoleOk; }
  }

  lemma {:induction false} KinNew(counted: map<Key, nat>, slot: map<nat, nat>, e: nat, p: nat)
    requires KinOk(counted, slot) && forall k :: k in counted ==> k.dir in slot && k.dir != e
    ensures KinOk(counted, slot[e := p])
  {
  }

  lemma {:induction false} KinGone(counted: map<Key, nat>, slot: map<nat, nat>, d: nat)
    requires KinOk(counted, slot)
    ensures KinOk(counted, slot - {d})
  {
  }

  // ------------------------------------------------------------ twins

  /** The reference at k comes, goes or moves, in a directory no fork is working on. */
  lemma {:induction false} TwinAside(counted: map<Key, nat>, role: map<nat, Role>, under: map<nat, nat>, k: Key, g: nat)
    requires TwinOk(counted, role, under) && k.dir in role && !role[k.dir].Child?
    requires forall c :: c in under ==> under[c] != k.dir
    ensures TwinOk(counted[k := g], role, under) && TwinOk(counted - {k}, role, under)
  {
  }

  lemma {:induction false} TwinShare(counted: map<Key, nat>, role: map<nat, Role>, under: map<nat, nat>, c: nat, v: nat)
    requires TwinOk(counted, role, under) && c in under && Key(under[c], v) in counted
    requires forall c' :: c' in under ==> under[c'] != c
    ensures TwinOk(counted[Key(c, v) := counted[Key(under[c], v)]], role, under)
  {
  }

  lemma {:induction false} TwinNew(counted: map<Key, nat>, role: map<nat, Role>, under: map<nat, nat>, e: nat, d: nat, r: Role)
    requires TwinOk(counted, role, under) && forall k :: k in counted ==> k.dir != e
    ensures TwinOk(counted, role[e := r], under[e := d])
  {
  }

  lemma {:induction false} TwinLeave(counted: map<Key, nat>, role: map<nat, Role>, under: map<nat, nat>, e: nat, r: Role)
    requires TwinOk(counted, role, under) && !r.Child?
    ensures TwinOk(counted, role[e := r], under - {e}) && TwinOk(counted, role[e := r], under)
    ensures TwinOk(counted, role - {e}, under)
  {
  }
}

/**
 Every step keeps the invariant.
 */
module CowKeep {
  import opened CowMachine
  import opened CowInvariant
  import opened CowParts

  lemma {:induction false} LengthFacts(s: State)
    requires Inv(s)
    ensures |s.frames| == |s.rc| == |s.use| == NFRAMES && s.slot.Keys == s.role.Keys == s.pc.Keys && !s.panicked
    ensures forall i :: 0 <= i < |s.free| ==> s.free[i] < NFRAMES && s.use[s.free[i]] == Free
    ensures forall d :: d in s.pc ==> d < NFRAMES && s.use[d] == Kernel
  {
    hide CountOk, UserOk, HeldOk, Sharing, TwinOk, CopyOk, DutyOk, OwnerOk, Flight;
  }

  lemma {:induction false} LinkFacts(s: State, k: Key)
    requires Inv(s) && k in s.ptes && !Skewed(s.pc[k.dir], k.vpn)
    ensures k.dir in s.pc && k in s.counted && s.counted[k] == s.ptes[k].frame < NFRAMES
  {
    hide Account, HeldOk, Sharing, TwinOk, CopyOk, Staff, KernelOk, PcOk, AloneOk;
  }

  lemma {:induction false} CountFacts(s: State, k: Key)
    requires Inv(s) && k in s.counted
    ensures |s.use| == |s.rc| == NFRAMES && k.dir in s.slot
    ensures s.counted[k] < NFRAMES && s.use[s.counted[k]] == User
    ensures s.rc[s.counted[k]] == |RefsOf(s.counted, s.counted[k])| >= 1
  {
    hide HeldOk, Sharing, TwinOk, CopyOk, DutyOk, OwnerOk, KernelOk, FreeOk, PcOk, AloneOk, LinkOk;
  }

  lemma {:induction false} BoundFacts(s: State, f: nat)
    requires Inv(s)
    ensures |RefsOf(s.counted, f)| <= NPROC
  {
    hide HeldOk, SoleOk, TwinOk, CopyOk, DutyOk, KernelOk, Account, PcOk, AloneOk, LinkOk;
    RefsBound(s.counted, s.slot, f);
  }

  /** A present entry that is not in flight: its frame, and the reference it counts. */
  lemma {:induction false} EntryFacts(s: State, k: Key)
    requires Inv(s) && k in s.ptes && !Skewed(s.pc[k.dir], k.vpn)
    ensures |s.use| == |s.rc| == NFRAMES
    ensures k.dir in s.pc && k in s.counted && s.counted[k] == s.ptes[k].frame < NFRAMES
    ensures s.use[s.counted[k]] == User && s.rc[s.counted[k]] == |RefsOf(s.counted, s.counted[k])| >= 1
    ensures |RefsOf(s.counted, s.counted[k])| <= NPROC
    ensures s.rc[s.counted[k]] == 1 ==> forall k' :: k' in s.counted && s.counted[k'] == s.counted[k] ==> k' == k
  {
    hide Inv;
    LinkFacts(s, k);
    CountFacts(s, k);
    BoundFacts(s, s.counted[k]);
    if s.rc[s.counted[k]] == 1 {
      RefsUnique(s.counted, k);
    }
  }

  /** A frame in hand has no reference; the faulting entry still has its own. */
  lemma {:induction false} PendingFacts(s: State, d: nat)
    requires Inv(s) && d in s.pc
    ensures PcFrame(s.pc[d]) >= 0 ==> s.pc[d].mem < NFRAMES && s.use[s.pc[d].mem] == Held(d)
                                      && forall k :: k in s.counted ==> s.counted[k] != s.pc[d].mem
    ensures PcAt(s.ptes, s.counted, d, s.pc[d])
  {
    hide FreeOk, CountOk, SoleOk, KinOk, TwinOk, LinkOk, AloneOk, CopyOk, DutyOk, OwnerOk, KernelOk, DomainOk;
  }

  /** A frame that no unfinished copy reads or writes. */
  lemma {:induction false} UncopiedFacts(s: State, k: Key)
    requires Inv(s) && k in s.counted && !s.pc[k.dir].FaultCopied?
    requires forall k' :: k' in s.counted && s.counted[k'] == s.counted[k] ==> k' == k
    ensures Idly(s.pc, s.counted[k])
  {
    hide Inv;
    forall d | d in s.pc ensures PcFrame(s.pc[d]) != s.counted[k] && (s.pc[d].FaultCopied? ==> s.pc[d].f != s.counted[k]) {
      PendingFacts(s, d);
    }
  }

  /** A frame without references that only d may hold. */
  lemma {:induction false} UnusedFacts(s: State, f: nat, d: nat)
    requires Inv(s) && f < NFRAMES && s.use[f] != User && (s.use[f].Held? ==> s.use[f] == Held(d))
    requires d in s.pc ==> !s.pc[d].FaultCopied? && !s.pc[d].GrowHeld?
    ensures Idly(s.pc, f)
  {
    hide Inv;
    forall d' | d' in s.pc ensures
      && (s.pc[d'].FaultCopied? || s.pc[d'].GrowHeld? ==> s.pc[d'].mem != f)
      && (s.pc[d'].FaultCopied? ==> s.pc[d'].f != f)
    {
      PendingFacts(s, d');
      if s.pc[d'].FaultCopied? {
        EntryFacts(s, Key(d', s.pc[d'].v));
      }
    }
  }

  lemma {:induction false} WritableFacts(s: State, k: Key)
    requires Inv(s) && k in s.ptes && s.ptes[k].w && s.pc[k.dir].Idle?
    ensures k in s.counted && s.counted[k] == s.ptes[k].frame
    ensures forall k' :: k' in s.counted && s.counted[k'] == s.counted[k] ==> k' == k
  {
    hide FreeOk, CountOk, UserOk, KinOk, TwinOk, PcOk, AloneOk, CopyOk, DutyOk, OwnerOk, KernelOk, HeldOk;
  }

  lemma {:induction false} KeepPoke(s: State, d: nat, v: nat, page: Page)
    requires Inv(s) && CanLoad(s, d, v)
    ensures Inv(DoLoad(s, d, v, page))
  {
    var k := Key(d, v);
    WritableFacts(s, k);
    UncopiedFacts(s, k);
    hide Account, HeldOk, Sharing, TwinOk, Flight, CopyOk, KernelOk, Staff;
    CopyFrame(s.frames, s.pc, s.ptes[k].frame, page);
  }

  /** The program counter of d moves on, with nothing else changed that depends on it. */
  lemma {:induction false} KeepPc(s: State, d: nat, c: Pc)
    requires Inv(s) && d in s.pc && DutyAt(s.role[d], c) && s.pc[d] != Building && c != Building
    requires !s.pc[d].FaultDropped? && !c.FaultDropped? && PcAt(s.ptes, s.counted, d, c)
    requires c.FaultAlone? ==> forall k :: k in s.counted && s.counted[k] == c.f ==> k == Key(d, c.v)
    ensures Flight(s.ptes, s.counted, s.pc[d := c])
    ensures Staff(s.slot, s.role, s.pc[d := c], s.under, s.procs)
    ensures PcFrame(c) == PcFrame(s.pc[d]) && CopyAt(s.frames, c) ==> Inv(SetPc(s, d, c))
  {
    hide Account, HeldOk, Sharing, TwinOk, Flight, CopyOk, KernelOk, DutyOk, OwnerOk;
    FlightPc(s.ptes, s.counted, s.pc, d, c);
    StaffPc(s.slot, s.role, s.pc, s.under, s.procs, d, c);
    if PcFrame(c) == PcFrame(s.pc[d]) && CopyAt(s.frames, c) {
      HeldPc(s.use, s.pc, d, c);
      CopyPc(s.frames, s.pc, d, c);
    }
  }

  lemma {:induction false} OwnFacts(s: State, d: nat)
    requires Inv(s) && d in s.pc
    ensures |s.use| == |s.rc| == NFRAMES
    ensures d in s.role && d in s.slot && s.slot[d] < NPROC && d < NFRAMES && s.use[d] == Kernel
    ensures s.role[d].Live? ==> s.role[d] == Live(s.slot[d])
    ensures !s.pc[d].Idle? && !s.pc[d].GrowHeld? ==> s.role[d].Live?
    ensures s.pc[d] != Building ==> forall c :: c in s.under ==> s.under[c] != d
    ensures s.pc[d].GrowHeld? ==> !s.role[d].Child?
  {
    hide FreeOk, CountOk, UserOk, HeldOk, Sharing, TwinOk, Flight, CopyOk;
    if s.role[d].Live? {
      assert s.role[d] == Live(s.role[d].owner);
    }
  }

  lemma {:induction false} ProcFacts(s: State, p: nat)
    requires Inv(s) && p in s.procs
    ensures s.procs[p] in s.pc && s.procs[p] in s.role && s.role[s.procs[p]] == Live(p)
    ensures s.procs[p] in s.slot && s.slot[s.procs[p]] == p < NPROC
  {
    hide Account, HeldOk, Sharing, TwinOk, Flight, CopyOk, DutyOk, KernelOk;
  }

  lemma {:induction false} KeepFaultEnter(s: State, p: nat, v: nat)
    requires Inv(s) && CanFaultEnter(s, p, v)
    ensures Inv(DoFaultEnter(s, p, v))
  {
    hide Account, HeldOk, Sharing, TwinOk, Flight, CopyOk, KernelOk, Staff;
    var d := s.procs[p];
    var k := Key(d, v);
    ProcFacts(s, p);
    if k in s.ptes && s.ptes[k].u {
      EntryFacts(s, k);
      var f := s.ptes[k].frame;
      KeepPc(s, d, if s.rc[f] == 1 then FaultAlone(v, f) else FaultShared(v, f));
    }
  }

  /** While a fault waits to enable or rewrite its entry, its reference is the only one. */
  lemma {:induction false} AloneFacts(s: State, d: nat)
    requires Inv(s) && d in s.pc && (s.pc[d].FaultAlone? || s.pc[d].FaultDropped?)
    ensures var k := Key(d, s.pc[d].v);
      && k in s.ptes && k in s.counted && s.counted[k] == SoleFrame(s.pc[d]) < NFRAMES
      && forall k' :: k' in s.counted && s.counted[k'] == s.counted[k] ==> k' == k
  {
    hide FreeOk, CountOk, SoleOk, KinOk, TwinOk, CopyOk, DutyOk, OwnerOk, KernelOk, HeldOk;
  }

  lemma {:induction false} KeepFaultEnable(s: State, d: nat)
    requires Inv(s) && CanFaultEnable(s, d)
    ensures Inv(DoFaultEnable(s, d))
  {
    hide Account, HeldOk, Sharing, TwinOk, Flight, CopyOk, KernelOk, DutyOk, OwnerOk;
    var k := Key(d, s.pc[d].v);
    var e := s.ptes[k].(w := true);
    OwnFacts(s, d);
    AloneFacts(s, d);
    EntryFacts(s, k);
    FlightEntry(s.ptes, s.counted, s.pc, k, e);
    SharingEntry(s.ptes, s.counted, s.slot, k, e);
    StaffPc(s.slot, s.role, s.pc, s.under, s.procs, d, Idle);
    HeldPc(s.use, s.pc, d, Idle);
    CopyPc(s.frames, s.pc, d, Idle);
  }

  lemma {:induction false} KeepFaultAlloc(s: State, d: nat)
    requires Inv(s) && CanFaultAlloc(s, d)
    ensures Inv(DoFaultAlloc(s, d))
  {
    hide Account, HeldOk, Sharing, TwinOk, Flight, CopyOk, KernelOk, Staff;
    PendingFacts(s, d);
    OwnFacts(s, d);
    if |s.free| == 0 {
      KeepPc(s, d, Idle);
    } else {
      var c := FaultHeld(s.pc[d].v, s.pc[d].f, s.free[0]);
      KeepPc(s, d, c);
      AccountTake(s.free, s.rc, s.counted, s.use, Held(d));
      HeldTake(s.use, s.pc, d, c, s.free[0]);
      CopyPc(s.frames, s.pc, d, c);
      KernelUse(s.slot, s.use, s.free[0], Held(d));
    }
  }

  lemma {:induction false} KeepFaultCopy(s: State, d: nat)
    requires Inv(s) && CanFaultCopy(s, d)
    ensures Inv(DoFaultCopy(s, d))
  {
    hide Account, HeldOk, Sharing, TwinOk, Flight, CopyOk, KernelOk, Staff;
    PendingFacts(s, d);
    OwnFacts(s, d);
    var c := FaultCopied(s.pc[d].v, s.pc[d].f, s.pc[d].mem);
    KeepPc(s, d, c);
    UnusedFacts(s, c.mem, d);
    CopyFrame(s.frames, s.pc, c.mem, s.frames[c.f]);
    CopyPc(s.frames[c.mem := s.frames[c.f]], s.pc, d, c);
    HeldPc(s.use, s.pc, d, c);
  }

  lemma {:induction false} KeepFaultDrop(s: State, d: nat)
    requires Inv(s) && CanFaultDrop(s, d)
    ensures Inv(DoFaultDrop(s, d))
  {
    hide Account, HeldOk, Sharing, TwinOk, Flight, CopyOk, KernelOk, DutyOk, OwnerOk;
    var c := s.pc[d];
    var k, c' := Key(d, c.v), FaultDropped(c.v, c.f, c.mem);
    PendingFacts(s, d);
    OwnFacts(s, d);
    EntryFacts(s, k);
    AccountMove(s.free, s.rc, s.counted, s.use, k, c.mem);
    FlightMove(s.ptes, s.counted, s.pc, d, c);
    SharingFresh(s.ptes, s.counted, s.slot, k, c.mem);
    TwinAside(s.counted, s.role, s.under, k, c.mem);
    StaffPc(s.slot, s.role, s.pc, s.under, s.procs, d, c');
    CopyPc(s.frames, s.pc, d, c');
    var use1 := if ToChar(s.rc[c.f] - 1) == 0 then s.use[c.f := Leaked] else s.use;
    HeldUse(s.use, s.pc, c.f, Leaked);
    HeldDrop(use1, s.pc, d, c', c.mem, User);
    KernelUse(s.slot, s.use, c.f, Leaked);
    KernelUse(s.slot, use1, c.mem, User);
  }

  lemma {:induction false} KeepFaultSet(s: State, d: nat)
    requires Inv(s) && CanFaultSet(s, d)
    ensures Inv(DoFaultSet(s, d))
  {
    hide Account, HeldOk, Sharing, TwinOk, Flight, CopyOk, KernelOk, DutyOk, OwnerOk;
    var k := Key(d, s.pc[d].v);
    var e := Pte(s.pc[d].mem, true, true);
    OwnFacts(s, d);
    AloneFacts(s, d);
    FlightEntry(s.ptes, s.counted, s.pc, k, e);
    SharingEntry(s.ptes, s.counted, s.slot, k, e);
    StaffPc(s.slot, s.role, s.pc, s.under, s.procs, d, Idle);
    HeldPc(s.use, s.pc, d, Idle);
    CopyPc(s.frames, s.pc, d, Idle);
  }

  lemma {:induction false} KeepGrowAlloc(s: State, d: nat, v: nat)
    requires Inv(s) && CanGrowAlloc(s, d, v)
    ensures Inv(DoGrowAlloc(s, d, v))
  {
    hide Account, HeldOk, Sharing, TwinOk, Flight, CopyOk, KernelOk, Staff;
    var mem := s.free[0];
    var c := GrowHeld(v, mem);
    OwnFacts(s, d);
    AccountTake(s.free, s.rc, s.counted, s.use, Held(d));
    UnusedFacts(s, mem, d);
    KeepPc(s, d, c);
    HeldTake(s.use, s.pc, d, c, mem);
    CopyFrame(s.frames, s.pc, mem, Filled(0));
    CopyPc(s.frames[mem := Filled(0)], s.pc, d, c);
    KernelUse(s.slot, s.use, mem, Held(d));
  }

  lemma {:induction false} KeepGrowMap(s: State, d: nat, u: bool)
    requires Inv(s) && CanGrowMap(s, d)
    ensures Inv(DoGrowMap(s, d, u))
  {
    hide Account, HeldOk, Sharing, TwinOk, Flight, CopyOk, KernelOk, DutyOk, OwnerOk;
    var mem, k := s.pc[d].mem, Key(d, s.pc[d].v);
    var e := Pte(mem, true, u);
    PendingFacts(s, d);
    OwnFacts(s, d);
    FlightAdd(s.ptes, s.counted, s.pc, k, e);
    AccountAdd(s.free, s.rc, s.counted, s.use, k, mem);
    SharingFresh(s.ptes, s.counted, s.slot, k, mem);
    var counted' := s.counted[k := mem];
    assert forall k' :: k' in counted' && counted'[k'] == counted'[k] ==> k' == k;
    SharingEntry(s.ptes, counted', s.slot, k, e);
    TwinAside(s.counted, s.role, s.under, k, mem);
    StaffPc(s.slot, s.role, s.pc, s.under, s.procs, d, Idle);
    HeldDrop(s.use, s.pc, d, Idle, mem, User);
    CopyPc(s.frames, s.pc, d, Idle);
    KernelUse(s.slot, s.use, mem, User);
  }

  lemma {:induction false} KeepGrowMiss(s: State, d: nat)
    requires Inv(s) && CanGrowMap(s, d)
    ensures Inv(DoGrowMiss(s, d))
  {
    hide Account, HeldOk, Sharing, TwinOk, Flight, CopyOk, KernelOk, DutyOk, OwnerOk;
    var mem := s.pc[d].mem;
    PendingFacts(s, d);
    OwnFacts(s, d);
    AccountLose(s.free, s.rc, s.counted, s.use, mem);
    FlightPc(s.ptes, s.counted, s.pc, d, Idle);
    StaffPc(s.slot, s.role, s.pc, s.under, s.procs, d, Idle);
    HeldDrop(s.use, s.pc, d, Idle, mem, Lost);
    CopyPc(s.frames, s.pc, d, Idle);
    KernelUse(s.slot, s.use, mem, Lost);
  }

  lemma {:induction false} KeepUnmap(s: State, d: nat, v: nat)
    requires Inv(s) && CanUnmap(s, d, v)
    ensures Inv(DoUnmap(s, d, v))
  {
    hide Account, HeldOk, Sharing, TwinOk, Flight, CopyOk, KernelOk, Staff;
    var k := Key(d, v);
    OwnFacts(s, d);
    EntryFacts(s, k);
    var f := s.counted[k];
    AccountRemove(s.free, s.rc, s.counted, s.use, k);
    FlightRemove(s.ptes, s.counted, s.pc, k);
    SharingRemove(s.ptes, s.counted, s.slot, k);
    TwinAside(s.counted, s.role, s.under, k, 0);
    if s.rc[f] == 1 {
      UncopiedFacts(s, k);
      HeldUse(s.use, s.pc, f, Free);
      CopyFrame(s.frames, s.pc, f, Filled(1));
      KernelUse(s.slot, s.use, f, Free);
    }
  }

  /** What is known of a directory under construction and its builder. */
  lemma {:induction false} UnderFacts(s: State, c: nat)
    requires Inv(s) && c in s.under
    ensures c in s.pc && c in s.role && c in s.slot && (s.role[c] == Child || s.role[c] == Staged)
    ensures s.under[c] in s.pc && s.pc[s.under[c]] == Building && s.under[c] in s.role && s.role[s.under[c]].Live?
    ensures s.role[c] == Staged ==> s.under[c] in s.slot && s.slot[c] == s.slot[s.under[c]]
    ensures s.role[c] == Child ==> s.slot[c] !in s.procs
    ensures s.role[c] == Child ==> forall d :: d in s.slot && s.slot[d] == s.slot[c] ==> d == c
    ensures forall c' :: c' in s.under ==> s.under[c'] != c
  {
    hide Account, HeldOk, Sharing, TwinOk, Flight, CopyOk, KernelOk;
  }

  lemma {:induction false} KeepForkClear(s: State, c: nat, v: nat)
    requires Inv(s) && CanForkClear(s, c, v)
    ensures Inv(DoForkClear(s, c, v))
  {
    hide Account, HeldOk, Sharing, TwinOk, Flight, CopyOk, KernelOk, Staff;
    UnderFacts(s, c);
    FlightClear(s.ptes, s.counted, s.pc, Key(s.under[c], v));
    SharingClear(s.ptes, s.counted, s.slot, Key(s.under[c], v));
  }

  lemma {:induction false} KeepForkPage(s: State, c: nat, v: nat)
    requires Inv(s) && CanForkPage(s, c, v)
    ensures Inv(DoForkPage(s, c, v))
  {
    hide Account, HeldOk, Sharing, TwinOk, Flight, CopyOk, KernelOk, Staff;
    var k, k' := Key(s.under[c], v), Key(c, v);
    UnderFacts(s, c);
    EntryFacts(s, k);
    FlightTwin(s.ptes, s.counted, s.pc, k, k');
    AccountShare(s.free, s.rc, s.counted, s.use, k', s.counted[k]);
    SharingTwin(s.ptes, s.counted, s.slot, k, c);
    TwinShare(s.counted, s.role, s.under, c, v);
  }

  lemma {:induction false} SpareFacts(s: State, e: nat)
    requires Inv(s) && IsSpare(s, e)
    ensures e !in s.slot && e !in s.role && forall k :: k in s.counted ==> k.dir != e && k.dir in s.slot
  {
    hide Account, HeldOk, Sharing, TwinOk, LinkOk, PcOk, AloneOk, CopyOk, KernelOk, DutyOk, OwnerOk;
  }

  /** A new directory e in role r for slot p, built by the process of directory d. */
  lemma {:induction false} KeepStart(s: State, d: nat, e: nat, p: nat, r: Role)
    requires Inv(s) && At(s, d, Idle) && s.role[d].Live? && IsSpare(s, e) && p < NPROC
    requires (r == Child && forall d' :: d' in s.slot ==> s.slot[d'] != p) || (r == Staged && s.slot[d] == p)
    ensures Inv(AddDir(SetPc(s, d, Building), e, p, r).(under := s.under[e := d]))
  {
    hide Account, HeldOk, SoleOk, KinOk, TwinOk, Flight, CopyOk, KernelOk, DutyOk, OwnerOk;
    OwnFacts(s, d);
    SpareFacts(s, e);
    var pc1 := s.pc[d := Building];
    DutyNew(s.slot, s.role, s.pc, s.under, d, e, p, r);
    OwnerNew(s.slot, s.role, s.procs, e, p, r);
    FlightPc(s.ptes, s.counted, s.pc, d, Building);
    FlightNew(s.ptes, s.counted, pc1, e);
    HeldPc(s.use, s.pc, d, Building);
    HeldNew(s.use, pc1, e);
    CopyPc(s.frames, s.pc, d, Building);
    CopyPc(s.frames, pc1, e, Idle);
    KinNew(s.counted, s.slot, e, p);
    TwinNew(s.counted, s.role, s.under, e, d, r);
    KernelNew(s.slot, s.use, e, p);
  }

  lemma {:induction false} KeepAbandon(s: State, c: nat)
    requires Inv(s) && c in s.under && s.pc[c].Idle?
    ensures Inv(DoAbandon(s, c))
  {
    hide Account, HeldOk, Sharing, TwinOk, Flight, CopyOk, KernelOk, DutyOk, OwnerOk;
    var d := s.under[c];
    UnderFacts(s, c);
    DutyLeave(s.slot, s.role, s.pc, s.under, c, Dying);
    OwnerDie(s.slot, s.role, s.procs, c);
    FlightPc(s.ptes, s.counted, s.pc, d, Idle);
    HeldPc(s.use, s.pc, d, Idle);
    CopyPc(s.frames, s.pc, d, Idle);
    TwinLeave(s.counted, s.role, s.under, c, Dying);
  }

  lemma {:induction false} KeepForkEnd(s: State, c: nat)
    requires Inv(s) && CanForkEnd(s, c)
    ensures Inv(DoForkEnd(s, c))
  {
    hide Account, HeldOk, Sharing, TwinOk, Flight, CopyOk, KernelOk, DutyOk, OwnerOk;
    var d := s.under[c];
    UnderFacts(s, c);
    DutyLeave(s.slot, s.role, s.pc, s.under, c, Live(s.slot[c]));
    OwnerLive(s.slot, s.role, s.procs, c);
    FlightPc(s.ptes, s.counted, s.pc, d, Idle);
    HeldPc(s.use, s.pc, d, Idle);
    CopyPc(s.frames, s.pc, d, Idle);
    TwinLeave(s.counted, s.role, s.under, c, Live(s.slot[c]));
  }

  lemma {:induction false} KeepExecCommit(s: State, e: nat)
    requires Inv(s) && InHand(s, e, Staged)
    ensures Inv(DoExecCommit(s, e))
  {
    hide Account, HeldOk, Sharing, TwinOk, Flight, CopyOk, KernelOk, DutyOk, OwnerOk;
    var d, p := s.under[e], s.slot[e];
    UnderFacts(s, e);
    OwnFacts(s, d);
    LiveFacts(s, d);
    var role1 := s.role[d := Dying];
    assert role1[e := Live(p)] == s.role[e := Live(p)][d := Dying];
    DutyLeave(s.slot, s.role, s.pc, s.under, e, Live(p));
    DutyRetire(s.slot, s.role[e := Live(p)], s.pc[d := Idle], s.under - {e}, d);
    OwnerExit(s.slot, s.role, s.procs, p);
    OwnerLive(s.slot, role1, s.procs - {p}, e);
    assert (s.procs - {p})[p := e] == s.procs[p := e];
    FlightPc(s.ptes, s.counted, s.pc, d, Idle);
    HeldPc(s.use, s.pc, d, Idle);
    CopyPc(s.frames, s.pc, d, Idle);
    TwinLeave(s.counted, s.role, s.under, d, Dying);
    TwinLeave(s.counted, role1, s.under, e, Live(p));
  }

  lemma {:induction false} LiveFacts(s: State, d: nat)
    requires Inv(s) && d in s.role && s.role[d].Live?
    ensures s.role[d].owner in s.procs && s.procs[s.role[d].owner] == d
    ensures forall c :: c in s.role && s.role[c].Child? ==> c in s.slot && d in s.slot && s.slot[c] != s.slot[d]
  {
    hide Account, HeldOk, Sharing, TwinOk, Flight, CopyOk, KernelOk, DutyOk;
    assert s.role[d] == Live(s.role[d].owner);
  }

  lemma {:induction false} KeepExit(s: State, p: nat)
    requires Inv(s) && InUser(s, p)
    ensures Inv(DoExit(s, p))
  {
    hide Account, HeldOk, Sharing, TwinOk, Flight, CopyOk, KernelOk, DutyOk, OwnerOk;
    ProcFacts(s, p);
    DutyRetire(s.slot, s.role, s.pc, s.under, s.procs[p]);
    OwnerExit(s.slot, s.role, s.procs, p);
    TwinLeave(s.counted, s.role, s.under, s.procs[p], Dying);
  }

  lemma {:induction false} KeepDirFree(s: State, d: nat)
    requires Inv(s) && CanDirFree(s, d)
    ensures Inv(DoDirFree(s, d))
  {
    hide Account, HeldOk, SoleOk, KinOk, TwinOk, Flight, CopyOk, KernelOk, DutyOk, OwnerOk;
    OwnFacts(s, d);
    DutyGone(s.slot, s.role, s.pc, s.under, d);
    OwnerGone(s.slot, s.role, s.procs, d);
    FlightGone(s.ptes, s.counted, s.pc, d);
    HeldGone(s.use, s.pc, d);
    CopyGone(s.frames, s.pc, d);
    KinGone(s.counted, s.slot, d);
    TwinLeave(s.counted, s.role, s.under, d, Dying);
    KernelNew(s.slot, s.use, d, 0);
  }

  lemma {:induction false} KeepKernTake(s: State)
    requires Inv(s) && CanKernTake(s)
    ensures Inv(Take(s, Kernel))
  {
    hide Account, HeldOk, Sharing, TwinOk, Flight, CopyOk, KernelOk, Staff;
    AccountTake(s.free, s.rc, s.counted, s.use, Kernel);
    HeldUse(s.use, s.pc, s.free[0], Kernel);
    KernelUse(s.slot, s.use, s.free[0], Kernel);
  }

  lemma {:induction false} KeepKernGive(s: State, f: nat)
    requires Inv(s) && CanKernGive(s, f)
    ensures Inv(Give(s, f))
  {
    hide Account, HeldOk, Sharing, TwinOk, Flight, CopyOk, KernelOk, Staff;
    SpareFacts(s, f);
    AccountGive(s.free, s.rc, s.counted, s.use, f);
    HeldUse(s.use, s.pc, f, Free);
    UnusedFacts(s, f, f);
    CopyFrame(s.frames, s.pc, f, Filled(1));
    KernelGive(s.slot, s.use, f, Free);
  }
}
