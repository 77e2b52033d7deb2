/**
 The invariant of the copy-on-write machine. Each clause names only the parts
 of the state it depends on.
 */
module CowInvariant {
  import opened CowMachine

  /** The free list holds exactly the free frames, each once. */
  ghost predicate FreeOk(free: seq<nat>, use: seq<Use>) {
    && (forall i, j :: 0 <= i < j < |free| ==> free[i] != free[j])
    && (forall i :: 0 <= i < |free| ==> free[i] < |use| && use[free[i]] == Free)
    && (forall f :: 0 <= f < |use| && use[f] == Free ==> f in free)
  }

  /** pg_refcount is the number of counted references, plus one for a frame that mappages lost. */
  ghost predicate CountOk(rc: seq<int>, counted: map<Key, nat>, use: seq<Use>)
    requires |rc| == |use|
  {
    forall f :: 0 <= f < |rc| ==>
      && rc[f] == |RefsOf(counted, f)| + (if use[f] == Lost then 1 else 0)
      && (use[f] == User ==> rc[f] > 0)
  }

  /** Counted references are to user frames. */
  ghost predicate UserOk(counted: map<Key, nat>, use: seq<Use>) {
    forall k :: k in counted ==> counted[k] < |use| && use[counted[k]] == User
  }

  ghost predicate DomainOk(ptes: map<Key, Pte>, counted: map<Key, nat>, pc: map<nat, Pc>) {
    && (forall k :: k in counted ==> k.dir in pc)
    && (forall k :: k in ptes ==> k.dir in pc && ptes[k].frame < NFRAMES)
  }

  /** A held frame is the one in its directory's program counter. */
  ghost predicate HeldOk(use: seq<Use>, pc: map<nat, Pc>) {
    && (forall f, d {:trigger use[f], pc[d]} :: 0 <= f < |use| && d in pc ==> (use[f] == Held(d) <==> PcFrame(pc[d]) == f))
    && (forall f, d {:trigger use[f], Held(d)} :: 0 <= f < |use| && use[f] == Held(d) ==> d in pc)
    && (forall d {:trigger pc[d]} :: d in pc ==> PcFrame(pc[d]) < |use|)
  }

  /** The entry at virtual page v is about to be rewritten: its reference has already moved. */
  predicate Skewed(c: Pc, v: nat) {
    c.FaultDropped? && c.v == v
  }

  /** The page table and the counted references agree except at the page in flight. */
  ghost predicate LinkOk(ptes: map<Key, Pte>, counted: map<Key, nat>, pc: map<nat, Pc>) {
    && (forall k {:trigger k in ptes} {:trigger k in counted} :: k in ptes <==> k in counted)
    && (forall k {:trigger ptes[k]} {:trigger counted[k]} :: k in ptes && k in counted && k.dir in pc ==>
          if Skewed(pc[k.dir], k.vpn) then !ptes[k].w else ptes[k].frame == counted[k])
  }

  /** A writable entry is the only reference to its frame. */
  ghost predicate SoleOk(ptes: map<Key, Pte>, counted: map<Key, nat>) {
    forall k, k' :: k in counted && k' in counted && counted[k] == counted[k'] ==>
      k in ptes && ptes[k].w ==> k' == k
  }

  /** References to one frame sit at the same virtual page, in different processes. */
  ghost predicate KinOk(counted: map<Key, nat>, slot: map<nat, nat>) {
    forall k, k' :: k in counted && k' in counted && counted[k] == counted[k'] ==>
      && k.vpn == k'.vpn
      && (k.dir in slot && k'.dir in slot && slot[k.dir] == slot[k'.dir] ==> k == k')
  }

  /** The faulting entry still refers to f, read-only. */
  ghost predicate PendingAt(ptes: map<Key, Pte>, counted: map<Key, nat>, k: Key, f: nat) {
    k in ptes && !ptes[k].w && ptes[k].u && k in counted && counted[k] == f
  }

  /** The frame to which a program counter has the only reference, if any. */
  function SoleFrame(c: Pc): int {
    if c.FaultAlone? then c.f else if c.FaultDropped? then c.mem else -1
  }

  ghost predicate AloneOk(counted: map<Key, nat>, pc: map<nat, Pc>) {
    forall d, k {:trigger pc[d], counted[k]} :: d in pc && k in counted && SoleFrame(pc[d]) == counted[k] ==>
      k == Key(d, pc[d].v)
  }

  /** What a program counter promises about the entries of its page in flight. */
  ghost predicate PcAt(ptes: map<Key, Pte>, counted: map<Key, nat>, d: nat, c: Pc) {
    match c
    case FaultAlone(v, f) => PendingAt(ptes, counted, Key(d, v), f)
    case FaultShared(v, f) => PendingAt(ptes, counted, Key(d, v), f)
    case FaultHeld(v, f, mem) => PendingAt(ptes, counted, Key(d, v), f)
    case FaultCopied(v, f, mem) => PendingAt(ptes, counted, Key(d, v), f)
    case FaultDropped(v, f, mem) => Key(d, v) in counted && counted[Key(d, v)] == mem
    case GrowHeld(v, mem) => Key(d, v) !in ptes
    case _ => true
  }

  ghost predicate PcOk(ptes: map<Key, Pte>, counted: map<Key, nat>, pc: map<nat, Pc>) {
    forall d :: d in pc ==> PcAt(ptes, counted, d, pc[d])
  }

  /** A copy made by an unfinished fault is still a copy, and a page about to be mapped is still zero. */
  ghost predicate CopyOk(frames: seq<Page>, pc: map<nat, Pc>) {
    forall d :: d in pc ==> CopyAt(frames, pc[d])
  }

  ghost predicate CopyAt(frames: seq<Page>, c: Pc) {
    && (c.FaultCopied? ==> c.mem < |frames| && c.f < |frames| && frames[c.mem] == frames[c.f])
    && (c.GrowHeld? ==> c.mem < |frames| && frames[c.mem] == Filled(0))
  }

  /** No operation in flight cares about the contents of frame f. */
  ghost predicate Idly(pc: map<nat, Pc>, f: nat) {
    forall d :: d in pc ==>
      && (pc[d].FaultCopied? || pc[d].GrowHeld? ==> pc[d].mem != f)
      && (pc[d].FaultCopied? ==> pc[d].f != f)
  }

  /** Which operations may run on a directory in which role. */
  ghost predicate DutyAt(r: Role, c: Pc) {
    c.Idle? || r.Live? || (r.Staged? && c.GrowHeld?)
  }

  /** Operations match roles, and a directory under construction has a builder to itself. */
  ghost predicate DutyOk(slot: map<nat, nat>, role: map<nat, Role>, pc: map<nat, Pc>, under: map<nat, nat>)
    requires slot.Keys == role.Keys == pc.Keys
  {
    && (forall d {:trigger role[d], pc[d]} :: d in role ==> DutyAt(role[d], pc[d]))
    && (forall c {:trigger under[c]} :: c in under ==>
          && c in role && (role[c].Child? || (role[c].Staged? && under[c] in slot && slot[c] == slot[under[c]]))
          && under[c] in role && role[under[c]].Live? && pc[under[c]] == Building)
    && (forall c, c' {:trigger under[c], under[c']} :: c in under && c' in under && under[c] == under[c'] ==> c == c')
  }

  /** Live directories are those of the processes; a child under construction has its slot to itself. */
  ghost predicate OwnerOk(slot: map<nat, nat>, role: map<nat, Role>, procs: map<nat, nat>)
    requires slot.Keys == role.Keys
  {
    && (forall p {:trigger procs[p]} :: p in procs ==> procs[p] in role && role[procs[p]] == Live(p))
    && (forall d, p {:trigger role[d], Live(p)} :: d in role && role[d] == Live(p) ==>
          p in procs && procs[p] == d && slot[d] == p)
    && (forall d {:trigger slot[d]} :: d in slot ==> slot[d] < NPROC)
    && (forall c, d {:trigger role[c], slot[d]} :: c in role && role[c].Child? && d in slot ==>
          slot[d] == slot[c] ==> d == c)
  }

  /** A child under construction refers to the frames its parent refers to, at the same pages. */
  ghost predicate TwinOk(counted: map<Key, nat>, role: map<nat, Role>, under: map<nat, nat>) {
    forall c, v {:trigger under[c], Key(c, v)} :: c in under && c in role && role[c].Child? && Key(c, v) in counted ==>
      Key(under[c], v) in counted && counted[Key(under[c], v)] == counted[Key(c, v)]
  }

  ghost predicate KernelOk(slot: map<nat, nat>, use: seq<Use>) {
    forall d {:trigger d in slot} :: d in slot ==> d < |use| && use[d] == Kernel
  }

  /** What each frame is used for, and its count. */
  ghost predicate Account(free: seq<nat>, rc: seq<int>, counted: map<Key, nat>, use: seq<Use>) {
    |rc| == |use| == NFRAMES && FreeOk(free, use) && CountOk(rc, counted, use) && UserOk(counted, use)
  }

  /** Who may share a frame. */
  ghost predicate Sharing(ptes: map<Key, Pte>, counted: map<Key, nat>, slot: map<nat, nat>) {
    SoleOk(ptes, counted) && KinOk(counted, slot)
  }

  /** Entries, counted references and operations in flight fit together. */
  ghost predicate Flight(ptes: map<Key, Pte>, counted: map<Key, nat>, pc: map<nat, Pc>) {
    && DomainOk(ptes, counted, pc) && LinkOk(ptes, counted, pc)
    && PcOk(ptes, counted, pc) && AloneOk(counted, pc)
  }

  /** Page directories, their processes and their duties. */
  ghost predicate Staff(slot: map<nat, nat>, role: map<nat, Role>, pc: map<nat, Pc>, under: map<nat, nat>,
                        procs: map<nat, nat>)
  {
    slot.Keys == role.Keys == pc.Keys && DutyOk(slot, role, pc, under) && OwnerOk(slot, role, procs)
  }

  ghost predicate Inv(s: State) {
    && |s.frames| == NFRAMES
    && Account(s.free, s.rc, s.counted, s.use)
    && HeldOk(s.use, s.pc)
    && Sharing(s.ptes, s.counted, s.slot)
    && TwinOk(s.counted, s.role, s.under)
    && Flight(s.ptes, s.counted, s.pc)
    && CopyOk(s.frames, s.pc)
    && Staff(s.slot, s.role, s.pc, s.under, s.procs)
    && KernelOk(s.slot, s.use)
    && !s.panicked
  }

  // ------------------------------------------------------------- counting

  lemma {:induction false} RefsAddOne(m: map<Key, nat>, k: Key, g: nat, f: nat)
    requires k !in m
    ensures |RefsOf(m[k := g], f)| == |RefsOf(m, f)| + (if f == g then 1 else 0)
  {
    assert RefsOf(m[k := g], f) == RefsOf(m, f) + if f == g then {k} else {};
  }

  lemma {:induction false} RefsAdd(m: map<Key, nat>, k: Key, g: nat)
    requires k !in m
    ensures forall f :: |RefsOf(m[k := g], f)| == |RefsOf(m, f)| + (if f == g then 1 else 0)
  {
    hide RefsOf;
    forall f ensures |RefsOf(m[k := g], f)| == |RefsOf(m, f)| + (if f == g then 1 else 0) {
      RefsAddOne(m, k, g, f);
    }
  }

  lemma {:induction false} RefsRemove(m: map<Key, nat>, k: Key)
    requires k in m
    ensures forall f :: |RefsOf(m - {k}, f)| == |RefsOf(m, f)| - (if f == m[k] then 1 else 0)
  {
    forall f ensures |RefsOf(m - {k}, f)| == |RefsOf(m, f)| - (if f == m[k] then 1 else 0) {
      if f == m[k] {
        assert RefsOf(m, f) == RefsOf(m - {k}, f) + {k};
      } else {
        assert RefsOf(m - {k}, f) == RefsOf(m, f);
      }
    }
  }

  lemma {:induction false} RefsMove(m: map<Key, nat>, k: Key, g: nat)
    requires k in m && m[k] != g
    ensures forall f :: |RefsOf(m[k := g], f)| == |RefsOf(m, f)|
                        + (if f == g then 1 else if f == m[k] then -1 else 0)
  {
    RefsRemove(m, k);
    RefsAdd(m - {k}, k, g);
    assert (m - {k})[k := g] == m[k := g];
  }

  lemma {:induction false} RefsEmpty(counted: map<Key, nat>, use: seq<Use>, f: nat)
    requires UserOk(counted, use) && f < |use| && use[f] != User
    ensures RefsOf(counted, f) == {}
  {
  }

  lemma {:induction false} RefsUnique(counted: map<Key, nat>, k: Key)
    requires k in counted && |RefsOf(counted, counted[k])| == 1
    ensures forall k' :: k' in counted && counted[k'] == counted[k] ==> k' == k
  {
    var all := RefsOf(counted, counted[k]);
    assert |all - {k}| == 0;
    assert forall k' :: k' in all ==> k' == k || k' in all - {k};
    assert forall k' :: k' in counted && counted[k'] == counted[k] ==> k' in all;
  }

  /** At most NPROC references share a frame, so a signed char cannot overflow. */
  lemma {:induction false} RefsBound(counted: map<Key, nat>, slot: map<nat, nat>, f: nat)
    requires KinOk(counted, slot)
    requires forall k :: k in counted ==> k.dir in slot && slot[k.dir] < NPROC
    ensures |RefsOf(counted, f)| <= NPROC
  {
    var ks := RefsOf(counted, f);
    InjectionBound(ks, map k | k in ks :: slot[k.dir], NPROC);
  }

  lemma {:induction false} InjectionBound(ks: set<Key>, g: map<Key, nat>, n: nat)
    requires forall k :: k in ks ==> k in g && g[k] < n
    requires forall k, k' :: k in ks && k' in ks && g[k] == g[k'] ==> k == k'
    ensures |ks| <= n
    decreases n
  {
    if ks != {} && n > 0 {
      if exists k :: k in ks && g[k] == n - 1 {
        var k :| k in ks && g[k] == n - 1;
        InjectionBound(ks - {k}, g, n - 1);
      } else {
        InjectionBound(ks, g, n - 1);
      }
    }
  }
}
