/**
 The memory manager as the kernel runs it: page tables, counts and the free list
 updated in place, loops over pages, and page-table pages allocated on demand.
 The ghost fields follow the copy-on-write machine step by step.
 */
module Vm {
  import opened CowMachine
  import opened CowInvariant
  import opened CowKeep
  import opened CowRefinement

  const KERNPAGES: nat := 524288 // KERNBASE / PGSIZE
  const NPTENTRIES: nat := 1024
  const NPDENTRIES: nat := 1024

  /** A page-directory entry: which directory, which index. */
  datatype Tab = Tab(dir: nat, pdx: nat)

  ghost predicate TablesOk(tables: map<Tab, nat>, ptes: map<Key, Pte>, use: seq<Use>, dirs: map<nat, Pc>) {
    && (forall t :: t in tables ==> tables[t] < |use| && use[tables[t]] == Kernel && tables[t] !in dirs)
    && (forall t :: t in tables ==> t.pdx < NPDENTRIES && t.dir < |use| && use[t.dir] == Kernel)
    && (forall t, t' :: t in tables && t' in tables ==> tables[t] != t'.dir && (tables[t] == tables[t'] ==> t == t'))
    && (forall k :: k in ptes ==> k.vpn < KERNPAGES && Tab(k.dir, k.vpn / NPTENTRIES) in tables)
  }

  /** Pages that the loop of deallocuvm looks at, from page a up to page n. */
  function Visited(tabs: set<nat>, a: nat, n: nat): set<nat>
    decreases n - a
  {
    if a >= n then {}
    else if a / NPTENTRIES in tabs then {a} + Visited(tabs, a + 1, n)
    else Visited(tabs, a + NPTENTRIES, n)
  }

  /**
   The loop skips a present page exactly when it starts inside a missing table:
   its first 1024-page strides then jump over the head of the next present one.
   */
  lemma {:induction false} MissedExactly(tabs: set<nat>, a: nat, n: nat, v: nat)
    requires a <= v < n && v / NPTENTRIES in tabs
    ensures v !in Visited(tabs, a, n) <==>
              v % NPTENTRIES < a % NPTENTRIES && forall q :: a / NPTENTRIES <= q < v / NPTENTRIES ==> q !in tabs
    decreases n - a
  {
    if a / NPTENTRIES in tabs {
      if v > a {
        MissedExactly(tabs, a + 1, n, v);
        VisitedFrom(tabs, a + 1, n);
      }
    } else {
      if v >= a + NPTENTRIES {
        MissedExactly(tabs, a + NPTENTRIES, n, v);
      } else {
        VisitedFrom(tabs, a + NPTENTRIES, n);
      }
    }
  }

  lemma {:induction false} VisitedFrom(tabs: set<nat>, a: nat, n: nat)
    ensures forall v :: v in Visited(tabs, a, n) ==> a <= v < n && v / NPTENTRIES in tabs
    decreases n - a
  {
    if a < n {
      VisitedFrom(tabs, if a / NPTENTRIES in tabs then a + 1 else a + NPTENTRIES, n);
    }
  }

  /** Process p is in user mode in directory d. */
  ghost predicate RunsIn(m: State, p: nat, d: nat) {
    InUser(m, p) && m.procs[p] == d
  }

  lemma {:induction false} ReachableNext(s: State, l: Label)
    requires Reachable(s) && Step(s, l).Went?
    ensures Reachable(Step(s, l).s)
  {
    hide Init, Step, Run;
    var boot, ls :| Init(boot) && Run(boot, ls) == Went(s);
    RunAppend(boot, ls, l);
  }

  lemma {:induction false} RunAppend(s: State, ls: seq<Label>, l: Label)
    requires Run(s, ls).Went?
    ensures Run(s, ls + [l]) == Step(Run(s, ls).s, l)
    decreases |ls|
  {
    hide Step;
    if ls != [] {
      assert (ls + [l])[1..] == ls[1..] + [l];
      RunAppend(Step(s, ls[0]).s, ls[1..], l);
    }
  }

  /** The map without the pages vs of directory d. */
  ghost function Minus<T>(mp: map<Key, T>, d: nat, vs: set<nat>): map<Key, T> {
    map k | k in mp && !(k.dir == d && k.vpn in vs) :: mp[k]
  }

  lemma {:induction false} MinusMore<T>(mp: map<Key, T>, d: nat, vs: set<nat>, v: nat)
    ensures Minus(mp, d, vs) - {Key(d, v)} == Minus(mp, d, vs + {v})
    ensures Key(d, v) !in mp ==> Minus(mp, d, vs) == Minus(mp, d, vs + {v})
  {
  }

  /** Indices of the page tables that directory d has. */
  function TabsOf(tables: map<Tab, nat>, d: nat): set<nat> {
    set t | t in tables && t.dir == d :: t.pdx
  }

  /** Uses change only where a user frame loses its last reference. */
  ghost predicate OnlyFreed(use: seq<Use>, use': seq<Use>) {
    |use| == |use'| && forall f :: 0 <= f < |use| ==> use'[f] == use[f] || (use[f] == User && use'[f] == Free)
  }

  ghost predicate KernelKept(use: seq<Use>, use': seq<Use>) {
    |use| == |use'| && forall f :: 0 <= f < |use| && use[f] == Kernel ==> use'[f] == Kernel
  }

  lemma {:induction false} TablesKeep(tables: map<Tab, nat>, ptes: map<Key, Pte>, use: seq<Use>, dirs: map<nat, Pc>,
                                      ptes': map<Key, Pte>, use': seq<Use>, dirs': map<nat, Pc>)
    requires TablesOk(tables, ptes, use, dirs)
    requires KernelKept(use, use') && dirs'.Keys <= dirs.Keys && ptes'.Keys <= ptes.Keys
    ensures TablesOk(tables, ptes', use', dirs')
  {
  }

  lemma {:induction false} UnmapFacts(m: State, d: nat, v: nat)
    requires Inv(m) && CanUnmap(m, d, v)
    ensures Step(m, Unmap(d, v)) == Went(DoUnmap(m, d, v))
    ensures EventOf(m, Unmap(d, v)) == if Visible(m.role[d]) then Drop(d, v) else Tau
    ensures var m' := DoUnmap(m, d, v);
      var f := m.ptes[Key(d, v)].frame;
      && OnlyFreed(m.use, m'.use) && KernelKept(m.use, m'.use)
      && m'.rc == m.rc[f := ToChar(m.rc[f] - 1)] && m'.ptes == m.ptes - {Key(d, v)} && m'.pc == m.pc
      && (if ToChar(m.rc[f] - 1) == 0 then m'.free == [f] + m.free && m'.frames == m.frames[f := Filled(1)]
          else m'.free == m.free && m'.frames == m.frames)
  {
    hide Inv;
    EntryFacts(m, Key(d, v));
  }

  /** PGROUNDUP(sz) / PGSIZE */
  function Pages(sz: nat): nat {
    (sz + PGSIZE - 1) / PGSIZE
  }

  /** From s to s' the pages `gone` of directory d went away and nothing else did. */
  ghost predicate Unmapped(s: State, s': State, d: nat, gone: set<nat>) {
    && s'.counted == Minus(s.counted, d, gone) && s'.ptes == Minus(s.ptes, d, gone)
    && OnlyFreed(s.use, s'.use)
    && s'.slot == s.slot && s'.role == s.role && s'.pc == s.pc && s'.under == s.under && s'.procs == s.procs
    && s'.killed == s.killed
    && Abs(s').pages == if d in s.role && Visible(s.role[d]) then Minus(Abs(s).pages, d, gone) else Abs(s).pages
  }

  lemma {:induction false} UnmappedNone(s: State, d: nat)
    ensures Unmapped(s, s, d, {})
  {
    hide Abs;
  }

  lemma {:induction false} EntryBound(s: State, k: Key)
    requires Inv(s) && k in s.ptes
    ensures s.ptes[k].frame < NFRAMES && k.dir in s.pc
  {
    hide Account, HeldOk, Sharing, TwinOk, CopyOk, Staff, KernelOk, PcOk, AloneOk, LinkOk;
  }

  /** One more page: unmapped if it is present, skipped otherwise. */
  lemma {:induction false} UnmappedMore(s0: State, s: State, d: nat, gone: set<nat>, v: nat)
    requires Inv(s) && Unmapped(s0, s, d, gone) && At(s, d, Idle) && !s.role[d].Child?
    ensures Key(d, v) !in s.ptes ==> Unmapped(s0, s, d, gone + {v})
    ensures CanUnmap(s, d, v) && Abs(DoUnmap(s, d, v)) == RefNext(Abs(s), if Visible(s.role[d]) then Drop(d, v) else Tau)
            ==> Unmapped(s0, DoUnmap(s, d, v), d, gone + {v})
  {
    hide Inv, Abs, Minus;
    MinusMore(s0.counted, d, gone, v);
    MinusMore(s0.ptes, d, gone, v);
    MinusMore(Abs(s0).pages, d, gone, v);
    AbsentFacts(s, Key(d, v));
    AbsKeys(s, Key(d, v));
    if CanUnmap(s, d, v) {
      UnmapFacts(s, d, v);
    }
  }

  lemma {:induction false} AbsKeys(s: State, k: Key)
    ensures k in Abs(s).pages ==> k in s.counted
  {
  }

  lemma {:induction false} TablesGive(tables: map<Tab, nat>, ptes: map<Key, Pte>, use: seq<Use>, dirs: map<nat, Pc>, f: nat)
    requires TablesOk(tables, ptes, use, dirs) && f < |use|
    requires forall t :: t in tables ==> tables[t] != f && t.dir != f
    ensures TablesOk(tables, ptes, use[f := Free], dirs)
  {
  }

  lemma {:induction false} TablesTake(tables: map<Tab, nat>, ptes: map<Key, Pte>, use: seq<Use>, use': seq<Use>,
                                      dirs: map<nat, Pc>, t: Tab, f: nat)
    requires TablesOk(tables, ptes, use', dirs) && TablesOk(tables, ptes, use, dirs) && t !in tables && t.pdx < NPDENTRIES
    requires |use| == |use'| && f < |use| && use[f] == Free && use' == use[f := Kernel] && f !in dirs
    requires t.dir < |use| && use[t.dir] == Kernel && forall t' :: t' in tables ==> tables[t'] != t.dir
    ensures TablesOk(tables[t := f], ptes, use', dirs)
  {
  }

  /** Frames of the page tables of directory d. */
  ghost function TableFrames(tables: map<Tab, nat>, d: nat): set<nat> {
    set t | t in tables && t.dir == d :: tables[t]
  }

  ghost function OtherTables(tables: map<Tab, nat>, d: nat): map<Tab, nat> {
    map t | t in tables && t.dir != d :: tables[t]
  }

  /** Nothing but the free list and the contents of free frames may differ. */
  ghost predicate SameTables(s: State, s': State) {
    && s'.counted == s.counted && s'.ptes == s.ptes && s'.rc == s.rc
    && s'.slot == s.slot && s'.role == s.role && s'.pc == s.pc && s'.under == s.under && s'.procs == s.procs
    && s'.killed == s.killed && Abs(s') == Abs(s)
  }

  /** From s to s' the kernel gave the frames fs back. */
  ghost predicate GivenBack(s: State, s': State, fs: set<nat>) {
    && SameTables(s, s') && |s.use| == |s'.use|
    && forall f :: 0 <= f < |s.use| ==> s'.use[f] == if f in fs then Free else s.use[f]
  }

  lemma {:induction false} GivenNone(s: State)
    ensures GivenBack(s, s, {})
  {
    hide Abs;
  }

  lemma {:induction false} GivenMore(s0: State, s: State, fs: set<nat>, f: nat)
    requires GivenBack(s0, s, fs) && f < |s.use| && f < |s.frames|
    ensures Abs(Give(s, f)) == Abs(s) ==> GivenBack(s0, Give(s, f), fs + {f})
  {
    hide Abs;
  }

  lemma {:induction false} TableFacts(tables: map<Tab, nat>, ptes: map<Key, Pte>, m: State, t: Tab)
    requires Inv(m) && TablesOk(tables, ptes, m.use, m.pc) && t in tables
    ensures IsSpare(m, tables[t]) && tables[t] < |m.frames|
    ensures forall t' :: t' in tables - {t} ==> tables[t'] != tables[t] && t'.dir != tables[t]
  {
    hide Inv;
    LengthFacts(m);
  }

  lemma {:induction false} TablesDrop(tables: map<Tab, nat>, ptes: map<Key, Pte>, use: seq<Use>, dirs: map<nat, Pc>, t: Tab)
    requires TablesOk(tables, ptes, use, dirs) && forall k :: k in ptes ==> k.dir != t.dir
    ensures TablesOk(tables - {t}, ptes, use, dirs)
  {
  }

  /** The tables left, and the frames given back, when the loop of freevm has reached index i. */
  ghost function TablesFrom(tables: map<Tab, nat>, d: nat, i: nat): map<Tab, nat> {
    map t | t in tables && (t.dir == d ==> t.pdx >= i) :: tables[t]
  }

  ghost function FramesBelow(tables: map<Tab, nat>, d: nat, i: nat): set<nat> {
    set t | t in tables && t.dir == d && t.pdx < i :: tables[t]
  }

  lemma {:induction false} TablesNext(tables: map<Tab, nat>, d: nat, i: nat)
    ensures Tab(d, i) in TablesFrom(tables, d, i) <==> Tab(d, i) in tables
    ensures Tab(d, i) !in tables ==> TablesFrom(tables, d, i + 1) == TablesFrom(tables, d, i)
                                     && FramesBelow(tables, d, i + 1) == FramesBelow(tables, d, i)
    ensures Tab(d, i) in tables ==> TablesFrom(tables, d, i + 1) == TablesFrom(tables, d, i) - {Tab(d, i)}
                                    && FramesBelow(tables, d, i + 1) == FramesBelow(tables, d, i) + {tables[Tab(d, i)]}
                                    && TablesFrom(tables, d, i)[Tab(d, i)] == tables[Tab(d, i)]
  {
    assert forall t :: t in tables && t.dir == d && t.pdx == i ==> t == Tab(d, i);
    if Tab(d, i) in tables {
      var fs, fs' := FramesBelow(tables, d, i), FramesBelow(tables, d, i + 1);
      assert forall f :: f in fs' ==> f in fs + {tables[Tab(d, i)]};
      assert tables[Tab(d, i)] in fs';
      assert forall f :: f in fs ==> f in fs';
    }
  }

  lemma {:induction false} TablesEnds(tables: map<Tab, nat>, d: nat, ptes: map<Key, Pte>, use: seq<Use>, dirs: map<nat, Pc>)
    requires TablesOk(tables, ptes, use, dirs)
    ensures TablesFrom(tables, d, 0) == tables && FramesBelow(tables, d, 0) == {}
    ensures TablesFrom(tables, d, NPDENTRIES) == OtherTables(tables, d)
    ensures FramesBelow(tables, d, NPDENTRIES) == TableFrames(tables, d)
  {
  }

  /** From s to s' directory d went away: its pages, and the kernel frames fs it consisted of. */
  ghost predicate Dismantled(s: State, s': State, d: nat, fs: set<nat>) {
    && s'.counted == Elsewhere(s.counted, d) && s'.ptes == Elsewhere(s.ptes, d)
    && s'.slot == s.slot - {d} && s'.role == s.role - {d} && s'.pc == s.pc - {d} && s'.under == s.under
    && s'.procs == s.procs && s'.killed == s.killed && Abs(s') == Abs(s)
    && |s.use| == |s'.use|
    && forall f :: 0 <= f < |s.use| ==>
         if f in fs then s'.use[f] == Free else s'.use[f] == s.use[f] || (s.use[f] == User && s'.use[f] == Free)
  }

  /** The entries of every directory but d. */
  ghost function Elsewhere<T>(mp: map<Key, T>, d: nat): map<Key, T> {
    map k | k in mp && k.dir != d :: mp[k]
  }

  lemma {:induction false} MinusAll<T>(mp: map<Key, T>, d: nat, vs: set<nat>)
    requires forall k :: k in mp && k.dir == d ==> k.vpn in vs
    ensures Minus(mp, d, vs) == Elsewhere(mp, d)
  {
  }

  /** Starting at page 0, deallocuvm visits every page that has a table. */
  lemma {:induction false} AllVisited(tables: map<Tab, nat>, s: State, s': State, d: nat)
    requires Inv(s) && TablesOk(tables, s.ptes, s.use, s.pc)
    requires Unmapped(s, s', d, Visited(TabsOf(tables, d), 0, KERNPAGES))
    ensures s'.ptes == Elsewhere(s.ptes, d) && s'.counted == Elsewhere(s.counted, d)
    ensures forall k :: k in s'.ptes ==> k.dir != d
  {
    hide Inv, Abs, Visited, Minus, OnlyFreed;
    var tabs := TabsOf(tables, d);
    var vs := Visited(tabs, 0, KERNPAGES);
    forall k | k in s.ptes && k.dir == d ensures k.vpn in vs {
      assert Tab(d, k.vpn / NPTENTRIES).pdx in tabs;
      MissedExactly(tabs, 0, KERNPAGES, k.vpn);
    }
    forall k | k in s.counted ensures k in s.ptes {
      AbsentFacts(s, k);
    }
    MinusAll(s.ptes, d, vs);
    MinusAll(s.counted, d, vs);
  }

  lemma {:induction false} DirPage(tables: map<Tab, nat>, ptes: map<Key, Pte>, m: State, d: nat)
    requires Inv(m) && TablesOk(tables, ptes, m.use, m.pc) && d in m.pc
    ensures forall t :: t in tables ==> tables[t] != d
    ensures d !in TableFrames(tables, d)
  {
    hide Inv;
  }

  lemma {:induction false} OtherPages(tables: map<Tab, nat>, tables': map<Tab, nat>, d: nat, m: State)
    requires tables' == OtherTables(tables, d) && forall t :: t in tables ==> tables[t] != d
    ensures forall t :: t in tables' ==> tables'[t] != d && t.dir != d
  {
  }

  lemma {:induction false} TablesShrink(tables: map<Tab, nat>, ptes: map<Key, Pte>, use: seq<Use>, dirs: map<nat, Pc>,
                                        dirs': map<nat, Pc>)
    requires TablesOk(tables, ptes, use, dirs) && dirs'.Keys <= dirs.Keys
    ensures TablesOk(tables, ptes, use, dirs')
  {
  }

  lemma {:induction false} GivenParts(s: State, s': State, fs: set<nat>)
    requires GivenBack(s, s', fs)
    ensures s'.ptes == s.ptes && s'.pc == s.pc && s'.role == s.role && s'.slot == s.slot && |s'.use| == |s.use|
    ensures forall f :: 0 <= f < |s.use| && f !in fs ==> s'.use[f] == s.use[f]
  {
    hide Abs;
  }

  lemma {:induction false} UnmappedParts(s: State, s': State, d: nat, vs: set<nat>)
    requires Unmapped(s, s', d, vs)
    ensures s'.pc == s.pc && s'.role == s.role && s'.slot == s.slot && |s'.use| == |s.use|
    ensures forall f :: 0 <= f < |s.use| && s.use[f] == Kernel ==> s'.use[f] == Kernel
  {
    hide Abs, Minus;
  }

  lemma {:induction false} Dismantle(s0: State, s1: State, s2: State, s3: State, s4: State, d: nat, vs: set<nat>, fs: set<nat>)
    requires Inv(s0) && d in s0.pc && d in s0.role && s0.role[d].Dying? && |s0.use| == NFRAMES
    requires Unmapped(s0, s1, d, vs) && s1.ptes == Elsewhere(s0.ptes, d) && s1.counted == Elsewhere(s0.counted, d)
    requires GivenBack(s1, s2, fs)
    requires CanDirFree(s2, d) && s3 == DoDirFree(s2, d) && Abs(s3) == Abs(s2)
    requires d < |s3.use| && d < |s3.frames| && s4 == Give(s3, d) && Abs(s4) == Abs(s3)
    ensures Dismantled(s0, s4, d, {d} + fs)
  {
    hide Inv, Abs, Elsewhere, Minus, Filled;
    AbsProcs(s0, s1);
  }

  lemma {:induction false} AbsProcs(s: State, s': State)
    requires s'.procs == s.procs && Abs(s').pages == Abs(s).pages
    ensures Abs(s') == Abs(s)
  {
  }

  /** Page-directory indices of the kernel half: KERNBASE up to PHYSTOP, and the device space. */
  const KTABLES: nat := 64

  function KernelPdx(i: nat): nat {
    if i < 56 then 512 + i else 960 + i
  }

  /** From s to s' a directory d was set up from free frames. */
  ghost predicate NewDir(s: State, tables: map<Tab, nat>, s': State, tables': map<Tab, nat>, d: nat) {
    && SameTables(s, s') && |s.use| == |s'.use| && tables == OtherTables(tables', d)
    && forall f :: 0 <= f < |s.use| ==>
         if f == d || f in TableFrames(tables', d) then s.use[f] == Free && s'.use[f] == Kernel else s'.use[f] == s.use[f]
  }

  lemma {:induction false} NewDirStart(s: State, s': State, tables: map<Tab, nat>, ptes: map<Key, Pte>, d: nat)
    requires Inv(s) && TablesOk(tables, ptes, s.use, s.pc) && ptes == s.ptes
    requires CanKernTake(s) && d == s.free[0] && s' == Take(s, Kernel) && s.use[d] == Free && d !in s'.pc
    ensures IsSpare(s', d) && NewDir(s, tables, s', tables, d)
    ensures (forall k :: k in ptes ==> k.dir != d) && forall t :: t in tables ==> tables[t] != d && t.dir != d
  {
    hide Inv;
    LengthFacts(s);
    forall k | k in ptes ensures k.dir != d {
      EntryBound(s, k);
    }
  }

  lemma {:induction false} NewDirOwn(s: State, tables: map<Tab, nat>, s': State, tables': map<Tab, nat>, d: nat)
    requires NewDir(s, tables, s', tables', d) && forall t :: t in tables' ==> tables'[t] != d
    ensures d !in TableFrames(tables', d)
  {
    hide Abs;
  }

  lemma {:induction false} NewDirTable(s0: State, tables0: map<Tab, nat>, s: State, tables: map<Tab, nat>, d: nat, t: Tab)
    requires NewDir(s0, tables0, s, tables, d) && t.dir == d && t !in tables
    requires CanKernTake(s) && s.use[s.free[0]] == Free
    ensures NewDir(s0, tables0, Take(s, Kernel), tables[t := s.free[0]], d)
  {
    hide PagesOf;
    var f := s.free[0];
    assert OtherTables(tables[t := f], d) == OtherTables(tables, d);
    assert TableFrames(tables[t := f], d) == TableFrames(tables, d) + {f} by {
      assert forall t' :: t' in tables ==> tables[t := f][t'] == tables[t'];
      assert tables[t := f][t] == f;
    }
  }

  lemma {:induction false} NewDirUndone(s0: State, tables0: map<Tab, nat>, s1: State, tables1: map<Tab, nat>, s2: State, s3: State, d: nat)
    requires NewDir(s0, tables0, s1, tables1, d) && GivenBack(s1, s2, TableFrames(tables1, d))
    requires d < |s2.use| && d < |s2.frames| && s3 == Give(s2, d) && Abs(s3) == Abs(s2)
    ensures GivenBack(s0, s3, {}) && OtherTables(tables1, d) == tables0
  {
    hide Abs, TableFrames, OtherTables, Filled;
  }

  // ------------------------------------------------------ copyuvm, page by page

  /** The page tables that i pages from address 0 need. */
  function TablesFor(i: nat): nat {
    (i + NPTENTRIES - 1) / NPTENTRIES
  }

  /** In its user half, directory e has the page tables of its first i pages. */
  ghost predicate TablesUpTo(tables: map<Tab, nat>, e: nat, i: nat) {
    forall x: nat :: x < KERNPAGES / NPTENTRIES ==> (Tab(e, x) in tables <==> x < TablesFor(i))
  }

  lemma {:induction false} TablesUpToMore(tables: map<Tab, nat>, tables': map<Tab, nat>, e: nat, i: nat)
    requires TablesUpTo(tables, e, i) && i < KERNPAGES && tables'.Keys == tables.Keys + {Tab(e, i / NPTENTRIES)}
    ensures TablesUpTo(tables', e, i + 1)
    ensures TablesFor(i + 1) == TablesFor(i) + if Tab(e, i / NPTENTRIES) in tables then 0 else 1
  {
    assert TablesFor(i) == if i % NPTENTRIES == 0 then i / NPTENTRIES else i / NPTENTRIES + 1;
    assert TablesFor(i + 1) == i / NPTENTRIES + 1;
    forall x: nat | x < KERNPAGES / NPTENTRIES ensures Tab(e, x) in tables' <==> x < TablesFor(i + 1) {
      assert Tab(e, x) in tables' <==> Tab(e, x) in tables'.Keys;
    }
  }

  lemma {:induction false} TablesStarted(tables: map<Tab, nat>, e: nat, i: nat, h: nat)
    requires TablesUpTo(tables, e, i) && i < h <= KERNPAGES && Tab(e, i / NPTENTRIES) !in tables
    ensures TablesFor(h) > TablesFor(i)
  {
  }

  /** The first page of directory d below n that is not there, or n. */
  function FirstHole(ptes: map<Key, Pte>, d: nat, n: nat): (h: nat)
    ensures h <= n && (forall v :: 0 <= v < h ==> Key(d, v) in ptes) && (h < n ==> Key(d, h) !in ptes)
  {
    if n == 0 then 0
    else
      var h := FirstHole(ptes, d, n - 1);
      if h < n - 1 || Key(d, n - 1) !in ptes then h else n
  }

  /** From m0, fork has set up the child directory e for slot c and shared the first i pages of d with it. */
  ghost predicate Copying(m0: State, tables0: map<Tab, nat>, m: State, tables: map<Tab, nat>, d: nat, c: nat, e: nat, i: nat) {
    && m.procs == m0.procs && m.killed == m0.killed && Abs(m) == Abs(m0)
    && m.slot == m0.slot[e := c] && m.role == m0.role[e := Child] && m.under == m0.under[e := d]
    && m.pc == m0.pc[d := Building][e := Idle] && d in m0.pc && m0.pc[d] == Idle && e !in m0.pc && e !in m0.under
    && e !in m0.role && e !in m0.slot && d != e
    && Gained(m0.use, m.use, {e} + TableFrames(tables, e)) && tables0 == OtherTables(tables, e)
    && SharedUpTo(m0.ptes, m0.counted, m.ptes, m.counted, d, e, i)
  }

  /** The frames fs were free before and belong to the kernel now; nothing else changed. */
  ghost predicate Gained(use: seq<Use>, use': seq<Use>, fs: set<nat>) {
    |use| == |use'| && forall f :: 0 <= f < |use| ==>
      if f in fs then use[f] == Free && use'[f] == Kernel else use'[f] == use[f]
  }

  /** Entries outside e are as before, but those of d may have lost PTE_W; e has the first i pages. */
  ghost predicate SharedUpTo(ptes0: map<Key, Pte>, counted0: map<Key, nat>, ptes: map<Key, Pte>, counted: map<Key, nat>,
                             d: nat, e: nat, i: nat)
  {
    && counted0 == Elsewhere(counted, e) && ptes0.Keys == Elsewhere(ptes, e).Keys
    && (forall k :: k in ptes0 && k in ptes ==> SameEntry(ptes0[k], ptes[k], k.dir == d))
    && (forall v: nat :: Key(e, v) in ptes <==> v < i) && (forall v: nat :: Key(e, v) in counted <==> v < i)
  }

  lemma {:induction false} SharedClear(ptes0: map<Key, Pte>, counted0: map<Key, nat>, ptes: map<Key, Pte>, counted: map<Key, nat>,
                                       d: nat, e: nat, i: nat, k: Key)
    requires SharedUpTo(ptes0, counted0, ptes, counted, d, e, i) && k in ptes && k.dir == d && d != e
    ensures SharedUpTo(ptes0, counted0, ptes[k := ptes[k].(w := false)], counted, d, e, i)
  {
    var ptes' := ptes[k := ptes[k].(w := false)];
    assert Elsewhere(ptes', e).Keys == Elsewhere(ptes, e).Keys;
  }

  lemma {:induction false} SharedMore(ptes0: map<Key, Pte>, counted0: map<Key, nat>, ptes: map<Key, Pte>, counted: map<Key, nat>,
                                      d: nat, e: nat, i: nat, pte: Pte)
    requires SharedUpTo(ptes0, counted0, ptes, counted, d, e, i) && d != e
    ensures Key(e, i) !in ptes
    ensures SharedUpTo(ptes0, counted0, ptes[Key(e, i) := pte], counted[Key(e, i) := pte.frame], d, e, i + 1)
  {
    var ptes', counted' := ptes[Key(e, i) := pte], counted[Key(e, i) := pte.frame];
    assert Elsewhere(ptes', e).Keys == Elsewhere(ptes, e).Keys;
    assert Elsewhere(counted', e) == Elsewhere(counted, e);
  }

  lemma {:induction false} SharedNone(ptes: map<Key, Pte>, counted: map<Key, nat>, d: nat, e: nat)
    requires forall k :: k in ptes || k in counted ==> k.dir != e
    ensures SharedUpTo(ptes, counted, ptes, counted, d, e, 0)
  {
    assert Elsewhere(counted, e) == counted;
    assert Elsewhere(ptes, e) == ptes;
  }

  ghost predicate SameEntry(a: Pte, b: Pte, mayClear: bool) {
    b.frame == a.frame && b.u == a.u && (b.w == a.w || (mayClear && !b.w))
  }

  /** Fork failed: references, counts, uses and contents are what they were, and d has at most lost PTE_W. */
  ghost predicate ForkUndone(m0: State, m: State, d: nat) {
    && m.counted == m0.counted && m.rc == m0.rc && m.use == m0.use && (forall f :: f in m.free <==> f in m0.free)
    && m.slot == m0.slot && m.role == m0.role && m.pc == m0.pc && m.under == m0.under && m.procs == m0.procs
    && m.killed == m0.killed && Abs(m) == Abs(m0)
    && m.ptes.Keys == m0.ptes.Keys && forall k :: k in m.ptes ==> SameEntry(m0.ptes[k], m.ptes[k], k.dir == d)
  }

  /** Counts and free list are determined by references and uses. */
  lemma {:induction false} SameCounts(s: State, s': State)
    requires Inv(s) && Inv(s') && s'.counted == s.counted && s'.use == s.use
    ensures s'.rc == s.rc && forall f :: f in s'.free <==> f in s.free
  {
    hide UserOk, HeldOk, Sharing, TwinOk, CopyOk, Staff, Flight, KernelOk;
    forall f | 0 <= f < NFRAMES ensures s'.rc[f] == s.rc[f] {
    }
  }

  lemma {:induction false} ForkNotBegun(m0: State, m: State, d: nat)
    requires Inv(m0) && Inv(m) && GivenBack(m0, m, {})
    ensures ForkUndone(m0, m, d)
  {
    hide Inv, Abs;
    assert m.use == m0.use;
    SameCounts(m0, m);
  }

  lemma {:induction false} CopyReady(m0: State, tables0: map<Tab, nat>, m: State, tables: map<Tab, nat>, p: nat, d: nat, c: nat, e: nat)
    requires Inv(m0) && NewDir(m0, tables0, m, tables, e) && IsSpare(m, e)
    requires InUser(m0, p) && m0.procs[p] == d && SlotUnused(m0, c)
    ensures CanForkStart(m, p, c, e) && m.procs == m0.procs
    ensures d != e && e !in m0.pc && e !in m0.under && e !in m0.role && e !in m0.slot && d in m0.pc && m0.pc[d] == Idle
  {
    hide Inv, Abs, OtherTables, TableFrames;
    LengthFacts(m0);
    ProcFacts(m0, p);
    if e in m0.under {
      UnderFacts(m0, e);
    }
  }

  lemma {:induction false} CopyStart(m0: State, tables0: map<Tab, nat>, m: State, tables: map<Tab, nat>, p: nat, d: nat, c: nat, e: nat)
    requires CanForkStart(m, p, c, e) && m0.procs == m.procs && m.procs[p] == d
    requires NewDir(m0, tables0, m, tables, e)
    requires d != e && e !in m0.pc && e !in m0.under && e !in m0.role && e !in m0.slot && d in m0.pc && m0.pc[d] == Idle
    requires forall k :: k in m.ptes || k in m.counted ==> k.dir != e
    ensures Step(m, ForkStart(p, c, e)) == Went(DoForkStart(m, p, c, e))
    ensures RefNext(Abs(m), EventOf(m, ForkStart(p, c, e))) == Abs(m)
    ensures var m' := DoForkStart(m, p, c, e);
      && m'.free == m.free && m'.frames == m.frames && m'.rc == m.rc && m'.ptes == m.ptes && m'.use == m.use
      && m'.pc.Keys == m.pc.Keys + {e}
      && (Abs(m') == Abs(m) ==> Copying(m0, tables0, m', tables, d, c, e, 0))
  {
    hide Abs, OtherTables, TableFrames, SharedUpTo;
    SharedNone(m.ptes, m.counted, d, e);
  }

  lemma {:induction false} TablesDir(tables: map<Tab, nat>, ptes: map<Key, Pte>, use: seq<Use>, dirs: map<nat, Pc>,
                                     dirs': map<nat, Pc>, e: nat)
    requires TablesOk(tables, ptes, use, dirs) && dirs'.Keys <= dirs.Keys + {e}
    requires forall t :: t in tables ==> tables[t] != e
    ensures TablesOk(tables, ptes, use, dirs')
  {
  }

  lemma {:induction false} TablesSet(tables: map<Tab, nat>, ptes: map<Key, Pte>, use: seq<Use>, dirs: map<nat, Pc>, k: Key, e: Pte)
    requires TablesOk(tables, ptes, use, dirs) && k in ptes
    ensures TablesOk(tables, ptes[k := e], use, dirs)
  {
  }

  lemma {:induction false} NoCounted(m: State, e: nat)
    requires Inv(m) && forall k :: k in m.ptes ==> k.dir != e
    ensures forall k :: k in m.counted ==> k.dir != e
  {
    hide Inv;
    forall k | k in m.counted ensures k.dir != e {
      AbsentFacts(m, k);
    }
  }

  lemma {:induction false} TablesPte(tables: map<Tab, nat>, ptes: map<Key, Pte>, use: seq<Use>, dirs: map<nat, Pc>, k: Key, e: Pte)
    requires TablesOk(tables, ptes, use, dirs) && k.vpn < KERNPAGES && Tab(k.dir, k.vpn / NPTENTRIES) in tables
    ensures TablesOk(tables, ptes[k := e], use, dirs)
  {
  }

  lemma {:induction false} CopyBegin(m0: State, tables0: map<Tab, nat>, m: State, tables: map<Tab, nat>, d: nat, c: nat, e: nat, i: nat)
    requires Copying(m0, tables0, m, tables, d, c, e, i)
    ensures InHand(m, e, Child) && m.under[e] == d && d != e && m.pc[e].Idle?
    ensures Key(d, i) in m.ptes <==> Key(d, i) in m0.ptes
    ensures Key(e, i) !in m.ptes && (e < |m.use| ==> m.use[e] == Kernel)
  {
    hide Abs, OtherTables, TableFrames;
    assert Key(d, i) in Elsewhere(m.ptes, e) <==> Key(d, i) in m.ptes;
  }

  lemma {:induction false} CopyClear(m0: State, tables0: map<Tab, nat>, m: State, tables: map<Tab, nat>, d: nat, c: nat, e: nat, i: nat)
    requires Copying(m0, tables0, m, tables, d, c, e, i) && CanForkClear(m, e, i)
    ensures Step(m, ForkClear(e, i)) == Went(DoForkClear(m, e, i))
    ensures RefNext(Abs(m), EventOf(m, ForkClear(e, i))) == Abs(m)
    ensures var m' := DoForkClear(m, e, i);
      && m'.free == m.free && m'.frames == m.frames && m'.rc == m.rc && m'.use == m.use && m'.pc == m.pc
      && m'.ptes == m.ptes[Key(d, i) := m.ptes[Key(d, i)].(w := false)]
      && (Abs(m') == Abs(m) ==> Copying(m0, tables0, m', tables, d, c, e, i))
  {
    hide Abs, OtherTables, TableFrames, Gained, SharedUpTo;
    SharedClear(m0.ptes, m0.counted, m.ptes, m.counted, d, e, i, Key(d, i));
  }

  /** A page table for the child changes only what the child owns. */
  lemma {:induction false} CopyTable(m0: State, tables0: map<Tab, nat>, m: State, tables: map<Tab, nat>, m': State, tables': map<Tab, nat>, d: nat, c: nat, e: nat, i: nat)
    requires Copying(m0, tables0, m, tables, d, c, e, i)
    requires (m' == m && tables' == tables)
          || (CanKernTake(m) && m.use[m.free[0]] == Free && m' == Take(m, Kernel) && Tab(e, i / NPTENTRIES) !in tables
              && tables' == tables[Tab(e, i / NPTENTRIES) := m.free[0]])
    ensures Copying(m0, tables0, m', tables', d, c, e, i)
  {
    hide PagesOf, SharedUpTo, OtherTables, TableFrames;
    if m' != m {
      TableAdded(tables, e, Tab(e, i / NPTENTRIES), m.free[0]);
    }
  }

  lemma {:induction false} TableAdded(tables: map<Tab, nat>, e: nat, t: Tab, f: nat)
    requires t !in tables && t.dir == e
    ensures OtherTables(tables[t := f], e) == OtherTables(tables, e)
    ensures TableFrames(tables[t := f], e) == TableFrames(tables, e) + {f}
  {
    assert forall t' :: t' in tables ==> tables[t := f][t'] == tables[t'];
    assert tables[t := f][t] == f;
  }

  lemma {:induction false} CopyPage(m0: State, tables0: map<Tab, nat>, m: State, tables: map<Tab, nat>, d: nat, c: nat, e: nat, i: nat, pte: Pte)
    requires Copying(m0, tables0, m, tables, d, c, e, i) && CanForkPage(m, e, i)
    requires m.ptes[Key(d, i)] == pte && !pte.w
    ensures Step(m, ForkPage(e, i)) == Went(DoForkPage(m, e, i))
    ensures RefNext(Abs(m), EventOf(m, ForkPage(e, i))) == Abs(m)
    ensures var m' := DoForkPage(m, e, i);
      && m'.free == m.free && m'.frames == m.frames && m'.rc == m.rc[pte.frame := ToChar(m.rc[pte.frame] + 1)]
      && m'.ptes == m.ptes[Key(e, i) := pte] && m'.use == m.use && m'.pc == m.pc
      && (Abs(m') == Abs(m) ==> Copying(m0, tables0, m', tables, d, c, e, i + 1))
  {
    hide Abs, OtherTables, TableFrames, Gained, SharedUpTo;
    assert pte.(w := false) == pte && m.ptes[Key(d, i) := pte] == m.ptes;
    SharedMore(m0.ptes, m0.counted, m.ptes, m.counted, d, e, i, pte);
  }

  lemma {:induction false} CopyAbandon(m0: State, tables0: map<Tab, nat>, m: State, tables: map<Tab, nat>, d: nat, c: nat, e: nat, i: nat)
    requires Copying(m0, tables0, m, tables, d, c, e, i)
    ensures InHand(m, e, Child) && Step(m, ForkFail(e)) == Went(DoAbandon(m, e))
    ensures RefNext(Abs(m), EventOf(m, ForkFail(e))) == Abs(m)
    ensures var m' := DoAbandon(m, e);
      && m'.free == m.free && m'.frames == m.frames && m'.rc == m.rc && m'.ptes == m.ptes && m'.use == m.use
      && m'.pc.Keys == m.pc.Keys && At(m', e, Idle) && m'.role[e].Dying?
  {
    hide Abs, OtherTables, TableFrames, Gained, SharedUpTo;
  }

  lemma {:induction false} CopyDone(m0: State, tables0: map<Tab, nat>, m: State, tables: map<Tab, nat>, d: nat, c: nat, e: nat, i: nat)
    requires Copying(m0, tables0, m, tables, d, c, e, i)
    requires forall k :: k in m0.ptes && k.dir == d ==> k.vpn < i
    ensures CanForkEnd(m, e) && m.under[e] == d && m.slot[e] == c && Abs(m) == Abs(m0) && m.procs == m0.procs
  {
    hide Abs, OtherTables, TableFrames, Gained;
    forall k | k in m.ptes && k.dir == d ensures Key(e, k.vpn) in m.ptes {
      assert k in Elsewhere(m.ptes, e);
    }
  }

  /** Tearing the child down again leaves everything as it was before fork. */
  lemma {:induction false} CopyUndone(m0: State, tables0: map<Tab, nat>, m: State, tables: map<Tab, nat>, m1: State, m2: State, d: nat, c: nat, e: nat, i: nat)
    requires Inv(m0) && Inv(m2) && Copying(m0, tables0, m, tables, d, c, e, i)
    requires e in m.under && m1 == DoAbandon(m, e) && Abs(m1) == Abs(m)
    requires Dismantled(m1, m2, e, {e} + TableFrames(tables, e))
    ensures ForkUndone(m0, m2, d) && tables0 == OtherTables(tables, e)
  {
    hide Inv, Abs, OtherTables, TableFrames;
    UsersStay(m0, m2);
    assert m2.use == m0.use;
    SameCounts(m0, m2);
    assert m2.slot == m0.slot && m2.role == m0.role && m2.under == m0.under && m2.pc == m0.pc;
  }

  lemma {:induction false} UsersStay(s: State, s': State)
    requires Inv(s) && Inv(s') && s'.counted == s.counted
    ensures |s.use| == |s'.use| == NFRAMES && forall f :: 0 <= f < NFRAMES && s.use[f] == User ==> s'.use[f] == User
  {
    hide Inv;
    LengthFacts(s);
    LengthFacts(s');
    forall f | 0 <= f < NFRAMES && s.use[f] == User ensures s'.use[f] == User {
      UserHasRef(s, f);
      var k :| k in s.counted && s.counted[k] == f;
      CountFacts(s', k);
    }
  }

  lemma {:induction false} UserHasRef(s: State, f: nat)
    requires Inv(s) && f < NFRAMES && f < |s.use| && s.use[f] == User
    ensures exists k :: k in s.counted && s.counted[k] == f
  {
    hide FreeOk, UserOk, HeldOk, Sharing, TwinOk, CopyOk, Staff, Flight, KernelOk;
    assert |RefsOf(s.counted, f)| > 0;
    var k :| k in RefsOf(s.counted, f);
  }

  // ------------------------------------------------------ fork

  lemma {:induction false} StackTaken(m0: State, m1: State, tables: map<Tab, nat>, ptes: map<Key, Pte>, f: nat)
    requires Inv(m0) && TablesOk(tables, ptes, m0.use, m0.pc) && CanKernTake(m0) && f == m0.free[0] && m1 == Take(m0, Kernel)
    requires m0.use[f] == Free
    ensures m1.procs == m0.procs && m1.pc == m0.pc && m1.slot == m0.slot && m1.role == m0.role && m1.ptes == m0.ptes
    ensures Abs(m1) == Abs(m0)
    ensures forall t :: t in tables ==> tables[t] != f && t.dir != f
  {
    hide Inv, PagesOf;
    LengthFacts(m0);
  }

  lemma {:induction false} StackSpare(m0: State, m1: State, m2: State, d: nat, f: nat)
    requires CanKernTake(m0) && f == m0.free[0] && m1 == Take(m0, Kernel) && f !in m1.pc && f < NFRAMES
    requires Inv(m2) && ForkUndone(m1, m2, d)
    ensures IsSpare(m2, f) && f < |m2.frames|
  {
    hide Inv, Abs;
    LengthFacts(m2);
  }

  lemma {:induction false} StackReturned(m0: State, m1: State, m2: State, m3: State, d: nat, f: nat)
    requires Inv(m0) && Inv(m3) && CanKernTake(m0) && f == m0.free[0] && m1 == Take(m0, Kernel) && m0.use[f] == Free
    requires Abs(m1) == Abs(m0) && ForkUndone(m1, m2, d) && IsSpare(m2, f) && f < |m2.frames|
    requires m3 == Give(m2, f) && Abs(m3) == Abs(m2)
    ensures ForkUndone(m0, m3, d)
  {
    hide Inv, Abs, Filled;
    assert m3.use == m0.use;
    SameCounts(m0, m3);
  }

  lemma {:induction false} ForkEnded(m: State, e: nat)
    requires CanForkEnd(m, e)
    ensures Step(m, ForkEnd(e)) == Went(DoForkEnd(m, e)) && EventOf(m, ForkEnd(e)) == CopyAll(m.under[e], e, m.slot[e])
    ensures var m' := DoForkEnd(m, e);
      && m'.free == m.free && m'.frames == m.frames && m'.rc == m.rc && m'.ptes == m.ptes && m'.use == m.use
      && (m.under[e] in m.pc ==> m'.pc.Keys <= m.pc.Keys)
  {
  }

  lemma {:induction false} ResultFields(m: State, n: State, d: nat, v: nat)
    requires SharedPage(m, Key(d, v)) && m.free != [] && FaultResult(m, n, d, v)
    ensures n.rc == m.rc[m.ptes[Key(d, v)].frame := ToChar(m.rc[m.ptes[Key(d, v)].frame] - 1)]
                        [m.free[0] := ToChar(m.rc[m.free[0]] + 1)]
    ensures n.ptes == m.ptes[Key(d, v) := Pte(m.free[0], true, true)] && n.pc == m.pc && n.free == m.free[1..]
    ensures KernelKept(m.use, n.use) && m.ptes[Key(d, v)].frame != m.free[0]
  {
  }

  // ------------------------------------------------------ pagefault

  lemma {:induction false} TableThere(tables: map<Tab, nat>, ptes: map<Key, Pte>, m: State, k: Key)
    requires TablesOk(tables, ptes, m.use, m.pc)
    ensures k in ptes ==> k.vpn < KERNPAGES && Tab(k.dir, k.vpn / NPTENTRIES) in tables
  {
  }

  ghost predicate Faulting(m: State, p: nat, d: nat, v: nat) {
    InUser(m, p) && m.procs[p] == d && d in m.slot && m.slot[d] == p && |m.frames| == |m.rc| == |m.use|
  }

  lemma {:induction false} FaultKills(m: State, p: nat, d: nat, v: nat)
    requires Faulting(m, p, d, v) && (Key(d, v) in m.ptes ==> !m.ptes[Key(d, v)].u && m.ptes[Key(d, v)].frame < |m.rc|)
    ensures Step(m, FaultEnter(p, v)) == Went(m.(killed := m.killed + {p}))
    ensures RefNext(Abs(m), EventOf(m, FaultEnter(p, v))) == Abs(m)
  {
    hide Abs;
  }

  lemma {:induction false} FaultEnables(m: State, p: nat, d: nat, v: nat)
    requires Faulting(m, p, d, v) && Key(d, v) in m.ptes && m.ptes[Key(d, v)].u && !m.ptes[Key(d, v)].w
    requires m.ptes[Key(d, v)].frame < |m.rc| && m.rc[m.ptes[Key(d, v)].frame] == 1
    ensures var m1 := SetPc(m, d, FaultAlone(v, m.ptes[Key(d, v)].frame));
      && Step(m, FaultEnter(p, v)) == Went(m1)
      && Step(m1, FaultEnable(d)) == Went(m.(ptes := m.ptes[Key(d, v) := m.ptes[Key(d, v)].(w := true)]))
      && RefNext(Abs(m), EventOf(m, FaultEnter(p, v))) == Abs(m)
      && RefNext(Abs(m1), EventOf(m1, FaultEnable(d))) == Abs(m1)
  {
    hide Abs;
    assert m.pc[d := FaultAlone(v, m.ptes[Key(d, v)].frame)][d := Idle] == m.pc;
  }

  ghost predicate SharedPage(m: State, k: Key) {
    k in m.ptes && m.ptes[k].u && !m.ptes[k].w && m.ptes[k].frame < |m.rc| && m.rc[m.ptes[k].frame] > 1
  }

  ghost predicate NoneLeaked(use: seq<Use>, use': seq<Use>) {
    |use| == |use'| && forall f :: 0 <= f < |use| && use'[f] == Leaked ==> use[f] == Leaked
  }

  lemma {:induction false} FaultNoted(m: State, p: nat, d: nat, v: nat)
    requires Faulting(m, p, d, v) && SharedPage(m, Key(d, v))
    ensures Step(m, FaultEnter(p, v)) == Went(SetPc(m, d, FaultShared(v, m.ptes[Key(d, v)].frame)))
    ensures RefNext(Abs(m), EventOf(m, FaultEnter(p, v))) == Abs(m)
    ensures SetPc(m, d, FaultShared(v, m.ptes[Key(d, v)].frame)).free == m.free
  {
    hide Abs;
  }

  lemma {:induction false} FaultStarves(m: State, m1: State, p: nat, d: nat, v: nat)
    requires Faulting(m, p, d, v) && SharedPage(m, Key(d, v)) && m.free == []
    requires m1 == SetPc(m, d, FaultShared(v, m.ptes[Key(d, v)].frame))
    ensures Step(m1, FaultAlloc(d)) == Went(m.(killed := m.killed + {p}))
    ensures RefNext(Abs(m1), EventOf(m1, FaultAlloc(d))) == Abs(m1)
  {
    hide Abs;
    assert m.pc[d := FaultShared(v, m.ptes[Key(d, v)].frame)][d := Idle] == m.pc;
  }

  /** A fault on a shared page takes a frame and copies the contents. */
  lemma {:induction false} FaultTakes(m1: State, d: nat, v: nat, f: nat)
    requires d in m1.pc && d in m1.slot && m1.pc[d] == FaultShared(v, f) && m1.free != []
    requires |m1.frames| == |m1.rc| == |m1.use| && f < |m1.rc| && m1.free[0] < |m1.rc|
    ensures CanFaultAlloc(m1, d) && Step(m1, FaultAlloc(d)) == Went(DoFaultAlloc(m1, d))
    ensures var m2 := DoFaultAlloc(m1, d);
      && CanFaultCopy(m2, d) && Step(m2, FaultCopy(d)) == Went(DoFaultCopy(m2, d))
      && RefNext(Abs(m1), EventOf(m1, FaultAlloc(d))) == Abs(m1)
      && RefNext(Abs(m2), EventOf(m2, FaultCopy(d))) == Abs(m2)
    ensures DoFaultCopy(DoFaultAlloc(m1, d), d) ==
      var mem := m1.free[0];
      m1.(free := m1.free[1..], frames := m1.frames[mem := m1.frames[f]], use := m1.use[mem := Held(d)],
          pc := m1.pc[d := FaultCopied(v, f, mem)])
  {
    hide Abs;
    var mem := m1.free[0];
    assert m1.pc[d := FaultHeld(v, f, mem)][d := FaultCopied(v, f, mem)] == m1.pc[d := FaultCopied(v, f, mem)];
  }

  /** It then moves the counts and rewrites its entry. */
  lemma {:induction false} FaultMoves(m3: State, d: nat, v: nat, f: nat, mem: nat)
    requires d in m3.pc && m3.pc[d] == FaultCopied(v, f, mem)
    requires |m3.frames| == |m3.rc| == |m3.use| && f < |m3.rc| && mem < |m3.rc| && f != mem && 1 < m3.rc[f] <= NPROC
    ensures CanFaultDrop(m3, d) && Step(m3, FaultDrop(d)) == Went(DoFaultDrop(m3, d))
    ensures var m4 := DoFaultDrop(m3, d);
      && CanFaultSet(m4, d) && Step(m4, FaultSet(d)) == Went(DoFaultSet(m4, d))
      && RefNext(Abs(m3), EventOf(m3, FaultDrop(d))) == Abs(m3)
      && RefNext(Abs(m4), EventOf(m4, FaultSet(d))) == Abs(m4)
    ensures DoFaultSet(DoFaultDrop(m3, d), d) ==
      m3.(rc := m3.rc[f := ToChar(m3.rc[f] - 1)][mem := ToChar(m3.rc[mem] + 1)], use := m3.use[mem := User],
          counted := m3.counted[Key(d, v) := mem], ptes := m3.ptes[Key(d, v) := Pte(mem, true, true)],
          pc := m3.pc[d := Idle])
  {
    hide Abs;
    assert m3.pc[d := FaultDropped(v, f, mem)][d := Idle] == m3.pc[d := Idle];
    assert ToChar(m3.rc[f] - 1) == m3.rc[f] - 1;
  }

  /** From m, the fault of directory d at v has taken the first free frame and copied the contents into it. */
  ghost predicate Fetched(m: State, m3: State, d: nat, v: nat)
    requires SharedPage(m, Key(d, v))
  {
    var f := m.ptes[Key(d, v)].frame;
    && m.free != [] && f < |m.frames| == |m.rc| == |m.use| && m.free[0] < |m.rc| && f != m.free[0] && m.use[m.free[0]] == Free
    && m3 == m.(free := m.free[1..], frames := m.frames[m.free[0] := m.frames[f]], use := m.use[m.free[0] := Held(d)],
                pc := m.pc[d := FaultCopied(v, f, m.free[0])])
  }

  lemma {:induction false} HeldKeeps(use: seq<Use>, f: nat, d: nat)
    requires f < |use| && use[f] == Free
    ensures KernelKept(use, use[f := Held(d)])
  {
  }

  lemma {:induction false} FaultEndsIn(m: State, m3: State, n: State, d: nat, v: nat)
    requires SharedPage(m, Key(d, v)) && d in m.pc && m.pc[d] == Idle && Fetched(m, m3, d, v)
    requires var f, mem := m.ptes[Key(d, v)].frame, m.free[0];
      n == m3.(rc := m3.rc[f := ToChar(m3.rc[f] - 1)][mem := ToChar(m3.rc[mem] + 1)], use := m3.use[mem := User],
               counted := m3.counted[Key(d, v) := mem], ptes := m3.ptes[Key(d, v) := Pte(mem, true, true)],
               pc := m3.pc[d := Idle])
    ensures FaultResult(m, n, d, v)
  {
    assert n.pc == m.pc;
  }

  lemma {:induction false} FaultFinish(m: State, m3: State, d: nat, v: nat)
    requires SharedPage(m, Key(d, v)) && d in m.pc && m.pc[d] == Idle && Fetched(m, m3, d, v)
    requires m.rc[m.ptes[Key(d, v)].frame] <= NPROC
    ensures CanFaultDrop(m3, d) && Step(m3, FaultDrop(d)) == Went(DoFaultDrop(m3, d))
    ensures var m4 := DoFaultDrop(m3, d);
      && CanFaultSet(m4, d) && Step(m4, FaultSet(d)) == Went(DoFaultSet(m4, d))
      && RefNext(Abs(m3), EventOf(m3, FaultDrop(d))) == Abs(m3)
      && RefNext(Abs(m4), EventOf(m4, FaultSet(d))) == Abs(m4)
      && FaultResult(m, DoFaultSet(m4, d), d, v)
    ensures m3.ptes == m.ptes && m3.rc == m.rc && m3.free == m.free[1..]
    ensures m3.frames == DoFaultSet(DoFaultDrop(m3, d), d).frames
  {
    hide Abs, Step, RefNext, EventOf, DoFaultDrop, DoFaultSet, FaultResult;
    FaultMoves(m3, d, v, m.ptes[Key(d, v)].frame, m.free[0]);
    FaultEndsIn(m, m3, DoFaultSet(DoFaultDrop(m3, d), d), d, v);
  }

  ghost predicate FaultResult(m: State, n: State, d: nat, v: nat)
    requires SharedPage(m, Key(d, v)) && m.free != []
  {
    var f, mem := m.ptes[Key(d, v)].frame, m.free[0];
    && n.pc == m.pc && n.procs == m.procs && n.slot == m.slot && n.role == m.role && n.free == m.free[1..]
    && f < |m.frames| == |m.rc| && mem < |m.rc| && f != mem
    && n.frames == m.frames[mem := m.frames[f]]
    && n.rc == m.rc[f := ToChar(m.rc[f] - 1)][mem := ToChar(m.rc[mem] + 1)]
    && n.ptes == m.ptes[Key(d, v) := Pte(mem, true, true)]
    && KernelKept(m.use, n.use) && NoneLeaked(m.use, n.use)
  }

  // ------------------------------------------------------ allocuvm

  datatype GrowResult = Mapped | Missed | NoMemory

  ghost function PageKeys(d: nat, vs: set<nat>): set<Key> {
    set v | v in vs :: Key(d, v)
  }

  ghost function Zeroed(d: nat, vs: set<nat>): map<Key, Page> {
    map k | k in PageKeys(d, vs) :: Filled(0)
  }

  /** From m0 to m directory d gained zero pages at vs and nothing else that a process can see changed. */
  ghost predicate Grown(m0: State, m: State, d: nat, vs: set<nat>) {
    && m.pc == m0.pc && m.role == m0.role && m.slot == m0.slot && m.under == m0.under && m.procs == m0.procs
    && m.ptes.Keys == m0.ptes.Keys + PageKeys(d, vs)
    && Abs(m) == Abs(m0).(pages := Abs(m0).pages + Zeroed(d, vs))
  }

  lemma {:induction false} GrowTakes(m: State, d: nat, v: nat)
    requires At(m, d, Idle) && Visible(m.role[d]) && Key(d, v) !in m.ptes
    requires m.free != [] && |m.frames| == |m.rc| == |m.use| && m.free[0] < |m.use| && m.use[m.free[0]] == Free
    ensures CanGrowAlloc(m, d, v) && Step(m, GrowAlloc(d, v)) == Went(DoGrowAlloc(m, d, v))
    ensures RefNext(Abs(m), EventOf(m, GrowAlloc(d, v))) == Abs(m)
    ensures Taking(m, DoGrowAlloc(m, d, v), d, v, m.free[0])
    ensures var m' := DoGrowAlloc(m, d, v);
      && m'.free == m.free[1..] && m'.frames == m.frames[m.free[0] := Filled(0)] && KernelKept(m.use, m'.use)
      && m'.pc.Keys == m.pc.Keys
  {
    hide Abs;
  }

  /** From m0, growth of directory d at v has a zeroed frame in hand. */
  ghost predicate Taking(m0: State, m: State, d: nat, v: nat, mem: nat) {
    && At(m, d, GrowHeld(v, mem)) && m.pc == m0.pc[d := GrowHeld(v, mem)] && mem < |m.use| && m.use[mem] == Held(d)
    && m.role == m0.role && m.slot == m0.slot && m.under == m0.under && m.procs == m0.procs
    && m.ptes == m0.ptes && m.rc == m0.rc && |m.rc| == |m.use| && d in m0.pc && m0.pc[d] == Idle && Key(d, v) !in m0.ptes
  }

  lemma {:induction false} DirUse(m: State, tables: map<Tab, nat>, ptes: map<Key, Pte>, m0: State, d: nat)
    requires Inv(m) && TablesOk(tables, ptes, m0.use, m0.pc) && d in m0.pc && d in m.pc
    ensures d < |m.use| && m.use[d] == Kernel && forall t :: t in tables ==> tables[t] != d
  {
    hide Inv;
    LengthFacts(m);
  }

  lemma {:induction false} GrowWalks(m0: State, m1: State, m2: State, d: nat, v: nat, mem: nat)
    requires Taking(m0, m1, d, v, mem) && Abs(m1) == Abs(m0)
    requires m2 == m1 || (CanKernTake(m1) && m1.use[m1.free[0]] == Free && m2 == Take(m1, Kernel))
    ensures Taking(m0, m2, d, v, mem) && Abs(m2) == Abs(m0)
  {
    hide PagesOf;
  }

  lemma {:induction false} GrowMaps(m0: State, m: State, d: nat, v: nat, mem: nat)
    requires Taking(m0, m, d, v, mem) && Abs(m) == Abs(m0)
    ensures CanGrowMap(m, d) && Step(m, GrowMap(d, true)) == Went(DoGrowMap(m, d, true))
    ensures RefNext(Abs(m), EventOf(m, GrowMap(d, true))) == Abs(m0).(pages := Abs(m0).pages[Key(d, v) := Filled(0)])
    ensures var m' := DoGrowMap(m, d, true);
      && m'.pc == m0.pc && m'.role == m0.role && m'.slot == m0.slot && m'.under == m0.under && m'.procs == m0.procs
      && m'.ptes == m.ptes[Key(d, v) := Pte(mem, true, true)] && m'.rc == m.rc[mem := ToChar(m.rc[mem] + 1)]
      && m'.free == m.free && m'.frames == m.frames && KernelKept(m.use, m'.use)
      && m'.pc.Keys == m.pc.Keys
  {
    hide Abs;
    assert m.pc[d := Idle] == m0.pc;
  }

  lemma {:induction false} GrowLoses(m0: State, m: State, d: nat, v: nat, mem: nat)
    requires Taking(m0, m, d, v, mem) && Abs(m) == Abs(m0)
    ensures CanGrowMap(m, d) && Step(m, GrowMiss(d)) == Went(DoGrowMiss(m, d))
    ensures RefNext(Abs(m), EventOf(m, GrowMiss(d))) == Abs(m0)
    ensures var m' := DoGrowMiss(m, d);
      && m'.pc == m0.pc && m'.role == m0.role && m'.slot == m0.slot && m'.under == m0.under && m'.procs == m0.procs
      && m'.ptes == m.ptes && m'.rc == m.rc[mem := ToChar(m.rc[mem] + 1)]
      && m'.free == m.free && m'.frames == m.frames && KernelKept(m.use, m'.use)
      && m'.pc.Keys == m.pc.Keys
  {
    hide Abs;
    assert m.pc[d := Idle] == m0.pc;
  }

  lemma {:induction false} GrownOne(m0: State, m: State, d: nat, v: nat, e: Pte)
    requires m.pc == m0.pc && m.role == m0.role && m.slot == m0.slot && m.under == m0.under && m.procs == m0.procs
    requires m.ptes == m0.ptes[Key(d, v) := e] && Abs(m) == Abs(m0).(pages := Abs(m0).pages[Key(d, v) := Filled(0)])
    ensures Grown(m0, m, d, {v})
  {
    hide Abs, Filled;
    assert PageKeys(d, {v}) == {Key(d, v)};
    assert Abs(m0).pages + Zeroed(d, {v}) == Abs(m0).pages[Key(d, v) := Filled(0)];
  }

  lemma {:induction false} GrownNone(m0: State, m: State, d: nat)
    requires m.pc == m0.pc && m.role == m0.role && m.slot == m0.slot && m.under == m0.under && m.procs == m0.procs
    requires m.ptes == m0.ptes && Abs(m) == Abs(m0)
    ensures Grown(m0, m, d, {})
  {
    hide Abs;
    assert PageKeys(d, {}) == {};
    assert Abs(m0).pages + Zeroed(d, {}) == Abs(m0).pages;
  }

  lemma {:induction false} ZeroedMore(pages: map<Key, Page>, d: nat, vs: set<nat>, ws: set<nat>)
    ensures PageKeys(d, vs + ws) == PageKeys(d, vs) + PageKeys(d, ws)
    ensures pages + Zeroed(d, vs) + Zeroed(d, ws) == pages + Zeroed(d, vs + ws)
  {
    hide Filled;
    assert forall k :: k in PageKeys(d, vs + ws) <==> k in PageKeys(d, vs) || k in PageKeys(d, ws);
  }

  lemma {:induction false} GrownMore(m0: State, m1: State, m2: State, d: nat, vs: set<nat>, ws: set<nat>)
    requires Grown(m0, m1, d, vs) && Grown(m1, m2, d, ws)
    ensures Grown(m0, m2, d, vs + ws)
  {
    hide Abs, Filled, PageKeys, Zeroed;
    ZeroedMore(Abs(m0).pages, d, vs, ws);
  }

  function Span(a: nat, b: nat): set<nat> {
    if a >= b then {} else Span(a, b - 1) + {b - 1}
  }

  lemma {:induction false} SpanIn(a: nat, b: nat, v: nat)
    ensures v in Span(a, b) <==> a <= v < b
  {
    if a < b {
      SpanIn(a, b - 1, v);
    }
  }

  lemma {:induction false} SpanNone(a: nat)
    ensures Span(a, a) == {}
  {
  }

  /** What becomes of the pages grown when page a is mapped, or missed; and which they are after a miss. */
  lemma {:induction false} SpanNext(lo: nat, a: nat, missed: set<nat>)
    requires lo <= a && (missed == {} || (lo < a && missed == {a - 1}))
    ensures missed == {} ==> Span(lo, a) - missed + {a} == Span(lo, a + 1) - missed
    ensures missed == {} ==> Span(lo, a) - missed + {} == Span(lo, a + 1) - {a}
    ensures missed != {} ==> Span(lo, a) - missed == Span(lo, a - 1)
    ensures missed == {} ==> Span(lo, a) - missed == Span(lo, a)
  {
    SpanIn(lo, a, a);
    if missed != {} {
      SpanIn(lo, a - 1, a - 1);
    }
  }

  lemma {:induction false} GrownParts(m0: State, m: State, d: nat, vs: set<nat>)
    requires Grown(m0, m, d, vs)
    ensures m.pc == m0.pc && m.role == m0.role && m.slot == m0.slot && m.under == m0.under && m.procs == m0.procs
    ensures forall k :: k in m.ptes ==> k in m0.ptes || (k.dir == d && k.vpn in vs)
  {
    hide Abs;
  }

  /** Page v needs a page table that directory d does not have, the first such page from lo on. */
  predicate OpensTable(tabs: set<nat>, lo: nat, v: nat) {
    v / NPTENTRIES !in tabs && (v == lo || v % NPTENTRIES == 0)
  }

  /** The frames that growing from page lo to page a takes. */
  function GrowthNeeds(tabs: set<nat>, lo: nat, a: nat): nat
    decreases a
  {
    if a <= lo then 0 else GrowthNeeds(tabs, lo, a - 1) + if OpensTable(tabs, lo, a - 1) then 2 else 1
  }

  /** Growing from page lo to page hi runs out of frames at the page table of the last page. */
  predicate MissesLast(tabs: set<nat>, lo: nat, hi: nat, free: nat) {
    lo < hi && OpensTable(tabs, lo, hi - 1) && free == GrowthNeeds(tabs, lo, hi) - 1
  }

  lemma {:induction false} NeedsGrow(tabs: set<nat>, lo: nat, a: nat, b: nat)
    requires a <= b
    requires lo <= a
    ensures GrowthNeeds(tabs, lo, a) + b - a <= GrowthNeeds(tabs, lo, b)
    decreases b
  {
    if a < b {
      NeedsGrow(tabs, lo, a, b - 1);
    }
  }

  /** Out of frames before the last page. */
  lemma {:induction false} NeedsUnmet(tabs: set<nat>, lo: nat, a: nat, hi: nat, free: nat)
    requires lo <= a < hi
    requires free == GrowthNeeds(tabs, lo, a) || free == GrowthNeeds(tabs, lo, a) - 1
    ensures free < GrowthNeeds(tabs, lo, hi) && !MissesLast(tabs, lo, hi, free)
  {
    hide OpensTable;
    NeedsGrow(tabs, lo, a + 1, hi);
  }

  /** Directory d has got the page tables of the pages from lo to a. */
  ghost predicate TablesGrown(tabs: set<nat>, tables: map<Tab, nat>, d: nat, lo: nat, a: nat) {
    forall x: nat :: Tab(d, x) in tables <==> x in tabs || (lo < a && lo / NPTENTRIES <= x <= (a - 1) / NPTENTRIES)
  }

  lemma {:induction false} TablesGrownNone(tables: map<Tab, nat>, d: nat, lo: nat)
    ensures TablesGrown(TabsOf(tables, d), tables, d, lo, lo)
  {
    forall x: nat ensures Tab(d, x) in tables <==> x in TabsOf(tables, d) {
      assert Tab(d, x) in tables ==> Tab(d, x).pdx in TabsOf(tables, d);
    }
  }

  lemma {:induction false} TablesGrownMore(tabs: set<nat>, tables: map<Tab, nat>, tables': map<Tab, nat>, d: nat, lo: nat, a: nat)
    requires TablesGrown(tabs, tables, d, lo, a) && lo <= a && tables'.Keys == tables.Keys + {Tab(d, a / NPTENTRIES)}
    ensures TablesGrown(tabs, tables', d, lo, a + 1)
  {
    forall x: nat ensures Tab(d, x) in tables' <==> x in tabs || lo / NPTENTRIES <= x <= a / NPTENTRIES {
      assert Tab(d, x) in tables' <==> Tab(d, x) in tables'.Keys;
    }
  }

  lemma {:induction false} TableOpened(tabs: set<nat>, tables: map<Tab, nat>, d: nat, lo: nat, a: nat)
    requires TablesGrown(tabs, tables, d, lo, a) && lo <= a
    ensures Tab(d, a / NPTENTRIES) !in tables <==> OpensTable(tabs, lo, a)
  {
  }

  /** Removing exactly what was added. */
  lemma {:induction false} MinusUndo<T>(base: map<Key, T>, extra: map<Key, T>, d: nat, vs: set<nat>)
    requires forall k :: k in base ==> !(k.dir == d && k.vpn in vs)
    requires forall k :: k in extra ==> k.dir == d && k.vpn in vs
    ensures Minus(base + extra, d, vs) == base
  {
  }

  /** The loop of deallocuvm finds every page that a loop of allocuvm from the same address mapped without a miss. */
  lemma {:induction false} GrownVisited(m1: State, tables: map<Tab, nat>, d: nat, lo: nat, a: nat, hi: nat)
    requires TablesOk(tables, m1.ptes, m1.use, m1.pc) && lo <= a < hi
    requires forall v :: v in Span(lo, a) ==> Key(d, v) in m1.ptes
    ensures forall v :: v in Span(lo, a) ==> v in Visited(TabsOf(tables, d), lo, hi)
    ensures forall v :: v in Visited(TabsOf(tables, d), lo, hi) ==> v >= lo
  {
    hide Span, Visited;
    var tabs := TabsOf(tables, d);
    VisitedFrom(tabs, lo, hi);
    forall v | v in Span(lo, a) ensures v in Visited(tabs, lo, hi) {
      SpanIn(lo, a, v);
      SpanIn(lo, a, lo);
      assert Tab(d, lo / NPTENTRIES).pdx in tabs;
      assert Tab(d, v / NPTENTRIES).pdx in tabs;
      MissedExactly(tabs, lo, hi, v);
    }
  }

  /** allocuvm gives back what it grew: if no page was missed, nothing remains of it. */
  lemma {:induction false} GrownUndone(m0: State, m1: State, m2: State, d: nat, lo: nat, grown: set<nat>, vs: set<nat>)
    requires Inv(m0) && Grown(m0, m1, d, grown) && Unmapped(m1, m2, d, vs) && d in m1.role && Visible(m1.role[d])
    requires forall v :: v in grown ==> v in vs
    requires forall v :: v in vs ==> v >= lo
    requires forall k :: k in m0.ptes && k.dir == d ==> k.vpn < lo
    ensures Abs(m2) == Abs(m0) && m2.ptes.Keys == m0.ptes.Keys
  {
    hide Inv, Abs, Minus, OnlyFreed;
    forall k | k in Abs(m0).pages ensures !(k.dir == d && k.vpn in vs) {
      AbsKeys(m0, k);
      AbsentFacts(m0, k);
    }
    MinusUndo(Abs(m0).pages, Zeroed(d, grown), d, vs);
    MinusKeys(m1.ptes, d, vs);
    AbsProcs(m0, m2);
  }

  lemma {:induction false} GrownThere(m0: State, m: State, d: nat, vs: set<nat>)
    requires Grown(m0, m, d, vs)
    ensures forall v :: v in vs ==> Key(d, v) in m.ptes
  {
    hide Abs;
    forall v | v in vs ensures Key(d, v) in m.ptes {
      assert Key(d, v) in PageKeys(d, vs);
    }
  }

  lemma {:induction false} UnmappedSame(s: State, s': State, d: nat, vs: set<nat>)
    requires Unmapped(s, s', d, vs)
    ensures s'.pc == s.pc && s'.role == s.role && s'.procs == s.procs
  {
    hide Abs, Minus, OnlyFreed;
  }

  lemma {:induction false} MinusKeys<T>(mp: map<Key, T>, d: nat, vs: set<nat>)
    ensures forall k :: k in Minus(mp, d, vs) <==> k in mp && !(k.dir == d && k.vpn in vs)
  {
  }

  // ------------------------------------------------------ growproc

  const UINT: int := 0x1_0000_0000

  /** The pages of directory d are those below sz bytes. */
  ghost predicate Covers(ptes: map<Key, Pte>, d: nat, sz: nat) {
    forall v: nat :: Key(d, v) in ptes <==> v < Pages(sz)
  }

  lemma {:induction false} GrownCovers(m0: State, m: State, d: nat, sz: nat, newsz: nat, missed: set<nat>)
    requires Grown(m0, m, d, Span(Pages(sz), Pages(newsz)) - missed) && Covers(m0.ptes, d, sz) && sz <= newsz
    requires missed <= Span(Pages(sz), Pages(newsz))
    ensures Covers(m.ptes, d, newsz) <==> missed == {}
  {
    hide Abs, Span;
    var vs := Span(Pages(sz), Pages(newsz)) - missed;
    forall v: nat ensures Key(d, v) in m.ptes <==> v < Pages(newsz) && v !in missed {
      SpanIn(Pages(sz), Pages(newsz), v);
      assert Key(d, v) in PageKeys(d, vs) <==> v in vs;
    }
    if missed != {} {
      var v :| v in missed;
      SpanIn(Pages(sz), Pages(newsz), v);
      assert Key(d, v) !in m.ptes;
    }
  }

  lemma {:induction false} MinusNothing<T>(mp: map<Key, T>, d: nat)
    ensures Minus(mp, d, {}) == mp
  {
  }

  lemma {:induction false} UnmappedEntries(s: State, s': State, d: nat, vs: set<nat>)
    requires Unmapped(s, s', d, vs) && d in s.role && Visible(s.role[d])
    ensures s'.ptes == Minus(s.ptes, d, vs) && Abs(s').pages == Minus(Abs(s).pages, d, vs) && s'.procs == s.procs
  {
    hide Abs, Minus, OnlyFreed;
  }

  /** The pages without those of directory d from page n on. */
  ghost function PagesBelow<T>(pages: map<Key, T>, d: nat, n: nat): map<Key, T> {
    map k | k in pages && !(k.dir == d && k.vpn >= n) :: pages[k]
  }

  /** In a contiguous address space the loop of deallocuvm misses no page. */
  lemma {:induction false} ContiguousVisited(m: State, tables: map<Tab, nat>, d: nat, sz: nat, newsz: nat)
    requires TablesOk(tables, m.ptes, m.use, m.pc) && Covers(m.ptes, d, sz) && newsz < sz
    ensures forall v :: v in Visited(TabsOf(tables, d), Pages(newsz), Pages(sz)) <==> Pages(newsz) <= v < Pages(sz)
  {
    hide Visited;
    var tabs, lo, hi := TabsOf(tables, d), Pages(newsz), Pages(sz);
    VisitedFrom(tabs, lo, hi);
    forall v | lo <= v < hi ensures v in Visited(tabs, lo, hi) {
      assert Key(d, v) in m.ptes && Key(d, lo) in m.ptes;
      assert Tab(d, v / NPTENTRIES).pdx in tabs && Tab(d, lo / NPTENTRIES).pdx in tabs;
      MissedExactly(tabs, lo, hi, v);
    }
  }

  /** Shrinking a contiguous address space leaves exactly the pages below the new size, as they were. */
  lemma {:induction false} ShrunkCovers(m0: State, m: State, tables: map<Tab, nat>, d: nat, sz: nat, newsz: nat)
    requires Inv(m0) && TablesOk(tables, m0.ptes, m0.use, m0.pc) && Covers(m0.ptes, d, sz) && newsz < sz
    requires Unmapped(m0, m, d, Visited(TabsOf(tables, d), Pages(newsz), Pages(sz))) && d in m0.role && Visible(m0.role[d])
    ensures Covers(m.ptes, d, newsz) && m.procs == m0.procs
    ensures Abs(m).pages == PagesBelow(Abs(m0).pages, d, Pages(newsz))
  {
    hide Abs, Visited, OnlyFreed, Minus, Inv, Unmapped, TablesOk;
    var vs := Visited(TabsOf(tables, d), Pages(newsz), Pages(sz));
    ContiguousVisited(m0, tables, d, sz, newsz);
    UnmappedEntries(m0, m, d, vs);
    MinusKeys(m0.ptes, d, vs);
    MinusKeys(Abs(m0).pages, d, vs);
    forall k | k in Abs(m0).pages && k.dir == d ensures k.vpn < Pages(sz) {
      AbsKeys(m0, k);
      AbsentFacts(m0, k);
      assert k == Key(d, k.vpn);
    }
    MinusBelow(Abs(m0).pages, d, vs, Pages(newsz));
  }

  lemma {:induction false} MinusBelow<T>(pages: map<Key, T>, d: nat, vs: set<nat>, n: nat)
    requires forall k :: k in pages && k.dir == d ==> (k.vpn in vs <==> k.vpn >= n)
    ensures Minus(pages, d, vs) == PagesBelow(pages, d, n)
  {
  }

  /** The machine at power-up. */
  ghost function BootState(p: nat, kernel: nat, free: seq<nat>, frames: seq<Page>): State {
    State(free, frames, seq(NFRAMES, _ => 0), map[], map[0 := p], map[0 := Live(p)], map[0 := Idle], map[], map[p := 0], {}, false,
          map[], seq(NFRAMES, f => if f < kernel then Kernel else Free))
  }

  lemma {:induction false} BootInit(s: State, p: nat, kernel: nat)
    requires p < NPROC && 0 < kernel <= NFRAMES && |s.frames| == NFRAMES && s == BootState(p, kernel, s.free, s.frames)
    requires |s.free| == NFRAMES - kernel && forall i :: 0 <= i < |s.free| ==> s.free[i] == NFRAMES - 1 - i
    ensures Init(s) && Reachable(s)
  {
    forall f | 0 <= f < NFRAMES && s.use[f] == Free ensures f in s.free {
      assert s.free[NFRAMES - 1 - f] == f;
    }
    assert IsFirst(s, p, 0);
    assert Run(s, []) == Went(s);
  }

  class Memory {
    var freelist: seq<nat>
    var frames: seq<Page>
    const refcount: array<int>
    var ptes: map<Key, Pte>
    var tables: map<Tab, nat>
    ghost var m: State

    ghost predicate Valid()
      reads this, refcount
    {
      && Reachable(m)
      && m.free == freelist && m.frames == frames && m.rc == refcount[..] && m.ptes == ptes
      && TablesOk(tables, ptes, m.use, m.pc)
    }

    /**
     Power-up: freerange gives every frame from `kernel` on to the free list, and
     slot p holds the first process, with an empty address space in directory 0.
     */
    constructor (p: nat, kernel: nat)
      requires p < NPROC && 0 < kernel <= NFRAMES
      ensures Valid() && Init(m) && RunsIn(m, p, 0) && forall f :: 0 <= f < NFRAMES ==> (f in freelist <==> kernel <= f)
    {
      freelist, frames, ptes, tables := [], seq(NFRAMES, _ => Filled(0)), map[], map[];
      refcount := new int[NFRAMES](_ => 0);
      m := BootState(p, kernel, [], []);
      new;
      var f := kernel;
      while f < NFRAMES
        invariant kernel <= f <= NFRAMES && |frames| == NFRAMES && ptes == map[] && tables == map[]
        invariant |freelist| == f - kernel && forall i :: 0 <= i < |freelist| ==> freelist[i] == f - 1 - i
        invariant refcount.Length == NFRAMES && forall i :: 0 <= i < NFRAMES ==> refcount[i] == 0
      {
        Kfree(f);
        f := f + 1;
      }
      forall g | 0 <= g < NFRAMES ensures g in freelist <==> kernel <= g {
        assert kernel <= g ==> freelist[f - 1 - g] == g;
      }
      m := BootState(p, kernel, freelist, frames);
      assert m.rc == refcount[..];
      BootInit(m, p, kernel);
    }

    /** The ghost machine takes a step. */
    ghost method Advance(l: Label)
      requires Reachable(m) && Step(m, l).Went?
      modifies this`m
      ensures Reachable(m) && Inv(m) && m == Step(old(m), l).s
      ensures Abs(m) == RefNext(Abs(old(m)), EventOf(old(m), l))
    {
      hide Inv, Step, Init, Run, Abs, RefNext, EventOf;
      ReachableInv(m);
      StepRefines(m, l);
      ReachableNext(m, l);
      m := Step(m, l).s;
    }

    /** kalloc: the head of the free list, or -1. */
    method Kalloc() returns (f: int)
      modifies this`freelist
      ensures old(freelist) == [] ==> f == -1 && freelist == []
      ensures old(freelist) != [] ==> f == old(freelist)[0] && freelist == old(freelist)[1..]
    {
      f := -1;
      if freelist != [] {
        f := freelist[0];
        freelist := freelist[1..];
      }
    }

    /** kfree: junk in the page, and the page on the free list. */
    method Kfree(f: nat)
      requires f < |frames|
      modifies this`freelist, this`frames
      ensures freelist == [f] + old(freelist) && frames == old(frames)[f := Filled(1)]
    {
      frames := frames[f := Filled(1)];
      freelist := [f] + freelist;
    }

    /** One count up or down, under the lock of pg_refcount. */
    method Count(f: nat, delta: int)
      requires f < refcount.Length
      modifies refcount
      ensures refcount[..] == old(refcount[..])[f := ToChar(old(refcount[f]) + delta)]
    {
      refcount[f] := ToChar(refcount[f] + delta);
    }

    /** A page for the kernel's own use. */
    method KernelPage() returns (f: int)
      requires Valid()
      modifies this`freelist, this`m
      ensures Valid()
      ensures f >= -1
      ensures f == -1 ==> m == old(m) && m.free == []
      ensures f >= 0 ==> old(freelist) != [] && freelist == old(freelist)[1..]
      ensures f >= 0 ==> CanKernTake(old(m)) && f == old(m).free[0] && m == Take(old(m), Kernel)
                         && f < NFRAMES && old(m).use[f] == Free && f !in m.pc
    {
      hide Inv, Reachable;
      ReachableInv(m);
      LengthFacts(m);
      f := Kalloc();
      if f >= 0 {
        ghost var before := m;
        Advance(KernTake);
        TablesKeep(tables, ptes, before.use, before.pc, ptes, m.use, m.pc);
      }
    }

    /** One page of deallocuvm. */
    method UnmapPage(d: nat, v: nat)
      requires Valid() && CanUnmap(m, d, v)
      modifies this`freelist, this`frames, this`ptes, this`m, refcount
      ensures Valid() && m == DoUnmap(old(m), d, v) && OnlyFreed(old(m).use, m.use)
      ensures Abs(m) == RefNext(Abs(old(m)), if Visible(old(m).role[d]) then Drop(d, v) else Tau)
    {
      hide Inv, Reachable, Abs, RefNext, Step, EventOf, DoUnmap, TablesOk, OnlyFreed, KernelKept, ToChar, Filled;
      ReachableInv(m);
      LengthFacts(m);
      UnmapFacts(m, d, v);
      ghost var before := m;
      var f := ptes[Key(d, v)].frame;
      Count(f, -1);
      if refcount[f] == 0 {
        Kfree(f);
      }
      ptes := ptes - {Key(d, v)};
      Advance(Unmap(d, v));
      TablesKeep(tables, old(ptes), before.use, before.pc, ptes, m.use, m.pc);
    }

    /** deallocuvm, sizes in bytes. */
    method DeallocUvm(d: nat, oldsz: nat, newsz: nat) returns (sz: nat)
      requires Valid() && At(m, d, Idle) && !m.role[d].Child?
      modifies this`freelist, this`frames, this`ptes, this`m, refcount
      ensures Valid() && sz == if newsz >= oldsz then oldsz else newsz
      ensures var gone := if newsz >= oldsz then {} else Visited(TabsOf(tables, d), Pages(newsz), Pages(oldsz));
        Unmapped(old(m), m, d, gone)
    {
      hide Inv, Reachable, Abs, RefNext, Step, EventOf, DoUnmap, TablesOk, OnlyFreed, KernelKept, Minus;
      ReachableInv(m);
      UnmappedNone(m, d);
      if newsz >= oldsz {
        return oldsz;
      }
      var a := Pages(newsz);
      ghost var tabs := TabsOf(tables, d);
      ghost var gone: set<nat> := {};
      while a < Pages(oldsz)
        invariant Valid() && Unmapped(old(m), m, d, gone)
        invariant Visited(tabs, Pages(newsz), Pages(oldsz)) == gone + Visited(tabs, a, Pages(oldsz))
        decreases Pages(oldsz) - a
      {
        if Tab(d, a / NPTENTRIES) !in tables {
          a := a + NPTENTRIES;
        } else {
          ReachableInv(m);
          UnmappedMore(old(m), m, d, gone, a);
          if Key(d, a) in ptes {
            LengthFacts(m);
            EntryBound(m, Key(d, a));
            UnmapPage(d, a);
            ReachableInv(m);
          }
          gone := gone + {a};
          a := a + 1;
        }
      }
      return newsz;
    }

    /** kfree of a page table or page directory page. */
    method KernelFree(f: nat)
      requires Valid() && IsSpare(m, f) && f < |m.frames|
      requires forall t :: t in tables ==> tables[t] != f && t.dir != f
      modifies this`freelist, this`frames, this`m
      ensures Valid() && m == Give(old(m), f) && Abs(m) == Abs(old(m))
    {
      hide Inv, Reachable, Abs, Filled;
      ReachableInv(m);
      ghost var before := m;
      Kfree(f);
      Advance(KernGive(f));
      TablesGive(tables, ptes, before.use, m.pc, f);
    }

    /** walkpgdir with alloc set: the page table for page v of directory d exists, or there was no memory. */
    method WalkAlloc(d: nat, v: nat) returns (ok: bool)
      requires Valid() && v < NPDENTRIES * NPTENTRIES && d < |m.use| && m.use[d] == Kernel
      requires forall t :: t in tables ==> tables[t] != d
      modifies this`freelist, this`tables, this`m
      ensures Valid()
      ensures !ok ==> m == old(m) && tables == old(tables) && m.free == [] && Tab(d, v / NPTENTRIES) !in tables
      ensures ok && Tab(d, v / NPTENTRIES) in old(tables) ==> m == old(m) && tables == old(tables)
      ensures ok && Tab(d, v / NPTENTRIES) !in old(tables) ==>
                && CanKernTake(old(m)) && m == Take(old(m), Kernel)
                && tables == old(tables)[Tab(d, v / NPTENTRIES) := old(m).free[0]]
      ensures ok && Tab(d, v / NPTENTRIES) !in old(tables) ==> old(freelist) != [] && freelist == old(freelist)[1..]
    {
      hide Inv, Reachable, TablesOk;
      ReachableInv(m);
      ok := true;
      var t := Tab(d, v / NPTENTRIES);
      if t !in tables {
        ghost var before := m;
        LengthFacts(m);
        var f := KernelPage();
        ReachableInv(m);
        if f < 0 {
          return false;
        }
        TablesTake(tables, ptes, before.use, m.use, m.pc, t, f);
        tables := tables[t := f];
      }
    }

    /** freevm, second half: the page tables of directory d go back to the free list. */
    method FreeTables(d: nat)
      requires Valid() && forall k :: k in ptes ==> k.dir != d
      modifies this`freelist, this`frames, this`tables, this`m
      ensures Valid() && tables == OtherTables(old(tables), d)
      ensures GivenBack(old(m), m, TableFrames(old(tables), d))
    {
      hide Inv, Reachable, Abs, TablesOk, Give, GivenBack, TablesFrom, FramesBelow, OtherTables, TableFrames;
      ReachableInv(m);
      ghost var tables0 := tables;
      TablesEnds(tables, d, ptes, m.use, m.pc);
      GivenNone(m);
      var i := 0;
      while i < NPDENTRIES
        invariant 0 <= i <= NPDENTRIES && Valid()
        invariant tables == TablesFrom(tables0, d, i) && GivenBack(old(m), m, FramesBelow(tables0, d, i))
      {
        var t := Tab(d, i);
        TablesNext(tables0, d, i);
        if t in tables {
          var f := tables[t];
          ReachableInv(m);
          TableFacts(tables, ptes, m, t);
          TablesDrop(tables, ptes, m.use, m.pc, t);
          tables := tables - {t};
          GivenMore(old(m), m, FramesBelow(tables0, d, i), f);
          KernelFree(f);
          ReachableInv(m);
        }
        i := i + 1;
      }
    }

    /** freevm: every user page, the page tables and the page directory of d. */
    method FreeVm(d: nat)
      requires Valid() && At(m, d, Idle) && m.role[d].Dying?
      modifies this`freelist, this`frames, this`ptes, this`tables, this`m, refcount
      ensures Valid() && tables == OtherTables(old(tables), d)
      ensures Dismantled(old(m), m, d, {d} + TableFrames(old(tables), d))
    {
      hide Inv, Reachable, Abs, TablesOk, Minus, Give, TableFrames, OtherTables, Unmapped, Dismantled, GivenBack;
      ReachableInv(m);
      ghost var tables0, m0 := tables, m;
      LengthFacts(m);
      DirPage(tables, ptes, m, d);
      var sz := DeallocUvm(d, KERNPAGES * PGSIZE, 0);
      ReachableInv(m);
      AllVisited(tables, m0, m, d);
      ghost var m1 := m;
      FreeTables(d);
      ReachableInv(m);
      ghost var m2 := m;
      GivenParts(m1, m2, TableFrames(tables0, d));
      UnmappedParts(m0, m1, d, Visited(TabsOf(tables0, d), 0, KERNPAGES));
      Advance(DirFree(d));
      ghost var m3 := m;
      TablesShrink(tables, ptes, m2.use, m2.pc, m3.pc);
      LengthFacts(m);
      OtherPages(tables0, tables, d, m);
      KernelFree(d);
      ReachableInv(m);
      Dismantle(m0, m1, m2, m3, m, d, Visited(TabsOf(tables0, d), 0, KERNPAGES), TableFrames(tables0, d));
    }

    /** setupkvm: a page directory with the page tables of the kernel half, or -1 and nothing changed but contents of free pages. */
    method SetupKvm() returns (d: int)
      requires Valid()
      modifies this`freelist, this`frames, this`tables, this`m
      ensures Valid() && d >= -1
      ensures d == -1 <==> |old(freelist)| < 1 + KTABLES
      ensures d == -1 ==> tables == old(tables) && GivenBack(old(m), m, {})
      ensures d >= 0 ==> |freelist| == |old(freelist)| - 1 - KTABLES
      ensures d >= 0 ==> IsSpare(m, d) && NewDir(old(m), old(tables), m, tables, d)
                         && (forall t :: t in tables ==> tables[t] != d && (t.dir == d ==> t.pdx >= KERNPAGES / NPTENTRIES))
                         && (forall k :: k in ptes ==> k.dir != d)
    {
      hide Inv, Reachable, Abs, TablesOk, TableFrames, OtherTables, GivenBack, NewDir, Give;
      ReachableInv(m);
      ghost var m0, tables0 := m, tables;
      LengthFacts(m);
      d := KernelPage();
      ReachableInv(m);
      if d < 0 {
        GivenNone(m);
        return;
      }
      NewDirStart(m0, m, tables, ptes, d);
      var i := 0;
      while i < KTABLES
        invariant 0 <= i <= KTABLES && Valid() && IsSpare(m, d) && NewDir(m0, tables0, m, tables, d)
        invariant forall k :: k in ptes ==> k.dir != d
        invariant forall t :: t in tables ==> tables[t] != d && (t.dir == d ==> 512 <= t.pdx < KernelPdx(i))
        invariant |freelist| + 1 + i == |old(freelist)|
      {
        ghost var m1, tables1 := m, tables;
        ReachableInv(m);
        LengthFacts(m);
        var ok := WalkAlloc(d, KernelPdx(i) * NPTENTRIES);
        ReachableInv(m);
        if !ok {
          NewDirOwn(m0, tables0, m1, tables1, d);
          FreeTables(d);
          ReachableInv(m);
          ghost var m2 := m;
          GivenParts(m1, m2, TableFrames(tables1, d));
          OtherPages(tables1, tables, d, m);
          LengthFacts(m);
          KernelFree(d);
          ReachableInv(m);
          NewDirUndone(m0, tables0, m1, tables1, m2, m, d);
          return -1;
        }
        assert Tab(d, KernelPdx(i) * NPTENTRIES / NPTENTRIES) == Tab(d, KernelPdx(i));
        NewDirTable(m0, tables0, m1, tables1, d, Tab(d, KernelPdx(i)));
        i := i + 1;
      }
    }

    /** copyuvm up to its loop: the child's directory, or -1. */
    method CopyBegins(p: nat, d: nat, c: nat) returns (e: int)
      requires Valid() && RunsIn(m, p, d) && SlotUnused(m, c)
      modifies this`freelist, this`frames, this`tables, this`m
      ensures Valid() && e >= -1
      ensures e == -1 <==> |old(freelist)| < 1 + KTABLES
      ensures e == -1 ==> tables == old(tables) && ForkUndone(old(m), m, d)
      ensures e >= 0 ==> Copying(old(m), old(tables), m, tables, d, c, e, 0) && forall t :: t in tables ==> tables[t] != e
      ensures e >= 0 ==> |freelist| == |old(freelist)| - 1 - KTABLES && TablesUpTo(tables, e, 0)
    {
      hide Inv, Reachable, Abs, TablesOk, TableFrames, OtherTables, GivenBack, NewDir, Give, ForkUndone, Dismantled, Copying,
           Step, DoForkClear, DoForkPage, DoForkStart, DoAbandon, EventOf, RefNext, ToChar;
      ReachableInv(m);
      ghost var m0, tables0 := m, tables;
      e := SetupKvm();
      ReachableInv(m);
      if e < 0 {
        ForkNotBegun(m0, m, d);
        return;
      }
      LengthFacts(m);
      CopyReady(m0, tables0, m, tables, p, d, c, e);
      NoCounted(m, e);
      CopyStart(m0, tables0, m, tables, p, d, c, e);
      TablesDir(tables, ptes, m.use, m.pc, DoForkStart(m, p, c, e).pc, e);
      Advance(ForkStart(p, c, e));
    }

    /** copyuvm, one entry: the parent loses PTE_W. */
    method CopyClears(d: nat, c: nat, e: nat, i: nat, ghost m0: State, ghost tables0: map<Tab, nat>)
      requires Valid() && Copying(m0, tables0, m, tables, d, c, e, i) && Key(d, i) in ptes
      modifies this`ptes, this`m
      ensures Valid() && Copying(m0, tables0, m, tables, d, c, e, i)
      ensures ptes == old(ptes)[Key(d, i) := old(ptes)[Key(d, i)].(w := false)]
    {
      hide Inv, Reachable, Abs, TablesOk, TableFrames, OtherTables, GivenBack, NewDir, Give, ForkUndone, Dismantled, Copying,
           Step, DoForkClear, DoForkPage, DoForkStart, DoAbandon, EventOf, RefNext, ToChar;
      ReachableInv(m);
      var k := Key(d, i);
      CopyBegin(m0, tables0, m, tables, d, c, e, i);
      CopyClear(m0, tables0, m, tables, d, c, e, i);
      TablesSet(tables, ptes, m.use, m.pc, k, ptes[k].(w := false));
      ptes := ptes[k := ptes[k].(w := false)];
      Advance(ForkClear(e, i));
    }

    /** mappages for the child, which fails without memory for a page table, and the count. */
    method CopyMaps(d: nat, c: nat, e: nat, i: nat, ghost m0: State, ghost tables0: map<Tab, nat>) returns (ok: bool)
      requires Valid() && Copying(m0, tables0, m, tables, d, c, e, i) && i < KERNPAGES
      requires Key(d, i) in ptes && !ptes[Key(d, i)].w && forall t :: t in tables ==> tables[t] != e
      modifies this`freelist, this`tables, this`ptes, this`m, refcount
      ensures Valid() && forall t :: t in tables ==> tables[t] != e
      ensures ok ==> Copying(m0, tables0, m, tables, d, c, e, i + 1)
      ensures !ok ==> Copying(m0, tables0, m, tables, d, c, e, i)
      ensures ok <==> Tab(e, i / NPTENTRIES) in old(tables) || old(freelist) != []
      ensures ok ==> tables.Keys == old(tables).Keys + {Tab(e, i / NPTENTRIES)}
      ensures ok ==> |freelist| == |old(freelist)| - if Tab(e, i / NPTENTRIES) in old(tables) then 0 else 1
    {
      hide Inv, Reachable, Abs, TablesOk, TableFrames, OtherTables, GivenBack, NewDir, Give, ForkUndone, Dismantled, Copying,
           Step, DoForkClear, DoForkPage, DoForkStart, DoAbandon, EventOf, RefNext, ToChar;
      ReachableInv(m);
      ghost var m1, tables1 := m, tables;
      var pte := ptes[Key(d, i)];
      LengthFacts(m);
      CopyBegin(m0, tables0, m, tables, d, c, e, i);
      ok := WalkAlloc(e, i);
      ReachableInv(m);
      if !ok {
        return;
      }
      CopyTable(m0, tables0, m1, tables1, m, tables, d, c, e, i);
      CopyBegin(m0, tables0, m, tables, d, c, e, i);
      LengthFacts(m);
      EntryBound(m, Key(d, i));
      CopyPage(m0, tables0, m, tables, d, c, e, i, pte);
      TablesPte(tables, ptes, m.use, m.pc, Key(e, i), pte);
      ptes := ptes[Key(e, i) := pte];
      Count(pte.frame, 1);
      Advance(ForkPage(e, i));
    }

    /** The failure exit of copyuvm: freevm on the half-built child. */
    method CopyFails(d: nat, c: nat, e: nat, i: nat, ghost m0: State, ghost tables0: map<Tab, nat>)
      requires Valid() && Copying(m0, tables0, m, tables, d, c, e, i) && Inv(m0)
      requires forall t :: t in tables ==> tables[t] != e
      modifies this`freelist, this`frames, this`ptes, this`tables, this`m, refcount
      ensures Valid() && tables == tables0 && ForkUndone(m0, m, d)
    {
      hide Inv, Reachable, Abs, TablesOk, TableFrames, OtherTables, GivenBack, NewDir, Give, ForkUndone, Dismantled, Copying,
           Step, DoForkClear, DoForkPage, DoForkStart, DoAbandon, EventOf, RefNext, ToChar;
      ReachableInv(m);
      ghost var m1, tables1 := m, tables;
      CopyAbandon(m0, tables0, m, tables, d, c, e, i);
      TablesDir(tables, ptes, m.use, m.pc, DoAbandon(m, e).pc, e);
      Advance(ForkFail(e));
      ghost var m2 := m;
      FreeVm(e);
      ReachableInv(m);
      CopyUndone(m0, tables0, m1, tables1, m2, m, d, c, e, i);
    }

    /**
     copyuvm for process p, which runs in directory d with sz bytes, and a child
     in slot c. The result is the child's directory, -1 if memory ran out, or -2
     for the panic on a page that is not present.
     */
    method CopyUvm(p: nat, d: nat, c: nat, sz: nat) returns (e: int)
      requires Valid() && RunsIn(m, p, d) && SlotUnused(m, c)
      requires Pages(sz) <= KERNPAGES && forall k :: k in ptes && k.dir == d ==> k.vpn < Pages(sz)
      modifies this`freelist, this`frames, this`ptes, this`tables, this`m, refcount
      ensures Valid() && e >= -2
      ensures var h := FirstHole(old(ptes), d, Pages(sz));
        && (e == -1 <==> |old(freelist)| < 1 + KTABLES + TablesFor(h))
        && (e == -2 <==> h < Pages(sz) && |old(freelist)| >= 1 + KTABLES + TablesFor(h))
      ensures e == -1 ==> tables == old(tables) && ForkUndone(old(m), m, d)
      ensures e >= 0 ==> CanForkEnd(m, e) && m.under[e] == d && m.slot[e] == c
                         && Abs(m) == Abs(old(m)) && m.procs == old(m).procs
    {
      hide Inv, Reachable, Abs, TablesOk, TableFrames, OtherTables, GivenBack, NewDir, Give, ForkUndone, Dismantled, Copying,
           Step, DoForkClear, DoForkPage, DoForkStart, DoAbandon, EventOf, RefNext, ToChar;
      ReachableInv(m);
      ghost var m0, tables0 := m, tables;
      ghost var h := FirstHole(ptes, d, Pages(sz));
      e := CopyBegins(p, d, c);
      ReachableInv(m);
      if e < 0 {
        return;
      }
      var i := 0;
      while i < Pages(sz)
        invariant 0 <= i <= Pages(sz) && Valid() && Copying(m0, tables0, m, tables, d, c, e, i)
        invariant forall t :: t in tables ==> tables[t] != e
        invariant TablesUpTo(tables, e, i) && |freelist| + 1 + KTABLES + TablesFor(i) == |old(freelist)| && i <= h
      {
        CopyBegin(m0, tables0, m, tables, d, c, e, i);
        if Key(d, i) !in ptes {
          return -2;
        }
        ghost var tables1 := tables;
        CopyClears(d, c, e, i, m0, tables0);
        ReachableInv(m);
        var ok := CopyMaps(d, c, e, i, m0, tables0);
        ReachableInv(m);
        if !ok {
          TablesStarted(tables1, e, i, h);
          CopyFails(d, c, e, i, m0, tables0);
          return -1;
        }
        TablesUpToMore(tables1, tables, e, i);
        i := i + 1;
      }
      CopyDone(m0, tables0, m, tables, d, c, e, i);
    }

    /** fork: kernel stack, copyuvm, and the child becomes a process. */
    method Fork(p: nat, d: nat, c: nat, sz: nat) returns (e: int)
      requires Valid() && RunsIn(m, p, d) && SlotUnused(m, c)
      requires Pages(sz) <= KERNPAGES && forall k :: k in ptes && k.dir == d ==> k.vpn < Pages(sz)
      modifies this`freelist, this`frames, this`ptes, this`tables, this`m, refcount
      ensures Valid() && e >= -2
      ensures var h := FirstHole(old(ptes), d, Pages(sz));
        && (e == -1 <==> |old(freelist)| < 2 + KTABLES + TablesFor(h))
        && (e == -2 <==> h < Pages(sz) && |old(freelist)| >= 2 + KTABLES + TablesFor(h))
      ensures e == -1 ==> tables == old(tables) && ForkUndone(old(m), m, d)
      ensures e >= 0 ==> Abs(m) == RefNext(Abs(old(m)), CopyAll(d, e, c))
    {
      hide Inv, Reachable, Abs, TablesOk, TableFrames, OtherTables, GivenBack, NewDir, Give, ForkUndone, Dismantled, Copying,
           Step, EventOf, RefNext, ToChar, Take;
      ReachableInv(m);
      ghost var m0 := m;
      LengthFacts(m);
      var kstack := KernelPage();
      ReachableInv(m);
      if kstack < 0 {
        GivenNone(m);
        ForkNotBegun(m0, m, d);
        return -1;
      }
      StackTaken(m0, m, tables, ptes, kstack);
      ghost var m1 := m;
      e := CopyUvm(p, d, c, sz);
      ReachableInv(m);
      if e == -1 {
        StackSpare(m0, m1, m, d, kstack);
        ghost var m2 := m;
        KernelFree(kstack);
        ReachableInv(m);
        StackReturned(m0, m1, m2, m, d, kstack);
        return;
      }
      if e == -2 {
        return;
      }
      UnderFacts(m, e);
      ForkEnded(m, e);
      TablesShrink(tables, ptes, m.use, m.pc, DoForkEnd(m, e).pc);
      Advance(ForkEnd(e));
    }

    /** pagefault on a shared page, first half: a new frame with the contents, or -1 and the process is killed. */
    method FaultFetches(p: nat, d: nat, v: nat) returns (mem: int)
      requires Valid() && Faulting(m, p, d, v) && SharedPage(m, Key(d, v))
      modifies this`freelist, this`frames, this`m
      ensures Valid() && Abs(m) == Abs(old(m))
      ensures mem < 0 <==> old(freelist) == []
      ensures mem < 0 ==> m == old(m).(killed := old(m).killed + {p})
      ensures mem >= 0 ==> mem == old(freelist)[0] && Fetched(old(m), m, d, v)
    {
      hide Inv, Reachable, Abs, TablesOk, Step, EventOf, RefNext, ToChar, Filled, DoFaultAlloc, DoFaultCopy, DoFaultDrop,
           DoFaultSet, KernelKept, NoneLeaked;
      ReachableInv(m);
      var k := Key(d, v);
      var f := ptes[k].frame;
      ghost var m0 := m;
      LengthFacts(m);
      EntryFacts(m, k);
      FaultNoted(m, p, d, v);
      Advance(FaultEnter(p, v));
      ghost var m1 := m;
      mem := Kalloc();
      if mem < 0 {
        FaultStarves(m0, m1, p, d, v);
        Advance(FaultAlloc(d));
        return;
      }
      FaultTakes(m1, d, v, f);
      Advance(FaultAlloc(d));
      frames := frames[mem := frames[f]];
      Advance(FaultCopy(d));
      HeldKeeps(m0.use, mem, d);
      TablesKeep(tables, ptes, m0.use, m0.pc, ptes, m.use, m.pc);
    }

    /** pagefault on a shared page, second half: the counts move and the entry is rewritten. */
    method FaultInstalls(d: nat, v: nat, mem: nat, ghost m0: State)
      requires Valid() && SharedPage(m0, Key(d, v)) && d in m0.pc && m0.pc[d] == Idle && Fetched(m0, m, d, v)
      requires TablesOk(tables, ptes, m0.use, m0.pc) && m0.free != [] && mem == m0.free[0] && m0.ptes == ptes
      requires m0.rc[ptes[Key(d, v)].frame] <= NPROC && mem < refcount.Length == NFRAMES
      modifies this`ptes, this`m, refcount
      ensures Valid() && Abs(m) == Abs(old(m)) && FaultResult(m0, m, d, v)
    {
      hide Inv, Reachable, Abs, TablesOk, Step, EventOf, RefNext, ToChar, Filled, DoFaultAlloc, DoFaultCopy, DoFaultDrop,
           DoFaultSet, KernelKept, NoneLeaked, Fetched, FaultResult;
      ReachableInv(m);
      var k := Key(d, v);
      var f := ptes[k].frame;
      EntryBound(m, k);
      FaultFinish(m0, m, d, v);
      ResultFields(m0, DoFaultSet(DoFaultDrop(m, d), d), d, v);
      Count(f, -1);
      Count(mem, 1);
      Advance(FaultDrop(d));
      Advance(FaultSet(d));
      TablesKeep(tables, ptes, m0.use, m0.pc, ptes, m.use, m.pc);
      TablesSet(tables, ptes, m.use, m.pc, k, Pte(mem, true, true));
      ptes := ptes[k := Pte(mem, true, true)];
    }

    /** pagefault on a shared page: the process gets its own copy, or is killed for lack of memory. */
    method FaultCopies(p: nat, d: nat, v: nat) returns (killed: bool)
      requires Valid() && Faulting(m, p, d, v) && SharedPage(m, Key(d, v))
      modifies this`freelist, this`frames, this`ptes, this`m, refcount
      ensures Valid() && Abs(m) == Abs(old(m)) && m.pc == old(m).pc
      ensures killed <==> old(freelist) == []
      ensures killed ==> ptes == old(ptes) && m.killed == old(m).killed + {p} && m.use == old(m).use
      ensures !killed ==> Faulting(m, p, d, v) && ptes == old(ptes)[Key(d, v) := Pte(old(freelist)[0], true, true)]
                          && old(freelist)[0] < |m.frames| && NoneLeaked(old(m).use, m.use)
    {
      hide Inv, Reachable, Abs, TablesOk, Step, EventOf, RefNext, ToChar, Filled, DoFaultAlloc, DoFaultCopy, DoFaultDrop,
           DoFaultSet, KernelKept, NoneLeaked, Fetched;
      ReachableInv(m);
      ghost var m0 := m;
      LengthFacts(m);
      EntryFacts(m, Key(d, v));
      var mem := FaultFetches(p, d, v);
      ReachableInv(m);
      if mem < 0 {
        return true;
      }
      FaultInstalls(d, v, mem, m0);
      ReachableInv(m);
      LengthFacts(m);
      return false;
    }

    /**
     pagefault on virtual page v of process p in directory d, run without
     interruption. The processor raises it only where the entry does not allow
     the access.
     */
    method PageFault(p: nat, d: nat, v: nat) returns (killed: bool)
      requires Valid() && RunsIn(m, p, d)
      requires Key(d, v) in ptes ==> !(ptes[Key(d, v)].w && ptes[Key(d, v)].u)
      modifies this`freelist, this`frames, this`ptes, this`m, refcount
      ensures Valid() && Abs(m) == Abs(old(m)) && m.pc == old(m).pc
      ensures killed <==> || Key(d, v) !in old(ptes) || !old(ptes)[Key(d, v)].u
                          || (SharedPage(old(m), Key(d, v)) && old(freelist) == [])
      ensures killed ==> ptes == old(ptes) && m.killed == old(m).killed + {p}
      ensures !killed ==> Key(d, v) in ptes && ptes[Key(d, v)].w && ptes[Key(d, v)].u && CanWrite(m, p, v, 0)
      ensures !killed ==> forall k :: k != Key(d, v) ==> (k in ptes <==> k in old(ptes)) && (k in ptes ==> ptes[k] == old(ptes)[k])
      ensures NoneLeaked(old(m).use, m.use)
    {
      hide Inv, Reachable, Abs, TablesOk, Step, EventOf, RefNext, ToChar, Filled;
      ReachableInv(m);
      var k := Key(d, v);
      LengthFacts(m);
      ProcFacts(m, p);
      TableThere(tables, ptes, m, k);
      if v >= KERNPAGES || Tab(d, v / NPTENTRIES) !in tables || k !in ptes || !ptes[k].u {
        if k in ptes {
          EntryFacts(m, k);
        }
        FaultKills(m, p, d, v);
        Advance(FaultEnter(p, v));
        return true;
      }
      EntryFacts(m, k);
      var f := ptes[k].frame;
      if refcount[f] == 1 {
        FaultEnables(m, p, d, v);
        TablesSet(tables, ptes, m.use, m.pc, k, ptes[k].(w := true));
        Advance(FaultEnter(p, v));
        ptes := ptes[k := ptes[k].(w := true)];
        Advance(FaultEnable(d));
        return false;
      }
      killed := FaultCopies(p, d, v);
    }

    /** allocuvm: kalloc and memset. */
    method GrowFetches(d: nat, v: nat) returns (mem: int)
      requires Valid() && At(m, d, Idle) && Visible(m.role[d]) && Key(d, v) !in ptes
      modifies this`freelist, this`frames, this`m
      ensures Valid() && (mem < 0 <==> old(freelist) == [])
      ensures mem < 0 ==> m == old(m)
      ensures mem >= 0 ==> freelist == old(freelist)[1..]
      ensures mem >= 0 ==> Taking(old(m), m, d, v, mem) && Abs(m) == Abs(old(m))
    {
      hide Inv, Reachable, Abs, TablesOk, Step, EventOf, RefNext, ToChar, Filled, DoGrowAlloc, DoGrowMap, DoGrowMiss, KernelKept,
           OnlyFreed, Grown, Unmapped, Minus, PageKeys, Zeroed;
      ReachableInv(m);
      ghost var m0 := m;
      LengthFacts(m);
      mem := Kalloc();
      if mem >= 0 {
        GrowTakes(m0, d, v);
        frames := frames[mem := Filled(0)];
        Advance(GrowAlloc(d, v));
        TablesKeep(tables, ptes, m0.use, m0.pc, ptes, m.use, m.pc);
      }
    }

    /** allocuvm: the entry, if its page table exists by now, and the count. */
    method GrowCounts(d: nat, v: nat, mem: nat, ok: bool, ghost m0: State)
      requires Valid() && Taking(m0, m, d, v, mem) && Abs(m) == Abs(m0) && v < KERNPAGES
      requires ok ==> Tab(d, v / NPTENTRIES) in tables
      modifies this`ptes, this`m, refcount
      ensures Valid() && Grown(m0, m, d, if ok then {v} else {})
    {
      hide Inv, Reachable, Abs, TablesOk, Step, EventOf, RefNext, ToChar, Filled, DoGrowAlloc, DoGrowMap, DoGrowMiss, KernelKept,
           OnlyFreed, Grown, Unmapped, Minus, PageKeys, Zeroed;
      ReachableInv(m);
      ghost var m2 := m;
      Count(mem, 1);
      if ok {
        GrowMaps(m0, m2, d, v, mem);
        TablesKeep(tables, ptes, m2.use, m2.pc, ptes, DoGrowMap(m2, d, true).use, DoGrowMap(m2, d, true).pc);
        TablesPte(tables, ptes, DoGrowMap(m2, d, true).use, DoGrowMap(m2, d, true).pc, Key(d, v), Pte(mem, true, true));
        ptes := ptes[Key(d, v) := Pte(mem, true, true)];
        Advance(GrowMap(d, true));
        GrownOne(m0, m, d, v, Pte(mem, true, true));
      } else {
        GrowLoses(m0, m2, d, v, mem);
        TablesKeep(tables, ptes, m2.use, m2.pc, ptes, DoGrowMiss(m2, d).use, DoGrowMiss(m2, d).pc);
        Advance(GrowMiss(d));
        GrownNone(m0, m, d);
      }
    }

    /** One iteration of allocuvm: a zeroed page at v; without memory for its page table the frame is counted and lost. */
    method GrowPage(d: nat, v: nat) returns (r: GrowResult)
      requires Valid() && At(m, d, Idle) && Visible(m.role[d]) && Key(d, v) !in ptes && v < KERNPAGES
      modifies this`freelist, this`frames, this`ptes, this`tables, this`m, refcount
      ensures Valid()
      ensures r == NoMemory <==> old(freelist) == []
      ensures r == NoMemory ==> m == old(m) && tables == old(tables)
      ensures r == Mapped ==> Grown(old(m), m, d, {v})
      ensures r == Missed ==> Grown(old(m), m, d, {})
      ensures r == Missed <==> |old(freelist)| == 1 && Tab(d, v / NPTENTRIES) !in old(tables)
      ensures r == Mapped ==> |freelist| == |old(freelist)| - if Tab(d, v / NPTENTRIES) in old(tables) then 1 else 2
      ensures r == Mapped ==> tables.Keys == old(tables).Keys + {Tab(d, v / NPTENTRIES)}
      ensures r == Missed ==> freelist == [] && tables == old(tables)
    {
      hide Inv, Reachable, Abs, TablesOk, Step, EventOf, RefNext, ToChar, Filled, DoGrowAlloc, DoGrowMap, DoGrowMiss, KernelKept,
           OnlyFreed, Grown, Unmapped, Minus, PageKeys, Zeroed, Take;
      ReachableInv(m);
      ghost var m0, n := m, |freelist|;
      var mem := GrowFetches(d, v);
      ReachableInv(m);
      if mem < 0 {
        return NoMemory;
      }
      ghost var m1 := m;
      LengthFacts(m);
      DirUse(m1, tables, ptes, m1, d);
      var ok := WalkAlloc(d, v);
      ReachableInv(m);
      GrowWalks(m0, m1, m, d, v, mem);
      GrowCounts(d, v, mem, ok, m0);
      return if ok then Mapped else Missed;
    }

    /**
     allocuvm, sizes in bytes. When the last page needs a page table and its own
     frame is the last free one, the failure of mappages is ignored: the page is
     missed, and the size is returned as if it were there.
     */
    method AllocUvm(d: nat, oldsz: nat, newsz: nat) returns (sz: nat, ghost missed: set<nat>)
      requires Valid() && At(m, d, Idle) && Visible(m.role[d])
      requires forall k :: k in ptes && k.dir == d ==> k.vpn < Pages(oldsz)
      modifies this`freelist, this`frames, this`ptes, this`tables, this`m, refcount
      ensures Valid()
      ensures newsz >= KERNPAGES * PGSIZE ==> sz == 0 && m == old(m)
      ensures newsz < KERNPAGES * PGSIZE && newsz < oldsz ==> sz == oldsz && m == old(m)
      ensures oldsz <= newsz < KERNPAGES * PGSIZE ==>
        var lo, hi, tabs, free := Pages(oldsz), Pages(newsz), TabsOf(old(tables), d), |old(freelist)|;
        && sz == (if free >= GrowthNeeds(tabs, lo, hi) || MissesLast(tabs, lo, hi, free) then newsz else 0)
        && missed == (if MissesLast(tabs, lo, hi, free) then {hi - 1} else {})
        && (sz == newsz ==> Grown(old(m), m, d, Span(lo, hi) - missed))
        && (sz != newsz ==> Abs(m) == Abs(old(m)) && m.ptes.Keys == old(m).ptes.Keys)
      ensures m.pc == old(m).pc && m.role == old(m).role && m.procs == old(m).procs
    {
      hide Inv, Reachable, Abs, TablesOk, Step, EventOf, RefNext, ToChar, Filled, DoGrowAlloc, DoGrowMap, DoGrowMiss, KernelKept,
           OnlyFreed, Grown, Unmapped, Minus, PageKeys, Zeroed, Visited, TablesGrown, OpensTable, Span;
      ReachableInv(m);
      missed := {};
      if newsz >= KERNPAGES * PGSIZE {
        sz := 0;
        return;
      }
      if newsz < oldsz {
        sz := oldsz;
        return;
      }
      ghost var m0, lo, tabs := m, Pages(oldsz), TabsOf(tables, d);
      var a := Pages(oldsz);
      GrownNone(m, m, d);
      TablesGrownNone(tables, d, a);
      SpanNone(a);
      assert Span(a, a) - missed == {};
      while a < Pages(newsz)
        invariant lo <= a <= Pages(newsz) && Valid() && Grown(m0, m, d, Span(lo, a) - missed)
        invariant missed == {} ==> TablesGrown(tabs, tables, d, lo, a) && |freelist| + GrowthNeeds(tabs, lo, a) == |old(freelist)|
        invariant missed != {} ==> missed == {a - 1} && lo < a && freelist == [] && OpensTable(tabs, lo, a - 1)
                                   && |old(freelist)| == GrowthNeeds(tabs, lo, a) - 1
      {
        ghost var m1, tables1, grown := m, tables, Span(lo, a) - missed;
        GrownParts(m0, m, d, grown);
        SpanIn(lo, a, a);
        SpanNext(lo, a, missed);
        if missed == {} {
          TableOpened(tabs, tables, d, lo, a);
        }
        var r := GrowPage(d, a);
        ReachableInv(m);
        if r == NoMemory {
          ghost var vs := Visited(TabsOf(tables, d), lo, Pages(newsz));
          var _ := DeallocUvm(d, newsz, oldsz);
          ReachableInv(m);
          UnmappedSame(m1, m, d, vs);
          GrownThere(m0, m1, d, grown);
          GrownVisited(m1, tables, d, lo, if missed == {} then a else a - 1, Pages(newsz));
          GrownUndone(m0, m1, m, d, lo, grown, vs);
          NeedsUnmet(tabs, lo, a, Pages(newsz), |old(freelist)|);
          sz := 0;
          missed := {};
          return;
        }
        if r == Missed {
          GrownMore(m0, m1, m, d, grown, {});
          missed := {a};
        } else {
          GrownMore(m0, m1, m, d, grown, {a});
          TablesGrownMore(tabs, tables1, tables, d, lo, a);
        }
        a := a + 1;
      }
      GrownParts(m0, m, d, Span(lo, a) - missed);
      sz := newsz;
    }

    /**
     growproc for process p in directory d with sz bytes. The size and the
     mapped pages stay in step except in two cases. A process that shrinks to
     nothing loses its pages and keeps its size, because growproc takes the 0
     that deallocuvm returns for a failure; and a growth that misses its last
     page counts as done.
     */
    method GrowProc(p: nat, d: nat, sz: nat, n: int) returns (ok: bool, sz': nat)
      requires sz < KERNPAGES * PGSIZE && -UINT / 2 <= n < UINT / 2
      requires Valid() && RunsIn(m, p, d) && Covers(ptes, d, sz)
      modifies this`freelist, this`frames, this`ptes, this`tables, this`m, refcount
      ensures Valid()
      ensures n >= 0 ==>
        var lo, hi, tabs, free := Pages(sz), Pages(sz + n), TabsOf(old(tables), d), |old(freelist)|;
        var misses := MissesLast(tabs, lo, hi, free);
        && (ok <==> n == 0 || (sz + n < KERNPAGES * PGSIZE && (free >= GrowthNeeds(tabs, lo, hi) || misses)))
        && sz' == (if ok then sz + n else sz)
        && (ok ==> Grown(old(m), m, d, Span(lo, hi) - if misses then {hi - 1} else {}))
        && (!ok ==> Abs(m) == Abs(old(m)) && m.ptes.Keys == old(m).ptes.Keys)
        && (Covers(ptes, d, sz') <==> !(ok && misses))
      ensures n < 0 ==>
        && (ok <==> if sz + n >= 0 then sz + n != 0 else sz != 0)
        && sz' == (if sz + n > 0 then sz + n else sz)
        && m.procs == old(m).procs
        && Abs(m).pages == (if sz + n >= 0 then PagesBelow(Abs(old(m)).pages, d, Pages(sz + n)) else Abs(old(m)).pages)
        && (Covers(ptes, d, sz') <==> sz + n != 0)
    {
      hide Inv, Reachable, Abs, TablesOk, Step, Grown, Unmapped, Minus, Visited, Span, OpensTable, GrowthNeeds;
      ReachableInv(m);
      sz' := sz;
      ProcFacts(m, p);
      ghost var m0, lo, tabs, free := m, Pages(sz), TabsOf(tables, d), |freelist|;
      if n > 0 {
        ghost var missed;
        sz', missed := AllocUvm(d, sz, sz + n);
        ReachableInv(m);
        if sz' == 0 {
          return false, sz;
        }
        SpanIn(lo, Pages(sz + n), if missed == {} then lo else Pages(sz + n) - 1);
        GrownCovers(m0, m, d, sz, sz + n, missed);
      } else if n < 0 {
        var newsz := (sz + n) % UINT;
        sz' := DeallocUvm(d, sz, newsz);
        ReachableInv(m);
        if newsz >= sz {
          MinusNothing(m0.ptes, d);
          MinusNothing(Abs(m0).pages, d);
          UnmappedEntries(m0, m, d, {});
        } else {
          ShrunkCovers(m0, m, tables, d, sz, newsz);
          assert newsz == 0 ==> Pages(0) == 0 && Pages(sz) >= 1 && Key(d, 0) !in ptes;
        }
        if sz' == 0 {
          return false, sz;
        }
      } else {
        GrownNone(m, m, d);
        SpanNone(lo);
        assert Span(lo, lo) - {} == {};
      }
      return true, sz';
    }
  }
}
