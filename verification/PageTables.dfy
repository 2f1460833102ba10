/** Memory as vm.c and kalloc.c use it: two-level page tables with 4 KB and 4 MB pages, over two free lists
    of frames; the invariant that every frame is in one place; and what one kalloc, kfree or table write does
    to it. Frames are numbered; a page number is an address / PGSIZE. */
module PageTables {
  import opened Blocks

  const PGSIZE := 4096
  const HUGE_PAGE_SIZE := 0x40_0000
  const NPDENTRIES := 1024
  const NPTENTRIES := 1024
  const PHYSTOP := 0xE00_0000
  const KERNBASE := 0x8000_0000
  const HUGE_VA_OFFSET := 0x1E00_0000

  /** Base pages below KERNBASE, base frames below PHYSTOP, and directory entries below KERNBASE. */
  const USERPAGES := KERNBASE / PGSIZE
  const FRAMES := PHYSTOP / PGSIZE
  const USERTABLES := 512
  const ALLPAGES := 0x10_0000
  const HUGEBASE := HUGE_VA_OFFSET / HUGE_PAGE_SIZE
  /** 4 MB frames, from HUGE_PAGE_START to HUGE_PAGE_END. */
  const HUGEFRAMES := (0x3E00_0000 - 0x1E00_0000) / HUGE_PAGE_SIZE

  const PTE_P := 1
  const PTE_W := 2
  const PTE_U := 4
  const HUGE_FLAGS := 0x80 + PTE_W + PTE_U + PTE_P

  type Page = seq<byte>

  datatype Pte = Absent | Present(frame: nat, flags: nat)

  /** A directory entry: nothing, a page table, or a 4 MB page. */
  datatype Pde = NoEntry | Table(frame: nat) | Huge(frame: nat, flags: nat)

  datatype Ram = Ram(
    free: seq<nat>, hugefree: seq<nat>, dirs: map<nat, seq<Pde>>, tables: map<nat, seq<Pte>>,
    pages: map<nat, Page>, hugepages: map<nat, Page>)

  /** What a base frame is used for: `Elsewhere` is anything outside this model, or a frame in transit. */
  datatype Owner = Free | Dir | TableOf(d: nat, i: nat) | PageOf(d: nat, v: nat) | Elsewhere

  datatype HugeOwner = HugeFree | HugeOf(d: nat, i: nat) | HugeElsewhere

  datatype Ghosts = Ghosts(owner: map<nat, Owner>, hugeOwner: map<nat, HugeOwner>)

  /** The directory entry and the table entry of page v, and its address. */
  function Pdx(v: nat): (i: nat) { v / 1024 }

  function Ptx(v: nat): (k: nat)
    ensures k < NPTENTRIES
  {
    v % 1024
  }

  function Addr(v: nat): (a: nat) { v * 4096 }

  /** The first page of the next page table. */
  function NextTable(v: nat): (w: nat)
    ensures w > v
  {
    (v / 1024 + 1) * 1024
  }

  /** The translation of page v in the address space of directory d. */
  function Lookup(r: Ram, d: nat, v: nat): (e: Pte)
  {
    if d in r.dirs && Pdx(v) < |r.dirs[d]| && r.dirs[d][Pdx(v)].Table?
       && r.dirs[d][Pdx(v)].frame in r.tables && Ptx(v) < |r.tables[r.dirs[d][Pdx(v)].frame]|
    then r.tables[r.dirs[d][Pdx(v)].frame][Ptx(v)]
    else Absent
  }

  function Filled(b: byte): (p: Page)
    ensures |p| == PGSIZE && forall i :: 0 <= i < PGSIZE ==> p[i] == b
  {
    seq(PGSIZE, _ => b)
  }

  /** PGROUNDUP, as a page number. */
  function Up(size: nat): (v: nat)
    ensures Addr(v) - 4096 < size <= Addr(v)
  {
    (size + 4095) / 4096
  }

  // ----- the invariant -----

  ghost predicate FreeOk(r: Ram, o: map<nat, Owner>) {
    Distinct(r.free) && forall f :: f in r.free <==> f in o && o[f] == Free
  }

  ghost predicate DirsOk(r: Ram, o: map<nat, Owner>) {
    forall d :: (d in r.dirs <==> d in o && o[d] == Dir) && (d in r.dirs ==> |r.dirs[d]| == NPDENTRIES)
  }

  predicate TableOk(r: Ram, o: map<nat, Owner>, d: nat, i: nat)
    requires d in r.dirs && i < |r.dirs[d]|
  {
    r.dirs[d][i].Table? ==>
      var t := r.dirs[d][i].frame; t in o && o[t] == TableOf(d, i) && t in r.tables && |r.tables[t]| == NPTENTRIES
  }

  ghost predicate TablesOk(r: Ram, o: map<nat, Owner>) {
    && (forall d, i: nat :: d in r.dirs && i < |r.dirs[d]| ==> TableOk(r, o, d, i))
    && (forall t :: t in o && o[t].TableOf? ==>
          o[t].d in r.dirs && o[t].i < |r.dirs[o[t].d]| && r.dirs[o[t].d][o[t].i] == Table(t))
  }

  predicate PageOk(r: Ram, o: map<nat, Owner>, d: nat, v: nat) {
    Lookup(r, d, v).Present? ==>
      var f := Lookup(r, d, v).frame; v < USERPAGES && f in o && o[f] == PageOf(d, v) && f in r.pages
  }

  ghost predicate PagesOk(r: Ram, o: map<nat, Owner>) {
    && (forall d, v: nat :: d in r.dirs ==> PageOk(r, o, d, v))
    && (forall f :: f in o && o[f].PageOf? ==> o[f].v < USERPAGES && Mapped(r, o[f].d, o[f].v, f))
  }

  predicate Mapped(r: Ram, d: nat, v: nat, f: nat) {
    Lookup(r, d, v).Present? && Lookup(r, d, v).frame == f
  }

  predicate HugeOk(dirs: map<nat, seq<Pde>>, hugepages: map<nat, Page>, ho: map<nat, HugeOwner>, d: nat, i: nat)
    requires d in dirs && i < |dirs[d]|
  {
    dirs[d][i].Huge? ==>
      var h := dirs[d][i].frame;
      i < USERTABLES && dirs[d][i].flags == HUGE_FLAGS && h in ho && ho[h] == HugeOf(d, i) && h in hugepages
  }

  predicate HugeAt(dirs: map<nat, seq<Pde>>, d: nat, i: nat, h: nat) {
    d in dirs && i < |dirs[d]| && dirs[d][i].Huge? && dirs[d][i].frame == h
  }

  ghost predicate HugesOk(dirs: map<nat, seq<Pde>>, hugefree: seq<nat>, hugepages: map<nat, Page>,
                          ho: map<nat, HugeOwner>) {
    && Distinct(hugefree) && (forall h :: h in hugefree <==> h in ho && ho[h] == HugeFree)
    && (forall d, i: nat :: d in dirs && i < |dirs[d]| ==> HugeOk(dirs, hugepages, ho, d, i))
    && (forall h :: h in ho && ho[h].HugeOf? ==> HugeAt(dirs, ho[h].d, ho[h].i, h))
  }

  /** Every frame is in one place: free, a directory, one table, one page, or outside. */
  ghost predicate Inv(r: Ram, g: Ghosts) {
    && FreeOk(r, g.owner) && DirsOk(r, g.owner) && TablesOk(r, g.owner) && PagesOk(r, g.owner)
    && HugesOk(r.dirs, r.hugefree, r.hugepages, g.hugeOwner)
    && (forall f :: f in g.owner ==> f < FRAMES) && (forall h :: h in g.hugeOwner ==> h < HUGEFRAMES)
  }

  // ----- frames in and out -----

  /** kalloc: the head of the free list. */
  lemma KallocKeeps(r: Ram, g: Ghosts)
    requires Inv(r, g) && r.free != []
    ensures r.free[0] in g.owner && g.owner[r.free[0]] == Free
    ensures Inv(r.(free := r.free[1..]), g.(owner := g.owner[r.free[0] := Elsewhere]))
  {
    var f, r', o' := r.free[0], r.(free := r.free[1..]), g.owner[r.free[0] := Elsewhere];
    assert f in r.free;
    assert FreeOk(r', o') by {
      forall x ensures x in r'.free <==> x in o' && o'[x] == Free {
        assert x in r.free <==> x == r.free[0] || x in r.free[1..];
      }
    }
    SamePages(r, r', g.owner, o');
  }

  /** Changing only what is free and outside keeps tables and pages in order. */
  lemma SamePages(r: Ram, r': Ram, o: map<nat, Owner>, o': map<nat, Owner>)
    requires TablesOk(r, o) && PagesOk(r, o) && DirsOk(r, o)
    requires r'.dirs == r.dirs && r'.tables == r.tables && r.pages.Keys <= r'.pages.Keys
    requires forall f :: f in o && (o[f].TableOf? || o[f].PageOf? || o[f].Dir?) ==> f in o' && o'[f] == o[f]
    requires forall f :: f in o' && (o'[f].TableOf? || o'[f].PageOf? || o'[f].Dir?) ==> f in o && o'[f] == o[f]
    ensures TablesOk(r', o') && PagesOk(r', o') && DirsOk(r', o')
  {
    forall d, i: nat | d in r'.dirs && i < |r'.dirs[d]| ensures TableOk(r', o', d, i) {
      assert TableOk(r, o, d, i);
    }
    hide Lookup, PagesOk;
    SameLookups(r, r');
    NeedsDir(r);
    OwnersHaveDirs(r, o);
    PagesKept(r, r', o, o');
  }

  lemma SameLookups(r: Ram, r': Ram)
    requires r'.dirs == r.dirs && r'.tables == r.tables
    ensures forall e, w: nat :: Lookup(r', e, w) == Lookup(r, e, w)
  {
  }

  lemma NeedsDir(r: Ram)
    ensures forall e, w: nat :: Lookup(r, e, w).Present? ==> e in r.dirs
  {
  }

  lemma OwnersHaveDirs(r: Ram, o: map<nat, Owner>)
    requires PagesOk(r, o)
    ensures forall f :: f in o && o[f].PageOf? ==> o[f].d in r.dirs
  {
    forall f | f in o && o[f].PageOf? ensures o[f].d in r.dirs {
      assert Mapped(r, o[f].d, o[f].v, f);
    }
  }

  /** Pages stay in order while translations and the frames of pages stay as they are. */
  lemma PagesKept(r: Ram, r': Ram, o: map<nat, Owner>, o': map<nat, Owner>)
    requires PagesOk(r, o) && r.pages.Keys <= r'.pages.Keys
    requires forall e, w: nat :: e in r'.dirs ==>
               Lookup(r', e, w) == Lookup(r, e, w) && (Lookup(r, e, w).Present? ==> e in r.dirs)
    requires forall f :: f in o && o[f].PageOf? && o[f].d in r'.dirs ==> f in o' && o'[f] == o[f]
    requires forall f :: f in o' && o'[f].PageOf? ==> f in o && o'[f] == o[f] && o[f].d in r'.dirs
    ensures PagesOk(r', o')
  {
    hide Lookup;
    forall e, w: nat | e in r'.dirs ensures PageOk(r', o', e, w) {
      assert e in r.dirs ==> PageOk(r, o, e, w);
    }
    forall x | x in o' && o'[x].PageOf? ensures o'[x].v < USERPAGES && Mapped(r', o'[x].d, o'[x].v, x) {
      assert Mapped(r, o[x].d, o[x].v, x);
    }
  }

  /** kfree: a frame in transit goes back to the head of the free list, filled with junk. */
  lemma KfreeKeeps(r: Ram, g: Ghosts, f: nat, junk: Page)
    requires Inv(r, g) && f in g.owner && g.owner[f] == Elsewhere
    ensures Inv(r.(free := [f] + r.free, pages := r.pages[f := junk]), g.(owner := g.owner[f := Free]))
  {
    var r', o' := r.(free := [f] + r.free, pages := r.pages[f := junk]), g.owner[f := Free];
    assert f !in r.free;
    assert FreeOk(r', o') by {
      forall x ensures x in r'.free <==> x in o' && o'[x] == Free {
        assert x in r'.free <==> x == f || x in r.free;
      }
    }
    SamePages(r, r', g.owner, o');
  }

  // ----- page tables -----

  function BlankTable(): (t: seq<Pte>)
    ensures |t| == NPTENTRIES && forall k :: 0 <= k < NPTENTRIES ==> t[k] == Absent
  {
    seq(NPTENTRIES, _ => Absent)
  }

  function Install(r: Ram, d: nat, i: nat, t: nat): (r': Ram)
    requires d in r.dirs && i < |r.dirs[d]|
  {
    r.(dirs := r.dirs[d := r.dirs[d][i := Table(t)]], tables := r.tables[t := BlankTable()])
  }

  /** A blank page table translates nothing new. */
  lemma InstallLookup(r: Ram, g: Ghosts, d: nat, i: nat, t: nat, e: nat, w: nat)
    requires Inv(r, g) && d in r.dirs && i < |r.dirs[d]| && r.dirs[d][i] == NoEntry && t in g.owner
             && g.owner[t] == Elsewhere
    ensures Lookup(Install(r, d, i, t), e, w) == Lookup(r, e, w)
  {
    if e in r.dirs && Pdx(w) < |r.dirs[e]| {
      assert TableOk(r, g.owner, e, Pdx(w));
    }
  }

  lemma InstallKeeps(r: Ram, g: Ghosts, d: nat, i: nat, t: nat)
    requires Inv(r, g) && d in r.dirs && i < |r.dirs[d]| && r.dirs[d][i] == NoEntry && t in g.owner
             && g.owner[t] == Elsewhere
    ensures Inv(Install(r, d, i, t), g.(owner := g.owner[t := TableOf(d, i)]))
    ensures forall e, w: nat :: Lookup(Install(r, d, i, t), e, w) == Lookup(r, e, w)
  {
    var r', o, o' := Install(r, d, i, t), g.owner, g.owner[t := TableOf(d, i)];
    forall e, w: nat ensures Lookup(r', e, w) == Lookup(r, e, w) {
      InstallLookup(r, g, d, i, t, e, w);
    }
    InstallTables(r, o, d, i, t);
    InstallHuges(r, g, d, i, t);
    hide Lookup;
    forall e, v: nat | e in r'.dirs ensures PageOk(r', o', e, v) {
      assert PageOk(r, o, e, v);
    }
    forall f | f in o' && o'[f].PageOf? ensures o'[f].v < USERPAGES && Mapped(r', o'[f].d, o'[f].v, f) {
      assert Mapped(r, o[f].d, o[f].v, f);
    }
  }

  lemma InstallTables(r: Ram, o: map<nat, Owner>, d: nat, i: nat, t: nat)
    requires TablesOk(r, o) && DirsOk(r, o)
    requires d in r.dirs && i < |r.dirs[d]| && r.dirs[d][i] == NoEntry && t in o && o[t] == Elsewhere
    ensures TablesOk(Install(r, d, i, t), o[t := TableOf(d, i)]) && DirsOk(Install(r, d, i, t), o[t := TableOf(d, i)])
  {
    var r', o' := Install(r, d, i, t), o[t := TableOf(d, i)];
    forall e, j: nat | e in r'.dirs && j < |r'.dirs[e]| ensures TableOk(r', o', e, j) {
      assert TableOk(r, o, e, j);
    }
  }

  lemma InstallHuges(r: Ram, g: Ghosts, d: nat, i: nat, t: nat)
    requires HugesOk(r.dirs, r.hugefree, r.hugepages, g.hugeOwner) && d in r.dirs && i < |r.dirs[d]|
             && r.dirs[d][i] == NoEntry
    ensures var r' := Install(r, d, i, t); HugesOk(r'.dirs, r'.hugefree, r'.hugepages, g.hugeOwner)
  {
    var r', ho := Install(r, d, i, t), g.hugeOwner;
    forall e, j: nat | e in r'.dirs && j < |r'.dirs[e]| ensures HugeOk(r'.dirs, r'.hugepages, ho, e, j) {
      assert HugeOk(r.dirs, r.hugepages, ho, e, j);
    }
    forall h | h in ho && ho[h].HugeOf? ensures HugeAt(r'.dirs, ho[h].d, ho[h].i, h) {
      assert HugeAt(r.dirs, ho[h].d, ho[h].i, h);
    }
  }

  // ----- entries -----

  /** d has a page table for page v. */
  predicate Tabled(r: Ram, d: nat, v: nat) {
    && d in r.dirs && Pdx(v) < |r.dirs[d]| && r.dirs[d][Pdx(v)].Table?
    && r.dirs[d][Pdx(v)].frame in r.tables && |r.tables[r.dirs[d][Pdx(v)].frame]| == NPTENTRIES
  }

  /** *pte = p */
  function SetEntry(r: Ram, d: nat, v: nat, p: Pte): (r': Ram)
    requires Tabled(r, d, v)
  {
    var t := r.dirs[d][Pdx(v)].frame;
    r.(tables := r.tables[t := r.tables[t][Ptx(v) := p]])
  }

  lemma SetLookup(r: Ram, g: Ghosts, d: nat, v: nat, p: Pte, e: nat, w: nat)
    requires TablesOk(r, g.owner) && Tabled(r, d, v)
    ensures Lookup(SetEntry(r, d, v, p), e, w) == if e == d && w == v then p else Lookup(r, e, w)
  {
    assert TableOk(r, g.owner, d, Pdx(v));
    if e in r.dirs && Pdx(w) < |r.dirs[e]| {
      assert TableOk(r, g.owner, e, Pdx(w));
    }
  }

  /** Page v, so far unmapped, gets the frame f in transit, whose contents are `data`. */
  lemma MapKeeps(r: Ram, g: Ghosts, d: nat, v: nat, f: nat, flags: nat)
    requires Inv(r, g) && Tabled(r, d, v) && v < USERPAGES && Lookup(r, d, v) == Absent
    requires f in g.owner && g.owner[f] == Elsewhere && f in r.pages
    ensures Inv(SetEntry(r, d, v, Present(f, flags)), g.(owner := g.owner[f := PageOf(d, v)]))
    ensures forall e, w: nat :: Lookup(SetEntry(r, d, v, Present(f, flags)), e, w) ==
              if e == d && w == v then Present(f, flags) else Lookup(r, e, w)
  {
    var r', o, o' := SetEntry(r, d, v, Present(f, flags)), g.owner, g.owner[f := PageOf(d, v)];
    forall e, w: nat ensures Lookup(r', e, w) == if e == d && w == v then Present(f, flags) else Lookup(r, e, w) {
      SetLookup(r, g, d, v, Present(f, flags), e, w);
    }
    SetTables(r, o, d, v, Present(f, flags), f, PageOf(d, v));
    hide Lookup, SetEntry;
    forall e, w: nat | e in r'.dirs ensures PageOk(r', o', e, w) {
      assert PageOk(r, o, e, w);
    }
    forall x | x in o' && o'[x].PageOf? ensures o'[x].v < USERPAGES && Mapped(r', o'[x].d, o'[x].v, x) {
      assert x != f ==> Mapped(r, o[x].d, o[x].v, x);
    }
  }

  lemma SetTables(r: Ram, o: map<nat, Owner>, d: nat, v: nat, p: Pte, f: nat, role: Owner)
    requires TablesOk(r, o) && DirsOk(r, o) && Tabled(r, d, v)
    requires f in o && (o[f].PageOf? || o[f].Elsewhere?) && (role.PageOf? || role.Elsewhere?)
    ensures TablesOk(SetEntry(r, d, v, p), o[f := role]) && DirsOk(SetEntry(r, d, v, p), o[f := role])
    ensures var r' := SetEntry(r, d, v, p); r'.dirs == r.dirs && r' == r.(tables := r'.tables)
  {
    var r', o' := SetEntry(r, d, v, p), o[f := role];
    forall e, j: nat | e in r'.dirs && j < |r'.dirs[e]| ensures TableOk(r', o', e, j) {
      assert TableOk(r, o, e, j);
    }
  }

  /** Unmapping page v puts its frame in transit. */
  lemma UnmapKeeps(r: Ram, g: Ghosts, d: nat, v: nat)
    requires Inv(r, g) && Tabled(r, d, v) && v < USERPAGES && Lookup(r, d, v).Present?
    ensures var f := Lookup(r, d, v).frame;
            f in g.owner && g.owner[f] == PageOf(d, v)
              && Inv(SetEntry(r, d, v, Absent), g.(owner := g.owner[f := Elsewhere]))
    ensures forall e, w: nat :: Lookup(SetEntry(r, d, v, Absent), e, w) ==
              if e == d && w == v then Absent else Lookup(r, e, w)
  {
    assert PageOk(r, g.owner, d, v);
    var f := Lookup(r, d, v).frame;
    var r', o, o' := SetEntry(r, d, v, Absent), g.owner, g.owner[f := Elsewhere];
    forall e, w: nat ensures Lookup(r', e, w) == if e == d && w == v then Absent else Lookup(r, e, w) {
      SetLookup(r, g, d, v, Absent, e, w);
    }
    SetTables(r, o, d, v, Absent, f, Elsewhere);
    hide Lookup, SetEntry;
    forall e, w: nat | e in r'.dirs ensures PageOk(r', o', e, w) {
      assert PageOk(r, o, e, w);
    }
    forall x | x in o' && o'[x].PageOf? ensures o'[x].v < USERPAGES && Mapped(r', o'[x].d, o'[x].v, x) {
      assert Mapped(r, o[x].d, o[x].v, x);
    }
  }
}
