/** Whole address spaces: what growing, shrinking, creating, copying and freeing one does to memory and to
    the other address spaces, stated over values and proved step by step. */
module Spaces {
  import opened Blocks
  import opened PageTables

  // ----- changes confined to one address space -----

  /** A frame may go from free to a page or a table of d, and from a page of d back. */
  predicate Moves(a: Owner, b: Owner, d: nat) {
    || a == b
    || ((a.Free? || (a.PageOf? && a.d == d)) && (b.Free? || ((b.PageOf? || b.TableOf?) && b.d == d)))
  }

  /** Nothing changed but the address space of d and frames it took or gave back; frames in x aside. */
  ghost predicate Within(r: Ram, g: Ghosts, r': Ram, g': Ghosts, d: nat, x: set<nat>) {
    && r'.dirs.Keys == r.dirs.Keys && g'.owner.Keys == g.owner.Keys
    && (forall e :: e in r.dirs && e != d ==> r'.dirs[e] == r.dirs[e])
    && (forall e, w: nat :: e in r.dirs && e != d ==> Lookup(r', e, w) == Lookup(r, e, w))
    && DirKept(r, r', d)
    && r'.hugefree == r.hugefree && r'.hugepages == r.hugepages && g'.hugeOwner == g.hugeOwner
    && (forall f :: f in g.owner && f !in x ==> Moves(g.owner[f], g'.owner[f], d))
    && (forall f :: f in g.owner && g.owner[f].PageOf? && g.owner[f].d != d && f in r.pages && f !in x ==>
          f in r'.pages && r'.pages[f] == r.pages[f])
  }

  /** d only gained page tables. */
  ghost predicate DirKept(r: Ram, r': Ram, d: nat) {
    d in r.dirs && d in r'.dirs && |r'.dirs[d]| == |r.dirs[d]|
    && forall i :: 0 <= i < |r.dirs[d]| ==>
         r'.dirs[d][i] == r.dirs[d][i] || (r.dirs[d][i].NoEntry? && r'.dirs[d][i].Table?)
  }

  /** d's entries other than i are as before. */
  ghost predicate EntriesKept(r: Ram, r': Ram, d: nat, i: nat) {
    d in r.dirs && d in r'.dirs && |r'.dirs[d]| == |r.dirs[d]|
    && forall j :: 0 <= j < |r.dirs[d]| && j != i ==> r'.dirs[d][j] == r.dirs[d][j]
  }

  lemma WithinTrans(a: Ram, ga: Ghosts, b: Ram, gb: Ghosts, c: Ram, gc: Ghosts, d: nat, x: set<nat>)
    requires Within(a, ga, b, gb, d, x) && Within(b, gb, c, gc, d, x)
    ensures Within(a, ga, c, gc, d, x)
  {
    hide Lookup;
  }

  lemma WithinMore(a: Ram, ga: Ghosts, b: Ram, gb: Ghosts, d: nat, x: set<nat>)
    requires Within(a, ga, b, gb, d, {})
    ensures Within(a, ga, b, gb, d, x)
  {
    hide Lookup;
  }

  lemma WithinSettled(a: Ram, ga: Ghosts, b: Ram, gb: Ghosts, d: nat, f: nat)
    requires Within(a, ga, b, gb, d, {f})
    requires f in ga.owner ==> Moves(ga.owner[f], gb.owner[f], d) && !ga.owner[f].PageOf?
    ensures Within(a, ga, b, gb, d, {})
  {
    hide Lookup;
  }

  /** The only frames that changed hands became page tables of d. */
  ghost predicate TablesOnly(g: Ghosts, g': Ghosts, d: nat) {
    && g'.owner.Keys == g.owner.Keys
    && forall f :: f in g.owner ==>
         g'.owner[f] == g.owner[f] || (g.owner[f].Free? && g'.owner[f].TableOf? && g'.owner[f].d == d)
  }

  lemma WithinSelf(r: Ram, g: Ghosts, d: nat)
    requires d in r.dirs
    ensures Within(r, g, r, g, d, {})
  {
  }

  /** Taking the head of the free list as a page table for page v of d. */
  function Tabling(r: Ram, d: nat, v: nat): (r': Ram)
    requires r.free != [] && d in r.dirs && Pdx(v) < |r.dirs[d]|
  {
    Install(r.(free := r.free[1..]), d, Pdx(v), r.free[0])
  }

  lemma TablingKeeps(r: Ram, g: Ghosts, d: nat, v: nat)
    requires Inv(r, g) && r.free != [] && d in r.dirs && Pdx(v) < |r.dirs[d]| && r.dirs[d][Pdx(v)] == NoEntry
    ensures var t, r' := r.free[0], Tabling(r, d, v);
            && t in g.owner && g.owner[t] == Free && Inv(r', g.(owner := g.owner[t := TableOf(d, Pdx(v))]))
            && (forall e, w: nat :: Lookup(r', e, w) == Lookup(r, e, w))
  {
    var t, i := r.free[0], Pdx(v);
    KallocKeeps(r, g);
    var r1, g1 := r.(free := r.free[1..]), g.(owner := g.owner[t := Elsewhere]);
    SameLookups(r, r1);
    assert g1.owner[t := TableOf(d, i)] == g.owner[t := TableOf(d, i)];
    hide Lookup, Inv, Install;
    InstallKeeps(r1, g1, d, i, t);
  }

  lemma TablingGhosts(g: Ghosts, t: nat, d: nat, i: nat)
    requires t in g.owner && g.owner[t] == Free
    ensures var g1 := g.(owner := g.owner[t := Elsewhere]);
            var g2 := g.(owner := g.owner[t := TableOf(d, i)]);
            g1.(owner := g1.owner[t := TableOf(d, i)]) == g2 && TablesOnly(g, g2, d)
  {
    assert g.owner[t := Elsewhere][t := TableOf(d, i)] == g.owner[t := TableOf(d, i)];
  }

  lemma TablingWithin(r: Ram, g: Ghosts, d: nat, v: nat)
    requires Inv(r, g) && r.free != [] && d in r.dirs && Pdx(v) < |r.dirs[d]| && r.dirs[d][Pdx(v)] == NoEntry
    ensures var t, r' := r.free[0], Tabling(r, d, v);
            && Within(r, g, r', g.(owner := g.owner[t := TableOf(d, Pdx(v))]), d, {})
            && Tabled(r', d, v) && r'.pages == r.pages && EntriesKept(r, r', d, Pdx(v))
  {
    TablingKeeps(r, g, d, v);
    hide Inv, Lookup;
  }

  lemma MapWithin(r: Ram, g: Ghosts, d: nat, v: nat, f: nat, flags: nat)
    requires Inv(r, g) && Tabled(r, d, v) && v < USERPAGES && Lookup(r, d, v) == Absent
    requires f in g.owner && g.owner[f] == Elsewhere && f in r.pages
    ensures Within(r, g, SetEntry(r, d, v, Present(f, flags)), g.(owner := g.owner[f := PageOf(d, v)]), d, {f})
  {
    MapKeeps(r, g, d, v, f, flags);
    hide Lookup, Inv;
  }

  /** Unmapping page v and freeing its frame. */
  function Unmap(r: Ram, d: nat, v: nat, junk: Page): (r': Ram)
    requires Tabled(r, d, v) && Lookup(r, d, v).Present?
  {
    var f, r1 := Lookup(r, d, v).frame, SetEntry(r, d, v, Absent);
    r1.(free := [f] + r1.free, pages := r1.pages[f := junk])
  }

  lemma UnmapFreeKeeps(r: Ram, g: Ghosts, d: nat, v: nat, junk: Page)
    requires Inv(r, g) && Tabled(r, d, v) && v < USERPAGES && Lookup(r, d, v).Present?
    ensures var f, r' := Lookup(r, d, v).frame, Unmap(r, d, v, junk);
            && f in g.owner && g.owner[f] == PageOf(d, v) && Inv(r', g.(owner := g.owner[f := Free]))
            && (forall e, w: nat :: Lookup(r', e, w) == if e == d && w == v then Absent else Lookup(r, e, w))
            && r'.dirs == r.dirs && r' == r.(free := r'.free, tables := r'.tables, pages := r'.pages)
            && r'.pages == r.pages[f := junk]
  {
    UnmapKeeps(r, g, d, v);
    var f, r1 := Lookup(r, d, v).frame, SetEntry(r, d, v, Absent);
    var g1 := g.(owner := g.owner[f := Elsewhere]);
    hide Inv;
    KfreeKeeps(r1, g1, f, junk);
    assert g1.owner[f := Free] == g.owner[f := Free];
    var r' := Unmap(r, d, v, junk);
    SameLookups(r1, r');
    hide Lookup;
  }

  lemma UnmapWithin(r: Ram, g: Ghosts, d: nat, v: nat, junk: Page)
    requires Inv(r, g) && Tabled(r, d, v) && v < USERPAGES && Lookup(r, d, v).Present?
    ensures Within(r, g, Unmap(r, d, v, junk), g.(owner := g.owner[Lookup(r, d, v).frame := Free]), d, {})
  {
    UnmapFreeKeeps(r, g, d, v, junk);
    hide Lookup, Inv, Unmap;
  }

  lemma SetKept(r0: Ram, r: Ram, d: nat, v: nat, p: Pte)
    requires EntriesKept(r0, r, d, Pdx(v)) && Tabled(r, d, v)
    ensures EntriesKept(r0, SetEntry(r, d, v, p), d, Pdx(v)) && SetEntry(r, d, v, p).pages == r.pages
            && SetEntry(r, d, v, p).free == r.free
  {
  }

  /** Entering frame f for page v, once walkpgdir has found its table. */
  lemma MapStep(r0: Ram, g0: Ghosts, r: Ram, g: Ghosts, d: nat, v: nat, f: nat, flags: nat)
    requires Inv(r, g) && Within(r0, g0, r, g, d, {}) && TablesOnly(g0, g, d) && r.pages == r0.pages
             && EntriesKept(r0, r, d, Pdx(v))
    requires forall e, w: nat :: Lookup(r, e, w) == Lookup(r0, e, w)
    requires Tabled(r, d, v) && v < USERPAGES && Lookup(r, d, v) == Absent && f in g0.owner && g0.owner[f] == Elsewhere
             && f in r.pages
    ensures f in g.owner && g.owner[f] == Elsewhere
    ensures var r', g' := SetEntry(r, d, v, Present(f, flags)), g.(owner := g.owner[f := PageOf(d, v)]);
            && Inv(r', g') && Within(r0, g0, r', g', d, {f}) && r'.pages == r.pages && r'.free == r.free
            && (forall e, w: nat :: Lookup(r', e, w) ==
                   if e == d && w == v then Present(f, flags) else Lookup(r0, e, w))
            && TablesOnly(g0.(owner := g0.owner[f := PageOf(d, v)]), g', d) && EntriesKept(r0, r', d, Pdx(v))
  {
    hide Lookup, Inv, Within, SetEntry, EntriesKept;
    WithinMore(r0, g0, r, g, d, {f});
    MapKeeps(r, g, d, v, f, flags);
    MapWithin(r, g, d, v, f, flags);
    SetKept(r0, r, d, v, Present(f, flags));
    WithinTrans(r0, g0, r, g, SetEntry(r, d, v, Present(f, flags)), g.(owner := g.owner[f := PageOf(d, v)]), d, {f});
  }

  // ----- a new page -----

  /** Page v of d, so far unmapped, got the free frame f with the given contents; page tables of d may
      have been added, and nothing else changed. */
  ghost predicate Added(r0: Ram, g0: Ghosts, r: Ram, g: Ghosts, d: nat, v: nat, f: nat, flags: nat, data: Page) {
    && Within(r0, g0, r, g, d, {}) && r.pages == r0.pages[f := data] && f in g0.owner && g0.owner[f].Free?
    && (forall e, w: nat :: Lookup(r, e, w) == if e == d && w == v then Present(f, flags) else Lookup(r0, e, w))
    && TablesOnly(g0.(owner := g0.owner[f := PageOf(d, v)]), g, d) && EntriesKept(r0, r, d, Pdx(v))
  }

  /** kalloc and filling the frame: it is in transit now. */
  function Taken(r: Ram, data: Page): (r': Ram)
    requires r.free != []
  {
    r.(free := r.free[1..], pages := r.pages[r.free[0] := data])
  }

  lemma TakenKeeps(r: Ram, g: Ghosts, d: nat, data: Page)
    requires Inv(r, g) && r.free != [] && d in r.dirs
    ensures var f, r' := r.free[0], Taken(r, data);
            var g' := g.(owner := g.owner[f := Elsewhere]);
            && f in g.owner && g.owner[f].Free? && Inv(r', g') && Within(r, g, r', g', d, {f})
            && (forall e, w: nat :: Lookup(r', e, w) == Lookup(r, e, w))
  {
    KallocKeeps(r, g);
    var f, g' := r.free[0], g.(owner := g.owner[r.free[0] := Elsewhere]);
    var r1, r' := r.(free := r.free[1..]), Taken(r, data);
    FillKeeps(r1, g', f, data);
    SameLookups(r, r');
    hide Lookup, Inv;
  }

  lemma FillKeeps(r: Ram, g: Ghosts, f: nat, data: Page)
    requires Inv(r, g) && f in g.owner && g.owner[f].Elsewhere?
    ensures Inv(r.(pages := r.pages[f := data]), g)
  {
    SamePages(r, r.(pages := r.pages[f := data]), g.owner, g.owner);
  }

  /** Taking a frame and entering it makes a new page. */
  lemma AddedNow(r0: Ram, g0: Ghosts, r: Ram, g: Ghosts, d: nat, v: nat, flags: nat, data: Page)
    requires r0.free != [] && r0.free[0] in g0.owner && g0.owner[r0.free[0]].Free?
    requires var f, r1 := r0.free[0], Taken(r0, data);
             var g1 := g0.(owner := g0.owner[f := Elsewhere]);
             && Within(r0, g0, r1, g1, d, {f}) && Within(r1, g1, r, g, d, {f}) && r.pages == r1.pages
             && f in g.owner && g.owner[f] == PageOf(d, v)
                && TablesOnly(g1.(owner := g1.owner[f := PageOf(d, v)]), g, d)
             && (forall e, w: nat :: Lookup(r1, e, w) == Lookup(r0, e, w))
             && (forall e, w: nat :: Lookup(r, e, w) ==
                    if e == d && w == v then Present(f, flags) else Lookup(r1, e, w))
             && EntriesKept(r1, r, d, Pdx(v))
    ensures Added(r0, g0, r, g, d, v, r0.free[0], flags, data)
  {
    var f, r1 := r0.free[0], Taken(r0, data);
    var g1 := g0.(owner := g0.owner[f := Elsewhere]);
    hide Lookup, Within;
    WithinTrans(r0, g0, r1, g1, r, g, d, {f});
    WithinSettled(r0, g0, r, g, d, f);
    assert g1.owner[f := PageOf(d, v)] == g0.owner[f := PageOf(d, v)];
  }

  // ----- giving pages back -----

  /** Page w is among those that shrinking from oldsz, from page lo on, has reached before page v. */
  predicate Reached(w: nat, lo: nat, v: nat, oldsz: nat) {
    lo <= w < v && Addr(w) < oldsz
  }

  ghost function Released(o: map<nat, Owner>, d: nat, lo: nat, v: nat, oldsz: nat): (o': map<nat, Owner>) {
    map f | f in o :: if o[f].PageOf? && o[f].d == d && Reached(o[f].v, lo, v, oldsz) then Free else o[f]
  }

  /** Exactly the pages of d reached so far are unmapped, and their frames free. */
  ghost predicate Dropped(r0: Ram, g0: Ghosts, r: Ram, g: Ghosts, d: nat, lo: nat, v: nat, oldsz: nat) {
    && Within(r0, g0, r, g, d, {}) && r.dirs == r0.dirs && DropLookups(r0, r, d, lo, v, oldsz)
    && g.owner == Released(g0.owner, d, lo, v, oldsz) && DropContents(r0, r, g)
  }

  ghost predicate DropLookups(r0: Ram, r: Ram, d: nat, lo: nat, v: nat, oldsz: nat) {
    forall e, w: nat :: Lookup(r, e, w) == if e == d && Reached(w, lo, v, oldsz) then Absent else Lookup(r0, e, w)
  }

  ghost predicate DropContents(r0: Ram, r: Ram, g: Ghosts) {
    forall f :: f in g.owner && !g.owner[f].Free? && f in r0.pages ==> f in r.pages && r.pages[f] == r0.pages[f]
  }

  lemma DroppedDirs(r0: Ram, g0: Ghosts, r: Ram, g: Ghosts, d: nat, lo: nat, v: nat, newsz: nat, oldsz: nat)
    requires Dropped(r0, g0, r, g, d, lo, v, oldsz) && d in r0.dirs && |r0.dirs[d]| == NPDENTRIES
             && NoHuge(r0, d, newsz, oldsz)
    ensures d in r.dirs && |r.dirs[d]| == NPDENTRIES && NoHuge(r, d, newsz, oldsz)
  {
    hide Within, Lookup;
  }

  lemma DroppedNone(r: Ram, g: Ghosts, d: nat, lo: nat, oldsz: nat)
    requires d in r.dirs
    ensures Dropped(r, g, r, g, d, lo, lo, oldsz)
  {
    WithinSelf(r, g, d);
    hide Within;
    assert Released(g.owner, d, lo, lo, oldsz) == g.owner;
  }

  /** Nothing is mapped from page v up to page u. */
  lemma DropSkip(r0: Ram, g0: Ghosts, r: Ram, g: Ghosts, d: nat, lo: nat, v: nat, u: nat, oldsz: nat)
    requires Inv(r0, g0) && Dropped(r0, g0, r, g, d, lo, v, oldsz) && lo <= v <= u
    requires forall w: nat :: v <= w < u ==> Lookup(r, d, w) == Absent
    ensures Dropped(r0, g0, r, g, d, lo, u, oldsz)
  {
    hide Within, Lookup;
    forall e, w: nat
      ensures Lookup(r, e, w) == if e == d && Reached(w, lo, u, oldsz) then Absent else Lookup(r0, e, w)
    {
    }
    forall f | f in g0.owner && g0.owner[f].PageOf? && g0.owner[f].d == d ensures !(v <= g0.owner[f].v < u) {
      assert Mapped(r0, d, g0.owner[f].v, f);
      assert Lookup(r, d, g0.owner[f].v) ==
          if Reached(g0.owner[f].v, lo, v, oldsz) then Absent else Lookup(r0, d, g0.owner[f].v);
    }
    assert Released(g0.owner, d, lo, u, oldsz) == g.owner;
  }

  lemma DropStep(r0: Ram, g0: Ghosts, r: Ram, g: Ghosts, d: nat, lo: nat, v: nat, oldsz: nat, junk: Page)
    requires Inv(r0, g0) && Inv(r, g) && Dropped(r0, g0, r, g, d, lo, v, oldsz)
    requires lo <= v && Addr(v) < oldsz && v < USERPAGES && Tabled(r, d, v) && Lookup(r, d, v).Present?
    ensures var f, r' := Lookup(r, d, v).frame, Unmap(r, d, v, junk);
            var g' := g.(owner := g.owner[f := Free]);
            Inv(r', g') && Dropped(r0, g0, r', g', d, lo, v + 1, oldsz)
  {
    hide Inv, Within, Lookup, Unmap, Released;
    var f, r' := Lookup(r, d, v).frame, Unmap(r, d, v, junk);
    var g' := g.(owner := g.owner[f := Free]);
    DropOwners(r0, g0, r, g, d, lo, v, oldsz);
    UnmapFreeKeeps(r, g, d, v, junk);
    UnmapWithin(r, g, d, v, junk);
    WithinTrans(r0, g0, r, g, r', g', d, {});
    forall e, w: nat
      ensures Lookup(r', e, w) == if e == d && Reached(w, lo, v + 1, oldsz) then Absent else Lookup(r0, e, w)
    {
    }
  }

  lemma DropOwners(r0: Ram, g0: Ghosts, r: Ram, g: Ghosts, d: nat, lo: nat, v: nat, oldsz: nat)
    requires Inv(r0, g0) && Inv(r, g) && Dropped(r0, g0, r, g, d, lo, v, oldsz)
    requires lo <= v && Addr(v) < oldsz && v < USERPAGES && d in r.dirs && Lookup(r, d, v).Present?
    ensures Lookup(r, d, v).frame in g.owner
    ensures g.owner[Lookup(r, d, v).frame := Free] == Released(g0.owner, d, lo, v + 1, oldsz)
  {
    hide Within, Lookup, Inv;
    PageFrame(r, g, d, v);
    FrameOf(r0, g0, r, g, d, lo, v, oldsz);
    var f := Lookup(r, d, v).frame;
    forall x | x in g0.owner ensures g.owner[f := Free][x] == Released(g0.owner, d, lo, v + 1, oldsz)[x] {
    }
  }

  lemma PageFrame(r: Ram, g: Ghosts, d: nat, v: nat)
    requires Inv(r, g) && d in r.dirs && v < USERPAGES && Lookup(r, d, v).Present?
    ensures var f := Lookup(r, d, v).frame; f in g.owner && g.owner[f] == PageOf(d, v) && f in r.pages
  {
    assert PageOk(r, g.owner, d, v);
  }

  /** Only the frame now mapped at v ever was a frame of page v. */
  lemma FrameOf(r0: Ram, g0: Ghosts, r: Ram, g: Ghosts, d: nat, lo: nat, v: nat, oldsz: nat)
    requires Inv(r0, g0) && Dropped(r0, g0, r, g, d, lo, v, oldsz) && Lookup(r, d, v).Present?
    ensures forall x :: x in g0.owner && g0.owner[x] == PageOf(d, v) ==> x == Lookup(r, d, v).frame
  {
    assert Lookup(r, d, v) == Lookup(r0, d, v);
    hide Within, Lookup, Released;
    forall x | x in g0.owner && g0.owner[x] == PageOf(d, v) ensures x == Lookup(r, d, v).frame {
      assert Mapped(r0, g0.owner[x].d, g0.owner[x].v, x);
    }
  }

  /** No 4 MB page of d starts in the part of the address space from newsz to oldsz. */
  ghost predicate NoHuge(r: Ram, d: nat, newsz: nat, oldsz: nat)
    requires d in r.dirs
  {
    forall i :: newsz / HUGE_PAGE_SIZE <= i < |r.dirs[d]| && i * HUGE_PAGE_SIZE < oldsz ==> !r.dirs[d][i].Huge?
  }

  lemma DirSize(r: Ram, g: Ghosts, d: nat)
    requires Inv(r, g) && d in r.dirs
    ensures |r.dirs[d]| == NPDENTRIES
  {
  }

  lemma EntryInRange(r: Ram, d: nat, v: nat, newsz: nat, oldsz: nat)
    requires d in r.dirs && |r.dirs[d]| == NPDENTRIES && NoHuge(r, d, newsz, oldsz) && Up(newsz) <= v
             && Addr(v) < oldsz <= KERNBASE
    ensures v < USERPAGES && Pdx(v) < |r.dirs[d]| && !r.dirs[d][Pdx(v)].Huge?
  {
    assert newsz / HUGE_PAGE_SIZE <= Pdx(v);
    assert Pdx(v) * HUGE_PAGE_SIZE < oldsz;
  }

  lemma NoTable(r: Ram, g: Ghosts, d: nat, v: nat)
    requires !Tabled(r, d, v) && Inv(r, g) && d in r.dirs && Pdx(v) < |r.dirs[d]|
    ensures forall w: nat :: v <= w < NextTable(v) ==> Lookup(r, d, w) == Absent
  {
    assert TableOk(r, g.owner, d, Pdx(v));
    forall w: nat | v <= w < NextTable(v) ensures Lookup(r, d, w) == Absent {
      assert Pdx(w) == Pdx(v);
    }
  }

  /** Past oldsz or USERPAGES there is nothing to reach. */
  lemma DropFinish(r0: Ram, g0: Ghosts, r: Ram, g: Ghosts, d: nat, newsz: nat, v: nat, oldsz: nat)
    requires Dropped(r0, g0, r, g, d, Up(newsz), v, oldsz) && Addr(v) >= oldsz && oldsz <= KERNBASE
    ensures Dropped(r0, g0, r, g, d, Up(newsz), USERPAGES, oldsz)
  {
    hide Within, Lookup;
    assert forall w: nat :: Reached(w, Up(newsz), v, oldsz) == Reached(w, Up(newsz), USERPAGES, oldsz);
    assert Released(g0.owner, d, Up(newsz), v, oldsz) == Released(g0.owner, d, Up(newsz), USERPAGES, oldsz);
  }

  lemma UnmapInTwo(r: Ram, g: Ghosts, d: nat, v: nat)
    requires Inv(r, g) && Tabled(r, d, v) && v < USERPAGES && Lookup(r, d, v).Present?
    ensures var f := Lookup(r, d, v).frame;
            var r1, g1 := SetEntry(r, d, v, Absent), g.(owner := g.owner[f := Elsewhere]);
            && f in g.owner && f in g1.owner && g1.owner[f] == Elsewhere && Inv(r1, g1)
            && r1.(free := [f] + r1.free, pages := r1.pages[f := Filled(1)]) == Unmap(r, d, v, Filled(1))
            && g1.(owner := g1.owner[f := Free]) == g.(owner := g.owner[f := Free])
  {
    UnmapKeeps(r, g, d, v);
    var f := Lookup(r, d, v).frame;
    assert g.owner[f := Elsewhere][f := Free] == g.owner[f := Free];
  }

  // ----- growing -----

  /** Exactly the base pages below sz are mapped. */
  ghost predicate Sized(r: Ram, d: nat, sz: nat) {
    forall v: nat :: v < USERPAGES ==> (Lookup(r, d, v).Present? <==> Addr(v) < sz)
  }

  lemma {:induction false} Below(n: nat) returns (s: set<nat>)
    ensures |s| == n && forall k: nat :: k in s <==> k < n
  {
    if n == 0 {
      s := {};
    } else {
      s := Below(n - 1);
      s := s + {n - 1};
    }
  }

  /** Pages mapped without gap from 0 need as many frames, and frames lie below PHYSTOP. */
  lemma PagesFit(r: Ram, g: Ghosts, d: nat, n: nat)
    requires Inv(r, g) && d in r.dirs && n <= USERPAGES && forall v: nat :: v < n ==> Lookup(r, d, v).Present?
    ensures n <= FRAMES
  {
    var fs: seq<nat> := seq(n, v requires 0 <= v < n => Lookup(r, d, v).frame);
    forall v: nat | v < n ensures fs[v] in g.owner && g.owner[fs[v]] == PageOf(d, v) && fs[v] < FRAMES {
      PageFrame(r, g, d, v);
    }
    hide Lookup, Inv;
    forall v: nat, w: nat | v < w < n ensures fs[v] != fs[w] {
      assert g.owner[fs[v]] == PageOf(d, v) && g.owner[fs[w]] == PageOf(d, w);
    }
    var s := Below(FRAMES);
    Pigeonhole(fs, s);
  }

  /** An address space whose base pages fill [0, sz) stays below PHYSTOP, so below the huge pages. */
  lemma SizeFits(r: Ram, g: Ghosts, d: nat, sz: nat)
    requires Inv(r, g) && d in r.dirs && sz <= KERNBASE && forall v: nat :: Addr(v) < sz ==> Lookup(r, d, v).Present?
    ensures sz <= PHYSTOP < HUGE_VA_OFFSET
  {
    hide Inv, Lookup;
    PagesFit(r, g, d, Up(sz));
  }

  predicate ZeroPage(r: Ram, d: nat, v: nat) {
    && Lookup(r, d, v).Present? && Lookup(r, d, v).flags == PTE_W + PTE_U + PTE_P
    && Lookup(r, d, v).frame in r.pages && r.pages[Lookup(r, d, v).frame] == Filled(0)
  }

  /** Pages lo to v of d are new: zeroed, writable, user, on frames that were free. */
  ghost predicate Grown(r0: Ram, g0: Ghosts, r: Ram, g: Ghosts, d: nat, lo: nat, v: nat) {
    && Within(r0, g0, r, g, d, {})
    && (forall e, w: nat :: !(e == d && lo <= w < v) ==> Lookup(r, e, w) == Lookup(r0, e, w))
    && (forall w: nat :: lo <= w < v ==> ZeroPage(r, d, w))
    && GrownOwners(g0, g, d, lo, v) && ContentsKept(r0, g0, r) && HighKept(r0, r, d)
  }

  /** d's entries from HUGE_VA_OFFSET on are as before. */
  ghost predicate HighKept(r: Ram, r': Ram, d: nat) {
    d in r.dirs && d in r'.dirs && |r'.dirs[d]| == |r.dirs[d]|
    && forall i :: HUGEBASE <= i < |r.dirs[d]| ==> r'.dirs[d][i] == r.dirs[d][i]
  }

  ghost predicate GrownOwners(g0: Ghosts, g: Ghosts, d: nat, lo: nat, v: nat) {
    && g.owner.Keys == g0.owner.Keys
    && forall f :: f in g0.owner ==> g.owner[f] == g0.owner[f] || (g0.owner[f].Free? && TakenFor(g.owner[f], d, lo, v))
  }

  predicate TakenFor(o: Owner, d: nat, lo: nat, v: nat) {
    (o.PageOf? && o.d == d && lo <= o.v < v) || (o.TableOf? && o.d == d)
  }

  /** Frames in use kept their contents. */
  ghost predicate ContentsKept(r0: Ram, g0: Ghosts, r: Ram) {
    forall f :: f in g0.owner && !g0.owner[f].Free? && f in r0.pages ==> f in r.pages && r.pages[f] == r0.pages[f]
  }

  lemma NextAddr(v: nat)
    ensures Addr(v + 1) == Addr(v) + 4096
  {
  }

  lemma StartGrowing(r: Ram, g: Ghosts, d: nat, sz: nat)
    requires d in r.dirs
    ensures Grown(r, g, r, g, d, Up(sz), Up(sz)) && Addr(Up(sz)) < sz + 4096
  {
    WithinSelf(r, g, d);
    hide Within, Lookup;
  }

  lemma GrowStep(r0: Ram, g0: Ghosts, r: Ram, g: Ghosts, r': Ram, g': Ghosts, d: nat, lo: nat, v: nat, f: nat)
    requires Inv(r, g) && Grown(r0, g0, r, g, d, lo, v) && lo <= v < USERPAGES && d in r.dirs && Pdx(v) < HUGEBASE
    requires Added(r, g, r', g', d, v, f, PTE_W + PTE_U + PTE_P, Filled(0))
    ensures Grown(r0, g0, r', g', d, lo, v + 1)
  {
    hide Lookup, Inv, Within;
    WithinTrans(r0, g0, r, g, r', g', d, {});
    assert ContentsKept(r0, g0, r') by { hide TablesOnly, ZeroPage; }
    forall w: nat | lo <= w < v + 1 ensures ZeroPage(r', d, w) {
      if w < v {
        assert ZeroPage(r, d, w);
        PageFrame(r, g, d, w);
      }
    }
  }

  /** The translation is what it was, and no frame was lost but to page tables of d. */
  ghost predicate RolledBack(r0: Ram, g0: Ghosts, r: Ram, g: Ghosts, d: nat) {
    && Within(r0, g0, r, g, d, {}) && TablesOnly(g0, g, d) && ContentsKept(r0, g0, r) && HighKept(r0, r, d)
    && (forall e, w: nat :: Lookup(r, e, w) == Lookup(r0, e, w))
  }

  lemma GrowUndo(r0: Ram, g0: Ghosts, r: Ram, g: Ghosts, r': Ram, g': Ghosts, d: nat, oldsz: nat, v: nat, newsz: nat)
    requires Inv(r0, g0) && Sized(r0, d, oldsz) && Grown(r0, g0, r, g, d, Up(oldsz), v) && d in r0.dirs
    requires Dropped(r, g, r', g', d, Up(oldsz), USERPAGES, newsz) && newsz <= KERNBASE
    requires forall w: nat :: Up(oldsz) <= w < v ==> Addr(w) < newsz
    ensures RolledBack(r0, g0, r', g', d)
  {
    hide Inv, Lookup, Within;
    WithinTrans(r0, g0, r, g, r', g', d, {});
    forall e, w: nat ensures Lookup(r', e, w) == Lookup(r0, e, w) {
      UndoLookup(r0, g0, r, g, r', g', d, oldsz, v, newsz, e, w);
    }
    UndoOwners(r0, g0, r, g, r', g', d, oldsz, v, newsz);
    UndoContents(r0, g0, r, g, r', g', d, oldsz, v, newsz);
    hide Grown, Dropped, Sized, TablesOnly, ContentsKept;
  }

  lemma UndoLookup(r0: Ram, g0: Ghosts, r: Ram, g: Ghosts, r': Ram, g': Ghosts, d: nat, oldsz: nat, v: nat, newsz: nat,
                   e: nat, w: nat)
    requires Sized(r0, d, oldsz) && Grown(r0, g0, r, g, d, Up(oldsz), v)
    requires Dropped(r, g, r', g', d, Up(oldsz), USERPAGES, newsz) && newsz <= KERNBASE
    requires forall w: nat :: Up(oldsz) <= w < v ==> Addr(w) < newsz
    ensures Lookup(r', e, w) == Lookup(r0, e, w)
  {
    hide Lookup, Within, GrownOwners, Released;
    assert Up(oldsz) <= w < v ==> Addr(w) < newsz;
    if e == d && Up(oldsz) <= w < USERPAGES {
      assert !Lookup(r0, d, w).Present?;
    }
  }

  lemma OldPagesBelow(r0: Ram, g0: Ghosts, d: nat, oldsz: nat, f: nat)
    requires Inv(r0, g0) && Sized(r0, d, oldsz) && f in g0.owner && g0.owner[f].PageOf? && g0.owner[f].d == d
    ensures g0.owner[f].v < Up(oldsz)
  {
    assert Mapped(r0, g0.owner[f].d, g0.owner[f].v, f);
    hide Lookup;
  }

  lemma UndoOwners(r0: Ram, g0: Ghosts, r: Ram, g: Ghosts, r': Ram, g': Ghosts, d: nat, oldsz: nat, v: nat, newsz: nat)
    requires Inv(r0, g0) && Sized(r0, d, oldsz) && Grown(r0, g0, r, g, d, Up(oldsz), v)
    requires Dropped(r, g, r', g', d, Up(oldsz), USERPAGES, newsz) && newsz <= KERNBASE
    requires forall w: nat :: Up(oldsz) <= w < v ==> Addr(w) < newsz
    ensures TablesOnly(g0, g', d)
  {
    hide Inv, Lookup, Within, ContentsKept, Sized;
    forall f | f in g0.owner
      ensures g'.owner[f] == g0.owner[f] || (g0.owner[f].Free? && g'.owner[f].TableOf? && g'.owner[f].d == d)
    {
      if g0.owner[f].PageOf? && g0.owner[f].d == d {
        OldPagesBelow(r0, g0, d, oldsz, f);
      }
      assert g0.owner[f].Free? && g.owner[f].PageOf? ==> Addr(g.owner[f].v) < newsz;
    }
  }

  lemma UndoContents(r0: Ram, g0: Ghosts, r: Ram, g: Ghosts, r': Ram, g': Ghosts, d: nat, oldsz: nat, v: nat,
                     newsz: nat)
    requires Inv(r0, g0) && Sized(r0, d, oldsz) && Grown(r0, g0, r, g, d, Up(oldsz), v)
    requires Dropped(r, g, r', g', d, Up(oldsz), USERPAGES, newsz)
    ensures ContentsKept(r0, g0, r')
  {
    hide Inv, Lookup, Within, Sized;
    forall f | f in g0.owner && !g0.owner[f].Free? && f in r0.pages
      ensures f in r'.pages && r'.pages[f] == r0.pages[f]
    {
      if g0.owner[f].PageOf? && g0.owner[f].d == d {
        OldPagesBelow(r0, g0, d, oldsz, f);
      }
    }
  }

  /** Shrinking with frame f in transit, and then freeing f, is shrinking. */
  lemma TransitDropped(r0: Ram, g0: Ghosts, data: Page, r: Ram, g: Ghosts, d: nat, lo: nat, newsz: nat)
    requires Inv(r0, g0) && r0.free != [] && d in r0.dirs && r0.free[0] in g0.owner && g0.owner[r0.free[0]].Free?
    requires Dropped(Taken(r0, data), g0.(owner := g0.owner[r0.free[0] := Elsewhere]), r, g, d, lo, USERPAGES, newsz)
    ensures var f := r0.free[0];
            && f in g.owner && g.owner[f] == Elsewhere
            && Dropped(r0, g0, r.(free := [f] + r.free, pages := r.pages[f := Filled(1)]),
                       g.(owner := g.owner[f := Free]), d, lo, USERPAGES, newsz)
  {
    var f, r1, g1 := r0.free[0], Taken(r0, data), g0.(owner := g0.owner[r0.free[0] := Elsewhere]);
    hide Lookup, Inv, Within;
    TakenKeeps(r0, g0, d, data);
    assert f in g.owner && g.owner[f] == Elsewhere;
    PutBack(r, g, d, f);
    var r2, g2 := r.(free := [f] + r.free, pages := r.pages[f := Filled(1)]), g.(owner := g.owner[f := Free]);
    TransitWithin(r0, g0, r1, g1, r, g, r2, g2, d, f);
    ReleasedTransit(g0.owner, d, f, lo, newsz);
    hide Released, DropLookups, DropContents;
    TransitLookups(r0, r1, r, r2, d, lo, newsz);
    TransitContents(r0, data, r, g, f);
  }

  lemma TransitLookups(r0: Ram, r1: Ram, r: Ram, r2: Ram, d: nat, lo: nat, newsz: nat)
    requires DropLookups(r1, r, d, lo, USERPAGES, newsz) && forall e, w: nat :: Lookup(r1, e, w) == Lookup(r0, e, w)
    requires forall e, w: nat :: Lookup(r2, e, w) == Lookup(r, e, w)
    ensures DropLookups(r0, r2, d, lo, USERPAGES, newsz)
  {
    hide Lookup;
  }

  lemma TransitContents(r0: Ram, data: Page, r: Ram, g: Ghosts, f: nat)
    requires r0.free != [] && f == r0.free[0] && f in g.owner && DropContents(Taken(r0, data), r, g)
    ensures DropContents(r0, r.(free := [f] + r.free, pages := r.pages[f := Filled(1)]),
                  g.(owner := g.owner[f := Free]))
  {
  }

  lemma ReleasedTransit(o: map<nat, Owner>, d: nat, f: nat, lo: nat, newsz: nat)
    requires f in o && o[f].Free?
    ensures Released(o[f := Elsewhere], d, lo, USERPAGES, newsz)[f := Free] == Released(o, d, lo, USERPAGES, newsz)
  {
  }

  lemma PutBack(r: Ram, g: Ghosts, d: nat, f: nat)
    requires d in r.dirs && f in g.owner && g.owner[f].Elsewhere?
    ensures var r2, g2 := r.(free := [f] + r.free, pages := r.pages[f := Filled(1)]), g.(owner := g.owner[f := Free]);
            (forall e, w: nat :: Lookup(r2, e, w) == Lookup(r, e, w)) && Within(r, g, r2, g2, d, {f})
  {
    var r2 := r.(free := [f] + r.free, pages := r.pages[f := Filled(1)]);
    SameLookups(r, r2);
    hide Lookup;
  }

  lemma TransitWithin(r0: Ram, g0: Ghosts, r1: Ram, g1: Ghosts, r: Ram, g: Ghosts, r2: Ram, g2: Ghosts, d: nat, f: nat)
    requires Within(r0, g0, r1, g1, d, {f}) && Within(r1, g1, r, g, d, {}) && Within(r, g, r2, g2, d, {f})
    requires f in g0.owner && g0.owner[f].Free? && f in g2.owner && g2.owner[f].Free?
    ensures Within(r0, g0, r2, g2, d, {})
  {
    hide Within;
    WithinMore(r1, g1, r, g, d, {f});
    WithinTrans(r0, g0, r1, g1, r, g, d, {f});
    WithinTrans(r0, g0, r, g, r2, g2, d, {f});
    WithinSettled(r0, g0, r2, g2, d, f);
  }

  /** d has no 4 MB page below HUGE_VA_OFFSET. */
  ghost predicate BaseOnly(r: Ram, d: nat) {
    d in r.dirs && |r.dirs[d]| == NPDENTRIES && forall i :: 0 <= i < HUGEBASE ==> !r.dirs[d][i].Huge?
  }

  /** A growth to newsz that fails meets no 4 MB page when it is undone. */
  ghost predicate Undoable(r: Ram, d: nat, newsz: nat) {
    newsz <= HUGE_VA_OFFSET ||
    (d in r.dirs && |r.dirs[d]| == NPDENTRIES && forall i :: 0 <= i < USERTABLES ==> !r.dirs[d][i].Huge?)
  }

  lemma GrownDir(r0: Ram, g0: Ghosts, r: Ram, g: Ghosts, d: nat, lo: nat, v: nat)
    requires Grown(r0, g0, r, g, d, lo, v)
    ensures d in r0.dirs && d in r.dirs
  {
    hide Lookup;
  }

  lemma AllBelow(r0: Ram, g0: Ghosts, r: Ram, g: Ghosts, d: nat, oldsz: nat, v: nat)
    requires Sized(r0, d, oldsz) && Grown(r0, g0, r, g, d, Up(oldsz), v) && v <= USERPAGES
    ensures forall w: nat :: w < v ==> Lookup(r, d, w).Present?
  {
    hide Lookup, Within;
    forall w: nat | w < v ensures Lookup(r, d, w).Present? {
      if w >= Up(oldsz) {
        assert ZeroPage(r, d, w);
      }
    }
  }

  /** The next page to map lies below the huge pages and is unmapped. */
  lemma NextPlace(r0: Ram, g0: Ghosts, r: Ram, g: Ghosts, d: nat, oldsz: nat, v: nat)
    requires Inv(r, g) && Sized(r0, d, oldsz) && Grown(r0, g0, r, g, d, Up(oldsz), v) && BaseOnly(r0, d)
    requires Up(oldsz) <= v && Addr(v) < KERNBASE
    ensures v < USERPAGES && d in r.dirs && Pdx(v) < |r.dirs[d]| && !r.dirs[d][Pdx(v)].Huge? && Lookup(r, d, v).Absent?
    ensures Pdx(v) < HUGEBASE
  {
    AllBelow(r0, g0, r, g, d, oldsz, v);
    assert d in r.dirs;
    hide Inv, Lookup;
    PagesFit(r, g, d, v);
    assert Pdx(v) < HUGEBASE;
  }

  /** Where nothing huge is in the way of undoing. */
  lemma UndoPlace(r0: Ram, g0: Ghosts, r: Ram, g: Ghosts, d: nat, oldsz: nat, v: nat, newsz: nat)
    requires BaseOnly(r0, d) && Grown(r0, g0, r, g, d, Up(oldsz), v) && newsz <= KERNBASE
    requires Undoable(r0, d, newsz)
    ensures d in r.dirs && NoHuge(r, d, oldsz, newsz)
  {
    hide Lookup, GrownOwners, ContentsKept;
  }

  lemma GrownSized(r0: Ram, g0: Ghosts, r: Ram, g: Ghosts, d: nat, oldsz: nat, v: nat, newsz: nat)
    requires Inv(r, g) && Sized(r0, d, oldsz) && Grown(r0, g0, r, g, d, Up(oldsz), v) && oldsz <= newsz < KERNBASE
             && d in r.dirs
    requires v == Up(newsz)
    ensures Sized(r, d, newsz) && newsz <= PHYSTOP
  {
    hide Inv, Lookup, Within, GrownOwners, ContentsKept, HighKept, ZeroPage;
    assert v <= USERPAGES;
    AllBelow(r0, g0, r, g, d, oldsz, v);
    PagesFit(r, g, d, v);
  }

  // ----- how many frames it takes -----

  /** The entries of d without a page table among those that pages lo to hi need. */
  ghost function Lacking(r: Ram, d: nat, lo: nat, hi: nat): (s: set<nat>) {
    if lo < hi && d in r.dirs then set i: nat | Pdx(lo) <= i < |r.dirs[d]| && i * 1024 < hi && r.dirs[d][i].NoEntry?
    else {}
  }

  /** The frames it takes to map pages lo to hi of d: one a page, and one for each page table that is lacking. */
  ghost function FramesFor(r: Ram, d: nat, lo: nat, hi: nat): (n: int) {
    hi - lo + |Lacking(r, d, lo, hi)|
  }

  lemma TabledIff(r: Ram, g: Ghosts, d: nat, v: nat)
    requires Inv(r, g) && d in r.dirs && Pdx(v) < |r.dirs[d]| && !r.dirs[d][Pdx(v)].Huge?
    ensures Tabled(r, d, v) <==> !r.dirs[d][Pdx(v)].NoEntry?
  {
    assert TableOk(r, g.owner, d, Pdx(v));
  }

  lemma FramesLeft(r: Ram, g: Ghosts, d: nat, v: nat, hi: nat)
    requires Inv(r, g) && d in r.dirs && Pdx(v) < |r.dirs[d]| && !r.dirs[d][Pdx(v)].Huge? && v < hi
    ensures FramesFor(r, d, v, hi) >= if Tabled(r, d, v) then 1 else 2
  {
    TabledIff(r, g, d, v);
    hide Inv, Tabled;
    if r.dirs[d][Pdx(v)].NoEntry? {
      assert Pdx(v) in Lacking(r, d, v, hi);
      assert Lacking(r, d, v, hi) != {};
    }
  }

  /** A new page takes its share of the frames. */
  lemma FramesAdded(r: Ram, g: Ghosts, r': Ram, g': Ghosts, d: nat, v: nat, f: nat, flags: nat, data: Page, hi: nat)
    requires Inv(r, g) && d in r.dirs && Pdx(v) < |r.dirs[d]| && !r.dirs[d][Pdx(v)].Huge? && v < hi
    requires Added(r, g, r', g', d, v, f, flags, data)
    ensures FramesFor(r', d, v + 1, hi) == FramesFor(r, d, v, hi) - if Tabled(r, d, v) then 1 else 2
  {
    hide Inv, Tabled, Within, TablesOnly, Lacking;
    TabledIff(r, g, d, v);
    assert Lookup(r', d, v).Present?;
    LackingStep(r, r', d, v, hi);
  }

  lemma LackingStep(r: Ram, r': Ram, d: nat, v: nat, hi: nat)
    requires EntriesKept(r, r', d, Pdx(v)) && Pdx(v) < |r.dirs[d]| && r'.dirs[d][Pdx(v)].Table? && v < hi
    ensures Lacking(r', d, v + 1, hi) == Lacking(r, d, v, hi) - {Pdx(v)}
    ensures Pdx(v) in Lacking(r, d, v, hi) <==> r.dirs[d][Pdx(v)].NoEntry?
  {
    var after := v + 1;
    assert Pdx(v) <= Pdx(after) <= Pdx(v) + 1;
  }

  // ----- a process's address space -----

  /** The number of 4 MB pages for hugesz bytes. */
  function HugeUp(hugesz: nat): (n: nat) {
    (hugesz + 0x3F_FFFF) / 0x40_0000
  }

  /** From HUGE_VA_OFFSET on, exactly hugesz bytes are mapped, by 4 MB pages; none lie below. */
  ghost predicate HugeSized(r: Ram, d: nat, hugesz: nat) {
    && BaseOnly(r, d)
    && forall i :: HUGEBASE <= i < USERTABLES ==>
         if i < HUGEBASE + HugeUp(hugesz) then r.dirs[d][i].Huge? else r.dirs[d][i].NoEntry?
  }

  /** Exactly [0, sz) and [HUGE_VA_OFFSET, HUGE_VA_OFFSET + hugesz) are mapped. */
  ghost predicate Space(r: Ram, d: nat, sz: nat, hugesz: nat) {
    sz < KERNBASE && Sized(r, d, sz) && HugeSized(r, d, hugesz)
  }

  lemma HugeKept(r0: Ram, g0: Ghosts, r: Ram, g: Ghosts, d: nat, hugesz: nat)
    requires HugeSized(r0, d, hugesz) && Within(r0, g0, r, g, d, {}) && HighKept(r0, r, d)
    ensures HugeSized(r, d, hugesz)
  {
    hide Lookup;
  }

  lemma GrownSpace(r0: Ram, g0: Ghosts, r: Ram, g: Ghosts, d: nat, lo: nat, v: nat, hugesz: nat)
    requires HugeSized(r0, d, hugesz) && Grown(r0, g0, r, g, d, lo, v)
    ensures HugeSized(r, d, hugesz)
  {
    hide Within, HugeSized, Lookup;
    HugeKept(r0, g0, r, g, d, hugesz);
  }

  lemma RolledBackSpace(r0: Ram, g0: Ghosts, r: Ram, g: Ghosts, d: nat, sz: nat, hugesz: nat)
    requires Space(r0, d, sz, hugesz) && RolledBack(r0, g0, r, g, d)
    ensures Space(r, d, sz, hugesz)
  {
    hide Within, HugeSized, Lookup;
    HugeKept(r0, g0, r, g, d, hugesz);
  }

  lemma DroppedSpace(r0: Ram, g0: Ghosts, r: Ram, g: Ghosts, d: nat, sz: nat, newsz: nat, hugesz: nat)
    requires Space(r0, d, sz, hugesz) && Dropped(r0, g0, r, g, d, Up(newsz), USERPAGES, sz) && newsz <= sz
    ensures Space(r, d, newsz, hugesz)
  {
    hide Within, Lookup, DropContents, Released;
    forall v: nat | v < USERPAGES ensures Lookup(r, d, v).Present? <==> Addr(v) < newsz {
      assert Lookup(r, d, v) == if Reached(v, Up(newsz), USERPAGES, sz) then Absent else Lookup(r0, d, v);
    }
  }

  lemma UpReached(v: nat, sz: nat)
    requires Addr(v) >= sz && (v == 0 || Addr(v) < sz + 4096)
    ensures v == Up(sz)
  {
  }

  /** What makes the base part of an address space safe to shrink. */
  lemma ShrinkPlace(r: Ram, g: Ghosts, d: nat, sz: nat, newsz: nat, hugesz: nat)
    requires Inv(r, g) && Space(r, d, sz, hugesz)
    ensures d in r.dirs && NoHuge(r, d, newsz, sz) && sz <= PHYSTOP
  {
    hide Inv, Lookup;
    SizeFits(r, g, d, sz);
  }

  lemma SpaceParts(r: Ram, g: Ghosts, d: nat, sz: nat, hugesz: nat)
    requires Space(r, d, sz, hugesz)
    ensures d in r.dirs && BaseOnly(r, d) && Sized(r, d, sz) && sz < KERNBASE && Within(r, g, r, g, d, {})
  {
    WithinSelf(r, g, d);
  }

  lemma RolledBackSelf(r: Ram, g: Ghosts, d: nat)
    requires d in r.dirs
    ensures RolledBack(r, g, r, g, d)
    ensures forall r': Ram, g': Ghosts :: RolledBack(r, g, r', g', d) ==> Within(r, g, r', g', d, {})
  {
    WithinSelf(r, g, d);
    hide Within, Lookup;
  }

  lemma GrownWithin(r0: Ram, g0: Ghosts, r: Ram, g: Ghosts, d: nat, lo: nat, v: nat)
    requires Grown(r0, g0, r, g, d, lo, v)
    ensures Within(r0, g0, r, g, d, {})
  {
    hide Within;
  }

  lemma DroppedWithin(r0: Ram, g0: Ghosts, r: Ram, g: Ghosts, d: nat, lo: nat, v: nat, oldsz: nat)
    requires Dropped(r0, g0, r, g, d, lo, v, oldsz)
    ensures Within(r0, g0, r, g, d, {})
  {
    hide Within;
  }

  lemma NotSized(r: Ram, d: nat, sz: nat, hugesz: nat)
    requires Space(r, d, 0, hugesz) && sz > 0
    ensures !Space(r, d, sz, hugesz)
  {
    hide Lookup, HugeSized;
    assert !Lookup(r, d, 0).Present? && Addr(0) < sz;
  }

  // ----- whole address spaces -----

  function BlankDir(): (t: seq<Pde>)
    ensures |t| == NPDENTRIES && forall i :: 0 <= i < NPDENTRIES ==> t[i] == NoEntry
  {
    seq(NPDENTRIES, _ => NoEntry)
  }

  /** A frame from kalloc as an empty directory. */
  function NewDir(r: Ram): (r': Ram)
    requires r.free != []
  {
    r.(free := r.free[1..], dirs := r.dirs[r.free[0] := BlankDir()])
  }

  lemma NewDirLookup(r: Ram, g: Ghosts, e: nat, w: nat)
    requires Inv(r, g) && r.free != []
    ensures r.free[0] !in r.dirs && Lookup(NewDir(r), e, w) == Lookup(r, e, w)
  {
    assert r.free[0] in r.free;
  }

  lemma NewDirKeeps(r: Ram, g: Ghosts)
    requires Inv(r, g) && r.free != []
    ensures r.free[0] !in r.dirs && r.free[0] in g.owner && g.owner[r.free[0]].Free?
    ensures Inv(NewDir(r), g.(owner := g.owner[r.free[0] := Dir]))
    ensures forall e, w: nat :: Lookup(NewDir(r), e, w) == Lookup(r, e, w)
  {
    var r' := NewDir(r);
    KallocKeeps(r, g);
    forall e, w: nat ensures Lookup(r', e, w) == Lookup(r, e, w) && (Lookup(r, e, w).Present? ==> e in r.dirs) {
      NewDirLookup(r, g, e, w);
    }
    NewDirLookup(r, g, 0, 0);
    NewDirFree(r, g);
    NewDirTables(r, g);
    OwnersHaveDirs(r, g.owner);
    hide Lookup, FreeOk, TablesOk, HugesOk, PagesOk;
    PagesKept(r, r', g.owner, g.owner[r.free[0] := Dir]);
  }

  lemma NoDirAbsent(r: Ram, f: nat, w: nat)
    requires f !in r.dirs
    ensures Lookup(r, f, w) == Absent
  {
  }

  lemma NewDirFree(r: Ram, g: Ghosts)
    requires Inv(r, g) && r.free != [] && r.free[0] !in r.dirs
    ensures FreeOk(NewDir(r), g.owner[r.free[0] := Dir]) && DirsOk(NewDir(r), g.owner[r.free[0] := Dir])
  {
    KallocKeeps(r, g);
    assert FreeOk(r.(free := r.free[1..]), g.owner[r.free[0] := Elsewhere]);
    hide TablesOk, PagesOk, HugesOk;
    var o' := g.owner[r.free[0] := Dir];
    forall x ensures x in NewDir(r).free <==> x in o' && o'[x] == Free {
      assert x in r.(free := r.free[1..]).free <==>
          x in g.owner[r.free[0] := Elsewhere] && g.owner[r.free[0] := Elsewhere][x] == Free;
    }
  }

  lemma NewDirTables(r: Ram, g: Ghosts)
    requires Inv(r, g) && r.free != [] && r.free[0] !in r.dirs && r.free[0] in g.owner && g.owner[r.free[0]].Free?
    ensures TablesOk(NewDir(r), g.owner[r.free[0] := Dir])
    ensures HugesOk(NewDir(r).dirs, r.hugefree, r.hugepages, g.hugeOwner)
  {
    var r', o' := NewDir(r), g.owner[r.free[0] := Dir];
    forall e, i: nat | e in r'.dirs && i < |r'.dirs[e]| ensures TableOk(r', o', e, i) {
      assert e in r.dirs ==> TableOk(r, g.owner, e, i);
    }
    forall e, i: nat | e in r'.dirs && i < |r'.dirs[e]| ensures HugeOk(r'.dirs, r'.hugepages, g.hugeOwner, e, i) {
      assert e in r.dirs ==> HugeOk(r.dirs, r.hugepages, g.hugeOwner, e, i);
    }
    forall h | h in g.hugeOwner && g.hugeOwner[h].HugeOf?
      ensures HugeAt(r'.dirs, g.hugeOwner[h].d, g.hugeOwner[h].i, h)
    {
      assert HugeAt(r.dirs, g.hugeOwner[h].d, g.hugeOwner[h].i, h);
    }
  }

  /** The owners once d is gone and its first i tables are freed; d and the other tables are in transit. */
  ghost function Clearing(o: map<nat, Owner>, d: nat, i: nat): (o': map<nat, Owner>) {
    map f | f in o :: if f == d then Elsewhere
                      else if o[f].TableOf? && o[f].d == d then (if o[f].i < i then Free else Elsewhere)
                      else o[f]
  }

  function Detached(r: Ram, d: nat): (r': Ram) {
    r.(dirs := r.dirs - {d})
  }

  lemma DetachLookup(r: Ram, d: nat, e: nat, w: nat)
    ensures Lookup(Detached(r, d), e, w) == if e == d then Absent else Lookup(r, e, w)
  {
  }

  /** Taking d, which maps nothing any more, out of use. */
  lemma DetachKeeps(r: Ram, g: Ghosts, d: nat)
    requires Inv(r, g) && d in r.dirs && forall f :: f in g.owner && g.owner[f].PageOf? ==> g.owner[f].d != d
    requires forall i :: 0 <= i < |r.dirs[d]| ==> !r.dirs[d][i].Huge?
    ensures Inv(Detached(r, d), g.(owner := Clearing(g.owner, d, 0)))
    ensures forall e, w: nat :: Lookup(Detached(r, d), e, w) == if e == d then Absent else Lookup(r, e, w)
  {
    var r', o' := Detached(r, d), Clearing(g.owner, d, 0);
    forall e, w: nat
      ensures Lookup(r', e, w) == (if e == d then Absent else Lookup(r, e, w))
              && (Lookup(r, e, w).Present? ==> e in r.dirs)
    {
      DetachLookup(r, d, e, w);
    }
    DetachTables(r, g, d);
    DetachHuges(r, g, d);
    DetachFree(r, g, d);
    OwnersHaveDirs(r, g.owner);
    ClearingOwners(g.owner, d);
    hide Lookup, TablesOk, HugesOk, FreeOk, DirsOk, PagesOk, Clearing;
    PagesKept(r, r', g.owner, o');
  }

  lemma ClearingOwners(o: map<nat, Owner>, d: nat)
    ensures Clearing(o, d, 0).Keys == o.Keys
    ensures forall f :: f in o && o[f].PageOf? && f != d ==> Clearing(o, d, 0)[f] == o[f]
    ensures forall f :: f in o && Clearing(o, d, 0)[f].PageOf? ==> Clearing(o, d, 0)[f] == o[f]
  {
  }

  lemma DetachFree(r: Ram, g: Ghosts, d: nat)
    requires Inv(r, g) && d in r.dirs
    ensures FreeOk(Detached(r, d), Clearing(g.owner, d, 0)) && DirsOk(Detached(r, d), Clearing(g.owner, d, 0))
  {
    hide TablesOk, PagesOk, HugesOk;
  }

  lemma DetachTables(r: Ram, g: Ghosts, d: nat)
    requires Inv(r, g) && d in r.dirs
    ensures TablesOk(Detached(r, d), Clearing(g.owner, d, 0))
  {
    var r', o' := Detached(r, d), Clearing(g.owner, d, 0);
    hide PagesOk, HugesOk, FreeOk;
    forall e, i: nat | e in r'.dirs && i < |r'.dirs[e]| ensures TableOk(r', o', e, i) {
      assert TableOk(r, g.owner, e, i);
    }
  }

  lemma DetachHuges(r: Ram, g: Ghosts, d: nat)
    requires HugesOk(r.dirs, r.hugefree, r.hugepages, g.hugeOwner) && d in r.dirs
    requires forall i :: 0 <= i < |r.dirs[d]| ==> !r.dirs[d][i].Huge?
    ensures HugesOk(Detached(r, d).dirs, r.hugefree, r.hugepages, g.hugeOwner)
  {
    var dirs', ho := Detached(r, d).dirs, g.hugeOwner;
    forall e, i: nat | e in dirs' && i < |dirs'[e]| ensures HugeOk(dirs', r.hugepages, ho, e, i) {
      assert HugeOk(r.dirs, r.hugepages, ho, e, i);
    }
    forall h | h in ho && ho[h].HugeOf? ensures HugeAt(dirs', ho[h].d, ho[h].i, h) {
      assert HugeAt(r.dirs, ho[h].d, ho[h].i, h);
    }
  }

  /** The owners once d and everything it held is free. */
  ghost function Cleared(o: map<nat, Owner>, d: nat): (o': map<nat, Owner>) {
    map f | f in o :: if f == d || ((o[f].TableOf? || o[f].PageOf?) && o[f].d == d) then Free else o[f]
  }

  /** d is gone and every frame it held is free; nothing else changed. */
  ghost predicate Gone(r0: Ram, g0: Ghosts, r: Ram, g: Ghosts, d: nat) {
    && r.dirs == r0.dirs - {d} && g.owner == Cleared(g0.owner, d) && DropContents(r0, r, g)
    && r.hugefree == r0.hugefree && r.hugepages == r0.hugepages && g.hugeOwner == g0.hugeOwner
    && (forall e, w: nat :: Lookup(r, e, w) == if e == d then Absent else Lookup(r0, e, w))
  }

  /** Freeing tables: the first i are back, and only the free list and junk in freed frames changed. */
  ghost predicate Clears(r0: Ram, g0: Ghosts, r: Ram, g: Ghosts, d: nat, i: nat) {
    && g == g0.(owner := Clearing(g0.owner, d, i)) && DropContents(r0, r, g)
    && r == Detached(r0, d).(free := r.free, pages := r.pages)
  }

  lemma ClearsFirst(r0: Ram, g0: Ghosts, d: nat)
    ensures Clears(r0, g0, Detached(r0, d), g0.(owner := Clearing(g0.owner, d, 0)), d, 0)
  {
  }

  lemma ClearsStep(r0: Ram, g0: Ghosts, r: Ram, g: Ghosts, d: nat, i: nat)
    requires Inv(r0, g0) && d in r0.dirs && i < |r0.dirs[d]| && Clears(r0, g0, r, g, d, i)
    ensures var e := r0.dirs[d][i];
            if e.Table? then
              && e.frame in g.owner && g.owner[e.frame] == Elsewhere
              && Clears(r0, g0, r.(free := [e.frame] + r.free, pages := r.pages[e.frame := Filled(1)]),
                        g.(owner := g.owner[e.frame := Free]), d, i + 1)
            else Clears(r0, g0, r, g, d, i + 1)
  {
    ClearTable(r0, g0, d, i);
    hide Inv, Clearing;
  }

  lemma ClearsLast(r0: Ram, g0: Ghosts, r: Ram, g: Ghosts, d: nat)
    requires Inv(r0, g0) && d in r0.dirs && Clears(r0, g0, r, g, d, NPDENTRIES)
    requires forall f :: f in g0.owner && g0.owner[f].PageOf? ==> g0.owner[f].d != d
    ensures d in g.owner && g.owner[d] == Elsewhere
    ensures Gone(r0, g0, r.(free := [d] + r.free, pages := r.pages[d := Filled(1)]), g.(owner := g.owner[d := Free]), d)
  {
    ClearDone(r0, g0, d);
    hide Inv, Clearing, Cleared;
    var r' := r.(free := [d] + r.free, pages := r.pages[d := Filled(1)]);
    forall e, w: nat ensures Lookup(r', e, w) == if e == d then Absent else Lookup(r0, e, w) {
      DetachLookup(r0, d, e, w);
    }
    hide Lookup;
  }

  lemma GoneAfter(r0: Ram, g0: Ghosts, r1: Ram, g1: Ghosts, r: Ram, g: Ghosts, d: nat)
    requires Inv(r0, g0) && Dropped(r0, g0, r1, g1, d, 0, USERPAGES, KERNBASE) && Gone(r1, g1, r, g, d)
    ensures Gone(r0, g0, r, g, d)
  {
    hide Inv, Lookup, Dropped;
    DroppedAll(r0, g0, r1, g1, d);
    GoneContents(r0, r1, g1, r, g, d);
    hide DropContents, Cleared;
  }

  lemma GoneContents(r0: Ram, r1: Ram, g1: Ghosts, r: Ram, g: Ghosts, d: nat)
    requires DropContents(r0, r1, g1) && DropContents(r1, r, g) && g.owner == Cleared(g1.owner, d)
    ensures DropContents(r0, r, g)
  {
    forall f | f in g.owner && !g.owner[f].Free? && f in r0.pages ensures f in r.pages && r.pages[f] == r0.pages[f] {
      assert f in g1.owner && !g1.owner[f].Free?;
    }
  }

  lemma ClearTable(r: Ram, g: Ghosts, d: nat, i: nat)
    requires Inv(r, g) && d in r.dirs && i < |r.dirs[d]|
    ensures var es := r.dirs[d];
            if es[i].Table? then
              && es[i].frame in g.owner && es[i].frame != d && Clearing(g.owner, d, i)[es[i].frame] == Elsewhere
              && Clearing(g.owner, d, i)[es[i].frame := Free] == Clearing(g.owner, d, i + 1)
            else Clearing(g.owner, d, i) == Clearing(g.owner, d, i + 1)
  {
    assert TableOk(r, g.owner, d, i);
    hide PagesOk, HugesOk, FreeOk;
    assert forall f :: f in g.owner && g.owner[f] == TableOf(d, i) ==> r.dirs[d][i] == Table(f);
  }

  lemma ClearDone(r: Ram, g: Ghosts, d: nat)
    requires Inv(r, g) && d in r.dirs && forall f :: f in g.owner && g.owner[f].PageOf? ==> g.owner[f].d != d
    ensures d in g.owner && Clearing(g.owner, d, NPDENTRIES)[d] == Elsewhere
    ensures Clearing(g.owner, d, NPDENTRIES)[d := Free] == Cleared(g.owner, d)
  {
    hide PagesOk, HugesOk, FreeOk;
    assert forall f :: f in g.owner && g.owner[f].TableOf? && g.owner[f].d == d ==> g.owner[f].i < NPDENTRIES;
  }

  /** After deallocuvm(d, KERNBASE, 0) no frame is a page of d, and the owners are otherwise as before. */
  lemma DroppedAll(r0: Ram, g0: Ghosts, r: Ram, g: Ghosts, d: nat)
    requires Inv(r0, g0) && Dropped(r0, g0, r, g, d, 0, USERPAGES, KERNBASE)
    ensures forall f :: f in g.owner && g.owner[f].PageOf? ==> g.owner[f].d != d
    ensures Cleared(g.owner, d) == Cleared(g0.owner, d)
    ensures r.dirs == r0.dirs && r.hugefree == r0.hugefree && r.hugepages == r0.hugepages && g.hugeOwner == g0.hugeOwner
    ensures DropContents(r0, r, g) && forall e, w: nat :: e != d ==> Lookup(r, e, w) == Lookup(r0, e, w)
  {
    hide Lookup, TablesOk, HugesOk, FreeOk, DirsOk;
    assert forall f :: f in g0.owner && g0.owner[f].PageOf? ==> g0.owner[f].v < USERPAGES;
    assert forall w: nat :: w < USERPAGES ==> Reached(w, 0, USERPAGES, KERNBASE);
  }

  /** d is a new address space, made of frames that were free; nothing else changed. */
  ghost predicate Born(r0: Ram, g0: Ghosts, r: Ram, g: Ghosts, d: nat) {
    && BornDirs(r0, r, d) && BornOwners(g0, g, d) && ContentsKept(r0, g0, r)
    && r.hugefree == r0.hugefree && r.hugepages == r0.hugepages && g.hugeOwner == g0.hugeOwner
    && (forall e, w: nat :: e != d ==> Lookup(r, e, w) == Lookup(r0, e, w))
  }

  ghost predicate BornDirs(r0: Ram, r: Ram, d: nat) {
    && d !in r0.dirs && r.dirs.Keys == r0.dirs.Keys + {d}
    && (forall e :: e in r0.dirs ==> r.dirs[e] == r0.dirs[e]) && NoHugeIn(r, d)
  }

  ghost predicate NoHugeIn(r: Ram, d: nat) {
    d in r.dirs && |r.dirs[d]| == NPDENTRIES && forall i :: 0 <= i < NPDENTRIES ==> !r.dirs[d][i].Huge?
  }

  ghost predicate BornOwners(g0: Ghosts, g: Ghosts, d: nat) {
    && g.owner.Keys == g0.owner.Keys
    && forall f :: f in g0.owner ==>
         g.owner[f] == g0.owner[f] || (g0.owner[f].Free? && (f == d || HeldBy(g.owner[f], d)))
  }

  predicate HeldBy(o: Owner, d: nat) {
    (o.PageOf? || o.TableOf?) && o.d == d
  }

  /** Everything is as before, but for the order of the free list and the junk in free frames. */
  ghost predicate Restored(r0: Ram, g0: Ghosts, r: Ram, g: Ghosts) {
    && r.dirs == r0.dirs && g == g0 && ContentsKept(r0, g0, r)
    && r.hugefree == r0.hugefree && r.hugepages == r0.hugepages
    && (forall e, w: nat :: Lookup(r, e, w) == Lookup(r0, e, w))
  }

  /** d maps nothing below KERNBASE and has no page table there. */
  ghost predicate Empty(r: Ram, d: nat) {
    && d in r.dirs && |r.dirs[d]| == NPDENTRIES && (forall i :: 0 <= i < USERTABLES ==> r.dirs[d][i].NoEntry?)
    && (forall w: nat :: w < USERPAGES ==> Lookup(r, d, w) == Absent)
  }

  lemma BornDir(r0: Ram, g0: Ghosts, r: Ram, g: Ghosts, d: nat)
    requires Born(r0, g0, r, g, d)
    ensures d in r.dirs && NoHugeIn(r, d)
  {
  }

  lemma RestoredSelf(r: Ram, g: Ghosts)
    ensures Restored(r, g, r, g)
  {
  }

  lemma WalkedBorn(r0: Ram, g0: Ghosts, r: Ram, g: Ghosts, r': Ram, g': Ghosts, d: nat, i: nat)
    requires Born(r0, g0, r, g, d) && Within(r, g, r', g', d, {}) && TablesOnly(g, g', d) && r'.pages == r.pages
    requires EntriesKept(r, r', d, i) && forall e, w: nat :: Lookup(r', e, w) == Lookup(r, e, w)
    ensures Born(r0, g0, r', g', d) && NoHugeIn(r', d) && (Empty(r, d) && i >= USERTABLES ==> Empty(r', d))
  {
    hide Lookup, Within, Born;
    BornMore(r0, g0, r, g, r', g', d);
    BornDir(r0, g0, r', g', d);
  }

  lemma BornNow(r: Ram, g: Ghosts)
    requires Inv(r, g) && r.free != []
    ensures Born(r, g, NewDir(r), g.(owner := g.owner[r.free[0] := Dir]), r.free[0])
    ensures forall w: nat :: Lookup(NewDir(r), r.free[0], w) == Absent
  {
    NewDirKeeps(r, g);
    forall w: nat ensures Lookup(NewDir(r), r.free[0], w) == Absent {
      NoDirAbsent(r, r.free[0], w);
    }
    hide Inv, Lookup;
  }

  /** A change within d keeps it a new address space. */
  lemma BornMore(r0: Ram, g0: Ghosts, r: Ram, g: Ghosts, r': Ram, g': Ghosts, d: nat)
    requires Born(r0, g0, r, g, d) && Within(r, g, r', g', d, {})
    requires forall f :: f in g.owner && !g.owner[f].Free? && f in r.pages ==>
               f in r'.pages && r'.pages[f] == r.pages[f]
    requires forall f :: f in g.owner ==> g'.owner[f] == g.owner[f] || (g.owner[f].Free? && HeldBy(g'.owner[f], d))
    ensures Born(r0, g0, r', g', d)
  {
    hide Lookup;
    BornMoreContents(r0, g0, r, g, r', d);
    forall e, w: nat | e != d ensures Lookup(r', e, w) == Lookup(r0, e, w) {
      if e !in r.dirs {
        NoDirAbsent(r, e, w);
        NoDirAbsent(r', e, w);
      }
    }
  }

  lemma BornMoreContents(r0: Ram, g0: Ghosts, r: Ram, g: Ghosts, r': Ram, d: nat)
    requires BornOwners(g0, g, d) && ContentsKept(r0, g0, r)
    requires forall f :: f in g.owner && !g.owner[f].Free? && f in r.pages ==>
               f in r'.pages && r'.pages[f] == r.pages[f]
    ensures ContentsKept(r0, g0, r')
  {
    forall f | f in g0.owner && !g0.owner[f].Free? && f in r0.pages
      ensures f in r'.pages && r'.pages[f] == r0.pages[f]
    {
      assert g.owner[f] == g0.owner[f];
    }
  }

  /** Freeing the new address space again restores everything. */
  lemma BornGone(r0: Ram, g0: Ghosts, r: Ram, g: Ghosts, r': Ram, g': Ghosts, d: nat)
    requires Inv(r0, g0) && Born(r0, g0, r, g, d) && Gone(r, g, r', g', d) && d in g0.owner && g0.owner[d].Free?
    ensures Restored(r0, g0, r', g')
  {
    GoneOwners(r0, g0, g, d);
    RestoredContents(r0, g0, r, g, r', g', d);
    forall e, w: nat ensures Lookup(r', e, w) == Lookup(r0, e, w) {
      NoDirAbsent(r0, d, w);
    }
    hide Lookup, Inv, Cleared;
  }

  lemma GoneOwners(r0: Ram, g0: Ghosts, g: Ghosts, d: nat)
    requires Inv(r0, g0) && BornOwners(g0, g, d) && d !in r0.dirs && d in g0.owner && g0.owner[d].Free?
    ensures Cleared(g.owner, d) == g0.owner
  {
    forall f | f in g0.owner ensures !HeldBy(g0.owner[f], d) {
      if g0.owner[f].PageOf? {
        assert Mapped(r0, g0.owner[f].d, g0.owner[f].v, f);
      }
    }
    hide Inv;
  }

  lemma RestoredContents(r0: Ram, g0: Ghosts, r: Ram, g: Ghosts, r': Ram, g': Ghosts, d: nat)
    requires BornOwners(g0, g, d) && ContentsKept(r0, g0, r) && DropContents(r, r', g') && g'.owner == g0.owner
    ensures ContentsKept(r0, g0, r')
  {
  }

  /** The entries under which the kernel's part of an address space has page tables: 0x80000000 up to
      PHYSTOP bytes of memory, and the devices from 0xFE000000 on. */
  predicate KernelTable(i: nat) {
    512 <= i < 568 || 1016 <= i < 1024
  }

  /** How many of them there are below entry i. */
  function KernelTablesTo(i: nat): (n: nat)
    requires i >= 512
  {
    if i <= 568 then i - 512 else if i <= 1016 then 56 else if i <= 1024 then 56 + i - 1016 else 64
  }

  lemma KernelTablesNext(i: nat)
    requires i >= 512
    ensures KernelTablesTo(i + 1) == KernelTablesTo(i) + if KernelTable(i) then 1 else 0
    ensures KernelTable(i) ==> KernelTablesTo(i) < 64
  {
  }

  /** d has no entry from i on. */
  ghost predicate NoneFrom(r: Ram, d: nat, i: nat) {
    d in r.dirs && |r.dirs[d]| == NPDENTRIES && forall j :: i <= j < NPDENTRIES ==> r.dirs[d][j].NoEntry?
  }

  // ----- copying an address space -----

  /** An address space of n pages without any page table takes n frames and one for every 1024 pages or part. */
  lemma FramesForAll(r: Ram, d: nat, n: nat)
    requires Empty(r, d) && n <= USERPAGES
    ensures FramesFor(r, d, 0, n) == n + (n + 1023) / 1024
  {
    hide Lookup;
    var s := Below((n + 1023) / 1024);
    var lacking := Lacking(r, d, 0, n);
    forall i: nat ensures i in lacking <==> i in s {
      Part(i, n);
      if i * 1024 < n {
        assert r.dirs[d][i].NoEntry?;
      }
    }
    assert lacking == s;
  }

  lemma Part(i: nat, n: nat)
    ensures i * 1024 < n <==> i < (n + 1023) / 1024
    ensures i * 1024 < n <= USERPAGES ==> i < USERTABLES
  {
  }

  /** Page w of d has the flags and contents of page w of p. */
  predicate Twin(r: Ram, p: nat, d: nat, w: nat) {
    var a, b := Lookup(r, p, w), Lookup(r, d, w);
    && a.Present? && b.Present? && a.flags == b.flags
    && a.frame in r.pages && b.frame in r.pages && r.pages[a.frame] == r.pages[b.frame]
  }

  /** The pages of p below v, and no others, have been copied to d. */
  ghost predicate CopyTo(r: Ram, p: nat, d: nat, v: nat) {
    && (forall w: nat :: w < v ==> Twin(r, p, d, w))
    && (forall w: nat :: v <= w < USERPAGES ==> Lookup(r, d, w) == Absent)
    && HighEmpty(r, d)
  }

  ghost predicate HighEmpty(r: Ram, d: nat) {
    d in r.dirs && |r.dirs[d]| == NPDENTRIES && forall i :: HUGEBASE <= i < USERTABLES ==> r.dirs[d][i].NoEntry?
  }

  lemma CopyNone(r: Ram, p: nat, d: nat)
    requires Empty(r, d)
    ensures CopyTo(r, p, d, 0)
  {
    hide Lookup;
  }

  /** What the loop finds at page v: mapped in p, unmapped and below the huge pages in d. */
  lemma CopyPlace(r0: Ram, g0: Ghosts, r: Ram, g: Ghosts, p: nat, d: nat, v: nat, sz: nat, hugesz: nat)
    requires Inv(r0, g0) && Inv(r, g) && Space(r0, p, sz, hugesz) && Born(r0, g0, r, g, d) && CopyTo(r, p, d, v)
             && Addr(v) < sz
    ensures p != d && p in r.dirs && v < USERPAGES && Pdx(v) < HUGEBASE
    ensures d in r.dirs && Pdx(v) < |r.dirs[d]| && !r.dirs[d][Pdx(v)].Huge? && Lookup(r, d, v).Absent?
    ensures Lookup(r, p, v).Present? && Lookup(r, p, v).frame in r.pages && Tabled(r, p, v)
  {
    SpaceParts(r0, g0, p, sz, hugesz);
    ShrinkPlace(r0, g0, p, sz, 0, hugesz);
    assert v < USERPAGES && Lookup(r0, p, v).Present?;
    DirSize(r, g, p);
    assert TableOk(r, g.owner, p, Pdx(v));
    assert Lookup(r, p, v).Present? ==> Tabled(r, p, v);
    hide Inv, Lookup;
    PageFrame(r, g, p, v);
  }

  lemma AddedContents(r: Ram, g: Ghosts, r': Ram, g': Ghosts, d: nat, v: nat, f: nat, flags: nat, data: Page)
    requires Added(r, g, r', g', d, v, f, flags, data)
    ensures forall x :: x in g.owner && !g.owner[x].Free? && x in r.pages ==> x in r'.pages && r'.pages[x] == r.pages[x]
    ensures forall x :: x in g.owner ==> g'.owner[x] == g.owner[x] || (g.owner[x].Free? && HeldBy(g'.owner[x], d))
  {
    hide Lookup, Within;
  }

  lemma CopyStep(r0: Ram, g0: Ghosts, r: Ram, g: Ghosts, r': Ram, g': Ghosts, p: nat, d: nat, v: nat, f: nat)
    requires Inv(r, g) && Born(r0, g0, r, g, d) && CopyTo(r, p, d, v) && p != d && p in r.dirs && v < USERPAGES
             && Pdx(v) < HUGEBASE
    requires Lookup(r, p, v).Present? && Lookup(r, p, v).frame in r.pages
    requires Added(r, g, r', g', d, v, f, Lookup(r, p, v).flags, r.pages[Lookup(r, p, v).frame])
    ensures Born(r0, g0, r', g', d) && CopyTo(r', p, d, v + 1)
  {
    hide Inv, Lookup, Within, Born;
    AddedContents(r, g, r', g', d, v, f, Lookup(r, p, v).flags, r.pages[Lookup(r, p, v).frame]);
    BornMore(r0, g0, r, g, r', g', d);
    BornDir(r0, g0, r, g, d);
    forall w: nat | w < v + 1 ensures Twin(r', p, d, w) {
      assert w < v ==> Twin(r, p, d, w);
      PageFrame(r, g, p, w);
      if w < v {
        PageFrame(r, g, d, w);
      }
    }
  }

  /** Giving a frame in transit back leaves the new address space as it was. */
  lemma TransitBorn(r0: Ram, g0: Ghosts, r: Ram, g: Ghosts, d: nat, data: Page)
    requires Born(r0, g0, r, g, d) && r.free != [] && r.free[0] in g.owner && g.owner[r.free[0]].Free?
    ensures var f, r1 := r.free[0], Taken(r, data);
            Born(r0, g0, r1.(free := [f] + r1.free, pages := r1.pages[f := Filled(1)]),
                    g.(owner := g.owner[f := Elsewhere][f := Free]), d)
  {
    var f, r1 := r.free[0], Taken(r, data);
    var r2 := r1.(free := [f] + r1.free, pages := r1.pages[f := Filled(1)]);
    assert g.owner[f := Elsewhere][f := Free] == g.owner;
    SameLookups(r, r2);
    hide Lookup;
    BornMoreContents(r0, g0, r, g, r2, d);
  }

  // ----- 4 MB pages -----

  /** khugealloc, filling the page, and entering it at entry i of d. */
  function HugeAdd(r: Ram, d: nat, i: nat, data: Page): (r': Ram)
    requires r.hugefree != [] && d in r.dirs && i < |r.dirs[d]|
  {
    var h := r.hugefree[0];
    r.(hugefree := r.hugefree[1..], hugepages := r.hugepages[h := data],
            dirs := r.dirs[d := r.dirs[d][i := Huge(h, HUGE_FLAGS)]])
  }

  function HugeGhosts(g: Ghosts, h: nat, d: nat, i: nat): (g': Ghosts) {
    g.(hugeOwner := g.hugeOwner[h := HugeOf(d, i)])
  }

  lemma HugeAddLookup(r: Ram, d: nat, i: nat, data: Page, e: nat, w: nat)
    requires r.hugefree != [] && d in r.dirs && i < |r.dirs[d]| && r.dirs[d][i].NoEntry?
    ensures Lookup(HugeAdd(r, d, i, data), e, w) == Lookup(r, e, w)
  {
  }

  lemma HugeAddKeeps(r: Ram, g: Ghosts, d: nat, i: nat, data: Page)
    requires Inv(r, g) && r.hugefree != [] && d in r.dirs && i < USERTABLES && i < |r.dirs[d]| && r.dirs[d][i].NoEntry?
    ensures r.hugefree[0] in g.hugeOwner && g.hugeOwner[r.hugefree[0]].HugeFree?
    ensures Inv(HugeAdd(r, d, i, data), HugeGhosts(g, r.hugefree[0], d, i))
    ensures forall e, w: nat :: Lookup(HugeAdd(r, d, i, data), e, w) == Lookup(r, e, w)
  {
    var r' := HugeAdd(r, d, i, data);
    assert r.hugefree[0] in r.hugefree;
    forall e, w: nat ensures Lookup(r', e, w) == Lookup(r, e, w) {
      HugeAddLookup(r, d, i, data, e, w);
    }
    HugeAddHuges(r, g, d, i, data);
    HugeAddTables(r, g, d, i, data);
    hide Lookup, TablesOk, HugesOk;
    forall e, w: nat | e in r'.dirs ensures PageOk(r', g.owner, e, w) {
      assert PageOk(r, g.owner, e, w);
    }
    forall x | x in g.owner && g.owner[x].PageOf?
      ensures g.owner[x].v < USERPAGES && Mapped(r', g.owner[x].d, g.owner[x].v, x)
    {
      assert Mapped(r, g.owner[x].d, g.owner[x].v, x);
    }
  }

  lemma HugeAddTables(r: Ram, g: Ghosts, d: nat, i: nat, data: Page)
    requires TablesOk(r, g.owner) && DirsOk(r, g.owner) && r.hugefree != [] && d in r.dirs && i < |r.dirs[d]|
             && r.dirs[d][i].NoEntry?
    ensures TablesOk(HugeAdd(r, d, i, data), g.owner) && DirsOk(HugeAdd(r, d, i, data), g.owner)
  {
    var r' := HugeAdd(r, d, i, data);
    forall e, j: nat | e in r'.dirs && j < |r'.dirs[e]| ensures TableOk(r', g.owner, e, j) {
      assert TableOk(r, g.owner, e, j);
    }
  }

  lemma HugeAddHuges(r: Ram, g: Ghosts, d: nat, i: nat, data: Page)
    requires HugesOk(r.dirs, r.hugefree, r.hugepages, g.hugeOwner) && r.hugefree != [] && d in r.dirs
    requires i < USERTABLES && i < |r.dirs[d]| && r.dirs[d][i].NoEntry? && r.hugefree[0] in g.hugeOwner
    ensures var r' := HugeAdd(r, d, i, data);
            HugesOk(r'.dirs, r'.hugefree, r'.hugepages, HugeGhosts(g, r.hugefree[0], d, i).hugeOwner)
  {
    var h, r', ho, ho' := r.hugefree[0], HugeAdd(r, d, i, data), g.hugeOwner,
          HugeGhosts(g, r.hugefree[0], d, i).hugeOwner;
    assert h in r.hugefree;
    forall x ensures x in r'.hugefree <==> x in ho' && ho'[x] == HugeFree {
      assert x in r.hugefree <==> x == r.hugefree[0] || x in r.hugefree[1..];
    }
    forall e, j: nat | e in r'.dirs && j < |r'.dirs[e]| ensures HugeOk(r'.dirs, r'.hugepages, ho', e, j) {
      assert HugeOk(r.dirs, r.hugepages, ho, e, j);
    }
    forall x | x in ho' && ho'[x].HugeOf? ensures HugeAt(r'.dirs, ho'[x].d, ho'[x].i, x) {
      assert x != h ==> HugeAt(r.dirs, ho[x].d, ho[x].i, x);
    }
  }

  /** From r0 to r, d gained 4 MB pages at entries lo to i, and nothing else changed. */
  ghost predicate HugeGrown(r0: Ram, g0: Ghosts, r: Ram, g: Ghosts, d: nat, lo: nat, i: nat) {
    && r == r0.(hugefree := r.hugefree, hugepages := r.hugepages, dirs := r.dirs) && g == g0.(hugeOwner := g.hugeOwner)
    && r.dirs.Keys == r0.dirs.Keys && (forall e :: e in r0.dirs && e != d ==> r.dirs[e] == r0.dirs[e])
    && HugeEntries(r0, r, d, lo, i) && HugeContents(r0, g0, r, g)
    && (forall e, w: nat :: Lookup(r, e, w) == Lookup(r0, e, w))
    && |r.hugefree| + i == |r0.hugefree| + lo
  }

  ghost predicate HugeEntries(r0: Ram, r: Ram, d: nat, lo: nat, i: nat) {
    && d in r0.dirs && d in r.dirs && |r.dirs[d]| == |r0.dirs[d]|
    && forall j :: 0 <= j < |r0.dirs[d]| ==> if lo <= j < i then r.dirs[d][j].Huge? else r.dirs[d][j] == r0.dirs[d][j]
  }

  /** 4 MB frames in use kept their owner and contents. */
  ghost predicate HugeContents(r0: Ram, g0: Ghosts, r: Ram, g: Ghosts) {
    forall h :: h in g0.hugeOwner && !g0.hugeOwner[h].HugeFree? ==>
      && h in g.hugeOwner && g.hugeOwner[h] == g0.hugeOwner[h]
      && (h in r0.hugepages ==> h in r.hugepages && r.hugepages[h] == r0.hugepages[h])
  }

  lemma HugeGrowStep(r0: Ram, g0: Ghosts, r: Ram, g: Ghosts, d: nat, lo: nat, i: nat, data: Page)
    requires Inv(r, g) && HugeGrown(r0, g0, r, g, d, lo, i) && lo <= i < USERTABLES && r.hugefree != []
             && i < |r.dirs[d]| && r.dirs[d][i].NoEntry?
    ensures HugeGrown(r0, g0, HugeAdd(r, d, i, data), HugeGhosts(g, r.hugefree[0], d, i), d, lo, i + 1)
  {
    HugeAddKeeps(r, g, d, i, data);
    hide Inv, Lookup;
    HugeEntriesStep(r0, r, d, lo, i, data);
    HugeContentsStep(r0, g0, r, g, d, i, data);
    hide HugeEntries, HugeContents;
  }

  lemma HugeEntriesStep(r0: Ram, r: Ram, d: nat, lo: nat, i: nat, data: Page)
    requires HugeEntries(r0, r, d, lo, i) && lo <= i < |r.dirs[d]| && r.hugefree != []
    ensures HugeEntries(r0, HugeAdd(r, d, i, data), d, lo, i + 1)
  {
  }

  lemma HugeContentsStep(r0: Ram, g0: Ghosts, r: Ram, g: Ghosts, d: nat, i: nat, data: Page)
    requires HugeContents(r0, g0, r, g) && d in r.dirs && i < |r.dirs[d]| && r.hugefree != []
    requires r.hugefree[0] in g.hugeOwner && g.hugeOwner[r.hugefree[0]].HugeFree?
    ensures HugeContents(r0, g0, HugeAdd(r, d, i, data), HugeGhosts(g, r.hugefree[0], d, i))
  {
  }

  /** No more 4 MB pages than frames. */
  lemma HugePagesFit(r: Ram, g: Ghosts, d: nat, n: nat)
    requires Inv(r, g) && d in r.dirs && HUGEBASE + n <= |r.dirs[d]|
    requires forall j :: HUGEBASE <= j < HUGEBASE + n ==> r.dirs[d][j].Huge?
    ensures n <= HUGEFRAMES
  {
    var hs: seq<nat> := seq(n, k requires 0 <= k < n => r.dirs[d][HUGEBASE + k].frame);
    forall k: nat | k < n
      ensures hs[k] in g.hugeOwner && g.hugeOwner[hs[k]] == HugeOf(d, HUGEBASE + k) && hs[k] < HUGEFRAMES
    {
      assert HugeOk(r.dirs, r.hugepages, g.hugeOwner, d, HUGEBASE + k);
    }
    hide Inv;
    forall k: nat, l: nat | k < l < n ensures hs[k] != hs[l] {
      assert g.hugeOwner[hs[k]] == HugeOf(d, HUGEBASE + k) && g.hugeOwner[hs[l]] == HugeOf(d, HUGEBASE + l);
    }
    var s := Below(HUGEFRAMES);
    Pigeonhole(hs, s);
  }

  /** HUGE_VA_OFFSET + hugesz lies beyond 4 MB page i. */
  predicate HugeBelow(i: nat, hugesz: nat) {
    i * 0x40_0000 < HUGE_VA_OFFSET + hugesz
  }

  lemma HugeBelowIff(i: nat, hugesz: nat)
    requires i >= HUGEBASE
    ensures HugeBelow(i, hugesz) <==> i < HUGEBASE + HugeUp(hugesz)
  {
  }

  predicate HugeZero(r: Ram, d: nat, i: nat)
    requires d in r.dirs && i < |r.dirs[d]|
  {
    && r.dirs[d][i].Huge? && r.dirs[d][i].flags == HUGE_FLAGS
    && r.dirs[d][i].frame in r.hugepages && r.hugepages[r.dirs[d][i].frame] == HugeFilled(0)
  }

  function HugeFilled(b: byte): (p: Page)
    ensures |p| == HUGE_PAGE_SIZE && forall i :: 0 <= i < HUGE_PAGE_SIZE ==> p[i] == b
  {
    seq(HUGE_PAGE_SIZE, _ => b)
  }

  ghost predicate HugeZeros(r: Ram, d: nat, lo: nat, i: nat) {
    d in r.dirs && forall j :: lo <= j < i && j < |r.dirs[d]| ==> HugeZero(r, d, j)
  }

  lemma HugeFrame(r: Ram, g: Ghosts, d: nat, i: nat)
    requires Inv(r, g) && d in r.dirs && i < |r.dirs[d]| && r.dirs[d][i].Huge?
    ensures var h := r.dirs[d][i].frame;
            h in g.hugeOwner && g.hugeOwner[h] == HugeOf(d, i) && h in r.hugepages && i < USERTABLES
    ensures r.dirs[d][i].flags == HUGE_FLAGS
  {
    assert HugeOk(r.dirs, r.hugepages, g.hugeOwner, d, i);
  }

  lemma HugeZerosStep(r: Ram, g: Ghosts, d: nat, lo: nat, i: nat)
    requires Inv(r, g) && HugeZeros(r, d, lo, i) && i < USERTABLES && i < |r.dirs[d]| && r.hugefree != []
             && r.dirs[d][i].NoEntry?
    ensures HugeZeros(HugeAdd(r, d, i, HugeFilled(0)), d, lo, i + 1)
  {
    HugeAddKeeps(r, g, d, i, HugeFilled(0));
    var r' := HugeAdd(r, d, i, HugeFilled(0));
    forall j | lo <= j < i + 1 && j < |r'.dirs[d]| ensures HugeZero(r', d, j) {
      if j < i {
        assert HugeZero(r, d, j);
        HugeFrame(r, g, d, j);
      }
    }
  }

  /** The next entry for a 4 MB page is there and empty. */
  lemma HugePlace(r0: Ram, g0: Ghosts, r: Ram, g: Ghosts, d: nat, hugesz: nat, i: nat)
    requires Inv(r, g) && HugeSized(r0, d, hugesz) && i >= HUGEBASE + HugeUp(hugesz)
             && HugeGrown(r0, g0, r, g, d, HUGEBASE + HugeUp(hugesz), i)
    ensures i < USERTABLES && i < |r.dirs[d]| && r.dirs[d][i].NoEntry?
  {
    hide Inv, Lookup;
    var n := if i <= USERTABLES then i - HUGEBASE else USERTABLES - HUGEBASE;
    HugePagesFit(r, g, d, n);
  }

  lemma StartZeros(r: Ram, g: Ghosts, d: nat, i: nat, sz: nat, hugesz: nat)
    requires Space(r, d, sz, hugesz)
    ensures d in r.dirs && HugeSized(r, d, hugesz) && HugeZeros(r, d, i, i) && HugeGrown(r, g, r, g, d, i, i)
  {
  }

  lemma HugeLeft(r0: Ram, g0: Ghosts, r: Ram, g: Ghosts, d: nat, lo: nat, i: nat, end: nat)
    requires HugeGrown(r0, g0, r, g, d, lo, i) && i < end && |r0.hugefree| >= end - lo
    ensures r.hugefree != [] && d in r.dirs
  {
  }

  lemma HugeGrownSized(r0: Ram, g0: Ghosts, r: Ram, g: Ghosts, d: nat, sz: nat, hugesz: nat, newsz: nat)
    requires Space(r0, d, sz, hugesz) && hugesz <= newsz
    requires HugeGrown(r0, g0, r, g, d, HUGEBASE + HugeUp(hugesz), HUGEBASE + HugeUp(newsz))
    ensures Space(r, d, sz, newsz)
  {
    hide Lookup;
  }

  /** 4 MB page i of d has the flags and contents of that of p. */
  predicate HugeTwin(r: Ram, p: nat, d: nat, i: nat) {
    && p in r.dirs && d in r.dirs && i < |r.dirs[p]| && i < |r.dirs[d]|
    && var a, b := r.dirs[p][i], r.dirs[d][i];
    && a.Huge? && b.Huge? && a.flags == b.flags
    && a.frame in r.hugepages && b.frame in r.hugepages && r.hugepages[a.frame] == r.hugepages[b.frame]
  }

  ghost predicate HugeTwins(r: Ram, p: nat, d: nat, i: nat) {
    forall j :: HUGEBASE <= j < i ==> HugeTwin(r, p, d, j)
  }

  lemma HugeFits(r: Ram, g: Ghosts, p: nat, hugesz: nat)
    requires Inv(r, g) && HugeSized(r, p, hugesz)
    ensures HugeUp(hugesz) <= HUGEFRAMES
  {
    hide Inv;
    HugePagesFit(r, g, p, if HugeUp(hugesz) <= USERTABLES - HUGEBASE then HugeUp(hugesz) else USERTABLES - HUGEBASE);
  }

  /** What the loop over 4 MB pages finds at entry i. */
  lemma HugeCopyPlace(r0: Ram, g0: Ghosts, r: Ram, g: Ghosts, p: nat, d: nat, hugesz: nat, i: nat)
    requires Inv(r0, g0) && Inv(r, g) && HugeSized(r0, p, hugesz) && HighEmpty(r0, d) && p != d
    requires HugeGrown(r0, g0, r, g, d, HUGEBASE, i) && HUGEBASE <= i < HUGEBASE + HugeUp(hugesz)
             && |r0.hugefree| >= HugeUp(hugesz)
    ensures r.hugefree != [] && d in r.dirs && i < USERTABLES && i < |r.dirs[d]| && r.dirs[d][i].NoEntry?
    ensures p in r.dirs && i < |r.dirs[p]| && r.dirs[p][i].Huge? && r.dirs[p][i].frame in r.hugepages
            && r.dirs[p][i].flags == HUGE_FLAGS
  {
    hide Inv, Lookup;
    HugeFits(r0, g0, p, hugesz);
    HugeFrame(r, g, p, i);
  }

  lemma HugeTwinsStep(r: Ram, g: Ghosts, p: nat, d: nat, i: nat)
    requires Inv(r, g) && HugeTwins(r, p, d, i) && p != d && r.hugefree != []
    requires d in r.dirs && i < USERTABLES && i < |r.dirs[d]| && r.dirs[d][i].NoEntry?
    requires p in r.dirs && i < |r.dirs[p]| && r.dirs[p][i].Huge? && r.dirs[p][i].frame in r.hugepages
    ensures HugeTwins(HugeAdd(r, d, i, r.hugepages[r.dirs[p][i].frame]), p, d, i + 1)
  {
    HugeAddKeeps(r, g, d, i, r.hugepages[r.dirs[p][i].frame]);
    var r' := HugeAdd(r, d, i, r.hugepages[r.dirs[p][i].frame]);
    HugeFrame(r, g, p, i);
    forall j | HUGEBASE <= j < i + 1 ensures HugeTwin(r', p, d, j) {
      if j < i {
        assert HugeTwin(r, p, d, j);
        HugeFrame(r, g, p, j);
        HugeFrame(r, g, d, j);
      }
    }
  }

  /** d is a new address space like p: same sizes, flags and contents; everything else is as before. */
  ghost predicate Forked(r0: Ram, g0: Ghosts, r: Ram, g: Ghosts, p: nat, d: nat, sz: nat, hugesz: nat) {
    && d !in r0.dirs && r.dirs.Keys == r0.dirs.Keys + {d} && (forall e :: e in r0.dirs ==> r.dirs[e] == r0.dirs[e])
    && (forall e, w: nat :: e != d ==> Lookup(r, e, w) == Lookup(r0, e, w))
    && BornOwners(g0, g, d) && ContentsKept(r0, g0, r) && HugeContents(r0, g0, r, g)
    && Space(r, d, sz, hugesz) && (forall w: nat :: w < Up(sz) ==> Twin(r, p, d, w))
    && HugeTwins(r, p, d, HUGEBASE + HugeUp(hugesz))
  }

  lemma ForkedNow(r0: Ram, g0: Ghosts, r1: Ram, g1: Ghosts, r: Ram, g: Ghosts, p: nat, d: nat, sz: nat, hugesz: nat)
    requires Born(r0, g0, r1, g1, d) && CopyTo(r1, p, d, Up(sz)) && p in r0.dirs && sz < KERNBASE
    requires HugeGrown(r1, g1, r, g, d, HUGEBASE, HUGEBASE + HugeUp(hugesz))
             && HugeTwins(r, p, d, HUGEBASE + HugeUp(hugesz))
    ensures Forked(r0, g0, r, g, p, d, sz, hugesz)
  {
    hide Lookup, HugeTwins;
    ForkedSpace(r1, g1, r, g, p, d, sz, hugesz);
    forall w: nat | w < Up(sz) ensures Twin(r, p, d, w) {
      assert Twin(r1, p, d, w);
    }
    hide Space, CopyTo;
    assert BornOwners(g0, g, d) && ContentsKept(r0, g0, r) && HugeContents(r0, g0, r, g);
  }

  lemma StartTwins(r: Ram, g: Ghosts, p: nat, d: nat)
    requires HighEmpty(r, d)
    ensures HugeGrown(r, g, r, g, d, HUGEBASE, HUGEBASE) && HugeTwins(r, p, d, HUGEBASE)
  {
  }

  lemma BornHuge(r0: Ram, g0: Ghosts, r: Ram, g: Ghosts, p: nat, d: nat, sz: nat, hugesz: nat)
    requires Born(r0, g0, r, g, d) && Space(r0, p, sz, hugesz) && p in r0.dirs && CopyTo(r, p, d, Up(sz))
    ensures HugeSized(r, p, hugesz) && HighEmpty(r, d) && p != d && r.hugefree == r0.hugefree && sz < KERNBASE
  {
    hide Lookup, BornOwners, ContentsKept;
  }

  lemma ForkedSpace(r1: Ram, g1: Ghosts, r: Ram, g: Ghosts, p: nat, d: nat, sz: nat, hugesz: nat)
    requires NoHugeIn(r1, d) && CopyTo(r1, p, d, Up(sz)) && sz < KERNBASE
    requires HugeGrown(r1, g1, r, g, d, HUGEBASE, HUGEBASE + HugeUp(hugesz))
    ensures Space(r, d, sz, hugesz)
  {
    hide Lookup, HugeContents;
    forall v: nat | v < USERPAGES ensures Lookup(r, d, v).Present? <==> Addr(v) < sz {
      assert v < Up(sz) ==> Twin(r1, p, d, v);
    }
  }

  // ----- what the invariant amounts to -----

  /** No base frame is mapped twice, nor both mapped and free. */
  lemma NoSharing(r: Ram, g: Ghosts, d: nat, v: nat, e: nat, w: nat)
    requires Inv(r, g) && d in r.dirs && e in r.dirs && Lookup(r, d, v).Present? && Lookup(r, e, w).Present?
    ensures (d, v) != (e, w) ==> Lookup(r, d, v).frame != Lookup(r, e, w).frame
    ensures Lookup(r, d, v).frame !in r.free && Lookup(r, d, v).frame < FRAMES
  {
    assert PageOk(r, g.owner, d, v) && PageOk(r, g.owner, e, w);
  }

  /** The same for 4 MB frames. */
  lemma NoHugeSharing(r: Ram, g: Ghosts, d: nat, i: nat, e: nat, j: nat)
    requires Inv(r, g) && d in r.dirs && e in r.dirs && i < |r.dirs[d]| && j < |r.dirs[e]| && r.dirs[d][i].Huge?
             && r.dirs[e][j].Huge?
    ensures (d, i) != (e, j) ==> r.dirs[d][i].frame != r.dirs[e][j].frame
    ensures r.dirs[d][i].frame !in r.hugefree && r.dirs[d][i].frame < HUGEFRAMES
  {
    HugeFrame(r, g, d, i);
    HugeFrame(r, g, e, j);
  }

  /** PTE_P and PTE_U are set. */
  predicate UserFlags(flags: nat) {
    flags % 2 == 1 && flags / 4 % 2 == 1
  }

  predicate UserPage(r: Ram, d: nat, v: nat) {
    Lookup(r, d, v).Present? && UserFlags(Lookup(r, d, v).flags)
  }

  predicate UserHugePage(r: Ram, d: nat, i: nat) {
    d in r.dirs && i < |r.dirs[d]| && r.dirs[d][i].Huge? && UserFlags(r.dirs[d][i].flags)
  }

  /** The base pages below page n that user code of d can reach, and its 4 MB pages below entry n. */
  function UserPages(r: Ram, d: nat, n: nat): (k: nat) {
    if n == 0 then 0
    else UserPages(r, d, n - 1) + if Lookup(r, d, n - 1).Present? && UserFlags(Lookup(r, d, n - 1).flags) then 1 else 0
  }

  function UserHugePages(r: Ram, d: nat, n: nat): (k: nat)
    requires d in r.dirs && n <= |r.dirs[d]|
  {
    if n == 0 then 0
    else UserHugePages(r, d, n - 1) + if r.dirs[d][n - 1].Huge? && UserFlags(r.dirs[d][n - 1].flags) then 1 else 0
  }

  lemma {:induction false} UserPagesAre(r: Ram, d: nat, n: nat)
    ensures UserPages(r, d, n) == |set v: nat | v < n && UserPage(r, d, v)|
  {
    hide Lookup;
    var s := set v: nat | v < n && UserPage(r, d, v);
    if n > 0 {
      UserPagesAre(r, d, n - 1);
      var below := set v: nat | v < n - 1 && UserPage(r, d, v);
      assert s == below + if UserPage(r, d, n - 1) then {n - 1} else {};
    } else {
      assert s == {};
    }
  }

  lemma {:induction false} UserHugePagesAre(r: Ram, d: nat, n: nat)
    requires d in r.dirs && n <= |r.dirs[d]|
    ensures UserHugePages(r, d, n) == |set i: nat | i < n && UserHugePage(r, d, i)|
  {
    var s := set i: nat | i < n && UserHugePage(r, d, i);
    if n > 0 {
      UserHugePagesAre(r, d, n - 1);
      var below := set i: nat | i < n - 1 && UserHugePage(r, d, i);
      assert s == below + if UserHugePage(r, d, n - 1) then {n - 1} else {};
    } else {
      assert s == {};
    }
  }

  lemma {:induction false} NoPages(r: Ram, d: nat, n: nat, m: nat)
    requires n <= m && forall v: nat :: n <= v < m ==> Lookup(r, d, v).Absent?
    ensures UserPages(r, d, m) == UserPages(r, d, n)
    decreases m
  {
    if n < m {
      NoPages(r, d, n, m - 1);
    }
  }

  lemma NoTableAbsent(r: Ram, d: nat, i: nat)
    requires d in r.dirs && i < |r.dirs[d]| && !r.dirs[d][i].Table?
    ensures forall v: nat :: i * 1024 <= v < (i + 1) * 1024 ==> Lookup(r, d, v).Absent?
  {
    forall v: nat | i * 1024 <= v < (i + 1) * 1024 ensures Lookup(r, d, v).Absent? {
      assert Pdx(v) == i;
    }
  }

  lemma {:induction false} SamePageCount(r: Ram, p: nat, d: nat, n: nat)
    requires forall v: nat :: v < n ==> Twin(r, p, d, v) || (Lookup(r, p, v).Absent? && Lookup(r, d, v).Absent?)
    ensures UserPages(r, d, n) == UserPages(r, p, n)
  {
    hide Lookup;
    if n > 0 {
      SamePageCount(r, p, d, n - 1);
      assert Twin(r, p, d, n - 1) || (Lookup(r, p, n - 1).Absent? && Lookup(r, d, n - 1).Absent?);
    }
  }

  lemma {:induction false} HugeCount(r: Ram, g: Ghosts, d: nat, hugesz: nat, n: nat)
    requires Inv(r, g) && HugeSized(r, d, hugesz) && n <= NPDENTRIES
    ensures UserHugePages(r, d, n) ==
              if n <= HUGEBASE then 0 else if n <= HUGEBASE + HugeUp(hugesz) then n - HUGEBASE else HugeUp(hugesz)
  {
    if n > 0 {
      HugeCount(r, g, d, hugesz, n - 1);
      HugeFits(r, g, d, hugesz);
      if r.dirs[d][n - 1].Huge? {
        HugeFrame(r, g, d, n - 1);
      }
    }
  }

  /** After a fork, parent and child report the same number of base pages and of 4 MB pages, the latter
      being hugesz rounded up. */
  lemma ForkCounts(r0: Ram, g0: Ghosts, r: Ram, g: Ghosts, p: nat, d: nat, sz: nat, hugesz: nat)
    requires Inv(r, g) && p in r0.dirs && Space(r0, p, sz, hugesz) && Forked(r0, g0, r, g, p, d, sz, hugesz)
    ensures UserPages(r, d, ALLPAGES) == UserPages(r, p, ALLPAGES)
    ensures d in r.dirs && |r.dirs[d]| == NPDENTRIES && UserHugePages(r, d, NPDENTRIES) == HugeUp(hugesz)
  {
    hide Lookup, Inv;
    forall v: nat | v < ALLPAGES ensures Twin(r, p, d, v) || (Lookup(r, p, v).Absent? && Lookup(r, d, v).Absent?) {
      ForkedAt(r0, g0, r, g, p, d, sz, hugesz, v);
    }
    SamePageCount(r, p, d, ALLPAGES);
    HugeFits(r, g, d, hugesz);
    HugeCount(r, g, d, hugesz, NPDENTRIES);
  }

  lemma ForkedAt(r0: Ram, g0: Ghosts, r: Ram, g: Ghosts, p: nat, d: nat, sz: nat, hugesz: nat, v: nat)
    requires Inv(r, g) && p in r0.dirs && Space(r0, p, sz, hugesz) && Forked(r0, g0, r, g, p, d, sz, hugesz)
    ensures Twin(r, p, d, v) || (Lookup(r, p, v).Absent? && Lookup(r, d, v).Absent?)
  {
    assert PageOk(r, g.owner, p, v) && PageOk(r, g.owner, d, v);
    hide Lookup, Inv, BornOwners, ContentsKept, HugeContents, HugeSized, HugeTwins;
    assert Lookup(r, p, v) == Lookup(r0, p, v);
  }

  // ----- several processes at once -----

  /** A change to d is none to another address space: its size and its 4 MB part stay what they were. */
  lemma SpaceElsewhere(r0: Ram, g0: Ghosts, r: Ram, g: Ghosts, d: nat, e: nat, sz: nat, hugesz: nat)
    requires Within(r0, g0, r, g, d, {}) && e in r0.dirs && e != d && Space(r0, e, sz, hugesz)
    ensures Space(r, e, sz, hugesz)
  {
    hide Lookup;
  }

  lemma HugeGrowElsewhere(r0: Ram, g0: Ghosts, r: Ram, g: Ghosts, d: nat, lo: nat, i: nat, e: nat, sz: nat, hugesz: nat)
    requires HugeGrown(r0, g0, r, g, d, lo, i) && e in r0.dirs && e != d && Space(r0, e, sz, hugesz)
    ensures Space(r, e, sz, hugesz)
  {
    hide Lookup, HugeContents;
  }

  lemma ForkElsewhere(r0: Ram, g0: Ghosts, r: Ram, g: Ghosts, p: nat, d: nat, sz: nat, hugesz: nat,
                      e: nat, esz: nat, ehugesz: nat)
    requires Forked(r0, g0, r, g, p, d, sz, hugesz) && e in r0.dirs && Space(r0, e, esz, ehugesz)
    ensures Space(r, e, esz, ehugesz)
  {
    hide Lookup, HugeContents, BornOwners, ContentsKept, HugeTwins;
  }

  lemma RestoredElsewhere(r0: Ram, g0: Ghosts, r: Ram, g: Ghosts, e: nat, sz: nat, hugesz: nat)
    requires Restored(r0, g0, r, g) && Space(r0, e, sz, hugesz)
    ensures Space(r, e, sz, hugesz)
  {
    hide Lookup, ContentsKept;
  }

  /** The first page of a new address space makes it one of PGSIZE bytes. */
  lemma FirstPage(r0: Ram, g0: Ghosts, r: Ram, g: Ghosts, d: nat, f: nat, flags: nat, data: Page)
    requires Empty(r0, d) && Added(r0, g0, r, g, d, 0, f, flags, data)
    ensures Space(r, d, PGSIZE, 0)
    ensures Lookup(r, d, 0) == Present(f, flags) && f in r.pages && r.pages[f] == data
  {
    hide Lookup, TablesOnly;
  }
}
