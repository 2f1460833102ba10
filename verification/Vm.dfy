/** vm.c, kalloc.c and the growth functions of proc.c as code over one machine's memory. */
module Vm {
  import opened Blocks
  import opened PageTables
  import opened Spaces

  class Machine {
    var ram: Ram
    ghost var g: Ghosts

    ghost predicate Valid()
      reads this
    {
      Inv(ram, g)
    }

    /** freerange and freehugerange at boot: every frame from `first` on, and every 4 MB frame, is free. */
    constructor (first: nat)
      ensures Valid() && ram.dirs == map[]
      ensures Distinct(ram.free) && forall x: nat :: x in ram.free <==> first <= x < FRAMES
      ensures Distinct(ram.hugefree) && forall x: nat :: x in ram.hugefree <==> x < HUGEFRAMES
    {
      var free: seq<nat>, f := [], first;
      while f < FRAMES
        invariant first <= f && (f <= FRAMES || free == [])
        invariant Distinct(free) && forall x: nat :: x in free <==> first <= x < f
      {
        assert forall j :: 0 <= j < |free| ==> free[j] in free;
        free := [f] + free;
        f := f + 1;
      }
      var hugefree: seq<nat>, h := [], 0;
      while h < HUGEFRAMES
        invariant 0 <= h <= HUGEFRAMES && Distinct(hugefree) && forall x: nat :: x in hugefree <==> x < h
      {
        assert forall j :: 0 <= j < |hugefree| ==> hugefree[j] in hugefree;
        hugefree := [h] + hugefree;
        h := h + 1;
      }
      ram := Ram(free, hugefree, map[], map[], map[], map[]);
      g := Ghosts(map x | x in free :: Free, map x | x in hugefree :: HugeFree);
    }

    method Kalloc() returns (f: Option<nat>)
      requires Valid()
      modifies this
      ensures Valid() && (f.None? <==> old(ram.free) == [])
      ensures f.None? ==> ram == old(ram) && g == old(g)
      ensures f.Some? ==> f.value == old(ram.free)[0] && f.value in old(g.owner) && old(g.owner)[f.value] == Free
                          && ram == old(ram).(free := old(ram.free)[1..])
                          && g == old(g).(owner := old(g.owner)[f.value := Elsewhere])
    {
      if ram.free == [] {
        return None;
      }
      KallocKeeps(ram, g);
      f := Some(ram.free[0]);
      g := g.(owner := g.owner[ram.free[0] := Elsewhere]);
      ram := ram.(free := ram.free[1..]);
    }

    method Kfree(f: nat)
      requires Valid() && f in g.owner && g.owner[f] == Elsewhere
      modifies this
      ensures Valid() && g == old(g).(owner := old(g.owner)[f := Free])
      ensures ram == old(ram).(free := [f] + old(ram.free), pages := old(ram.pages)[f := Filled(1)])
    {
      KfreeKeeps(ram, g, f, Filled(1));
      ram := ram.(free := [f] + ram.free, pages := ram.pages[f := Filled(1)]);
      g := g.(owner := g.owner[f := Free]);
    }

    /** The page table that walkpgdir makes where there is none. */
    method MakeTable(d: nat, v: nat) returns (ok: bool)
      requires Valid() && d in ram.dirs && Pdx(v) < |ram.dirs[d]| && ram.dirs[d][Pdx(v)].NoEntry?
      modifies this
      ensures Valid() && (ok <==> old(ram.free) != [])
      ensures if ok then Tabled(ram, d, v) else ram == old(ram) && g == old(g)
      ensures forall e, w: nat :: Lookup(ram, e, w) == old(Lookup(ram, e, w))
      ensures Within(old(ram), old(g), ram, g, d, {}) && ram.pages == old(ram.pages)
              && EntriesKept(old(ram), ram, d, Pdx(v))
      ensures TablesOnly(old(g), g, d) && (ok ==> |ram.free| == |old(ram.free)| - 1)
    {
      WithinSelf(ram, g, d);
      if ram.free != [] {
        TablingKeeps(ram, g, d, v);
        TablingWithin(ram, g, d, v);
      }
      hide Lookup, Inv, Within, FreeOk, DirsOk;
      var t := Kalloc();
      if t.None? {
        return false;
      }
      g := g.(owner := g.owner[t.value := TableOf(d, Pdx(v))]);
      ram := Install(ram, d, Pdx(v), t.value);
      TablingGhosts(old(g), t.value, d, Pdx(v));
      hide Install, Tabled;
      ok := true;
    }

    /** walkpgdir: is there, or can there be made, a page table for page v? */
    method Walk(d: nat, v: nat, alloc: bool) returns (ok: bool)
      requires Valid() && d in ram.dirs && Pdx(v) < |ram.dirs[d]| && !ram.dirs[d][Pdx(v)].Huge?
      modifies this
      ensures Valid() && (ok ==> Tabled(ram, d, v))
      ensures !alloc || !ok ==> ram == old(ram) && g == old(g)
      ensures ok <==> old(Tabled(ram, d, v)) || (alloc && old(ram.free) != [])
      ensures forall e, w: nat :: Lookup(ram, e, w) == old(Lookup(ram, e, w))
      ensures Within(old(ram), old(g), ram, g, d, {}) && ram.pages == old(ram.pages)
              && EntriesKept(old(ram), ram, d, Pdx(v))
      ensures TablesOnly(old(g), g, d)
      ensures ok ==> |ram.free| == |old(ram.free)| - if old(Tabled(ram, d, v)) then 0 else 1
    {
      assert TableOk(ram, g.owner, d, Pdx(v));
      WithinSelf(ram, g, d);
      hide Lookup, Inv, Within;
      if ram.dirs[d][Pdx(v)].Table? {
        return true;
      }
      if !alloc {
        return false;
      }
      ok := MakeTable(d, v);
    }

    /** mappages for one base page: page v gets frame f. */
    method MapPage(d: nat, v: nat, f: nat, flags: nat) returns (ok: bool)
      requires Valid() && d in ram.dirs && Pdx(v) < |ram.dirs[d]| && !ram.dirs[d][Pdx(v)].Huge?
      requires v < USERPAGES && Lookup(ram, d, v).Absent? && f in g.owner && g.owner[f].Elsewhere? && f in ram.pages
      modifies this
      ensures Valid() && (ok <==> old(Tabled(ram, d, v)) || old(ram.free) != [])
      ensures !ok ==> ram == old(ram) && g == old(g)
      ensures ok ==> forall e, w: nat ::
                Lookup(ram, e, w) == if e == d && w == v then Present(f, flags) else old(Lookup(ram, e, w))
      ensures ok ==> Within(old(ram), old(g), ram, g, d, {f}) && ram.pages == old(ram.pages)
      ensures ok ==> EntriesKept(old(ram), ram, d, Pdx(v))
      ensures ok ==> f in g.owner && g.owner[f] == PageOf(d, v)
      ensures ok ==> TablesOnly(old(g).(owner := old(g.owner)[f := PageOf(d, v)]), g, d)
      ensures ok ==> |ram.free| == |old(ram.free)| - if old(Tabled(ram, d, v)) then 0 else 1
    {
      hide Inv, Within, TablesOnly, SetEntry;
      ok := Walk(d, v, true);
      if !ok {
        return;
      }
      MapStep(old(ram), old(g), ram, g, d, v, f, flags);
      hide Lookup;
      ram := SetEntry(ram, d, v, Present(f, flags));
      g := g.(owner := g.owner[f := PageOf(d, v)]);
    }

    /** A frame from kalloc, filled with `data`, for page v; `mem` stays in transit if no table can be had. */
    method NewPage(d: nat, v: nat, flags: nat, data: Page) returns (mem: Option<nat>, ok: bool)
      requires Valid() && d in ram.dirs && Pdx(v) < |ram.dirs[d]| && !ram.dirs[d][Pdx(v)].Huge?
      requires v < USERPAGES && Lookup(ram, d, v).Absent?
      modifies this
      ensures Valid() && (mem.None? <==> old(ram.free) == []) && (ok ==> mem.Some?)
      ensures mem.None? ==> ram == old(ram) && g == old(g)
      ensures mem.Some? ==> mem.value in old(g.owner) && old(g.owner)[mem.value].Free?
      ensures mem.Some? && !ok ==> ram == Taken(old(ram), data) && mem.value == old(ram.free)[0]
                                   && g == old(g).(owner := old(g.owner)[mem.value := Elsewhere])
      ensures ok ==> Added(old(ram), old(g), ram, g, d, v, mem.value, flags, data)
      ensures ok <==> |old(ram.free)| >= if old(Tabled(ram, d, v)) then 1 else 2
      ensures ok ==> |ram.free| == |old(ram.free)| - if old(Tabled(ram, d, v)) then 1 else 2
    {
      if ram.free != [] {
        TakenKeeps(ram, g, d, data);
      }
      hide Inv, Within, Lookup, Added, TablesOnly, Tabled;
      ok := false;
      mem := Kalloc();
      if mem.None? {
        return;
      }
      ram := ram.(pages := ram.pages[mem.value := data]);
      ok := MapPage(d, v, mem.value, flags);
      if ok {
        AddedNow(old(ram), old(g), ram, g, d, v, flags, data);
      }
    }

    /** Give back the frame of page v. */
    method FreePage(d: nat, v: nat, f: nat)
      requires Valid() && Tabled(ram, d, v) && v < USERPAGES && Mapped(ram, d, v, f)
      modifies this
      ensures Valid() && f in old(g.owner) && g == old(g).(owner := old(g.owner)[f := Free])
      ensures ram == Unmap(old(ram), d, v, Filled(1))
    {
      UnmapInTwo(ram, g, d, v);
      hide Inv, Lookup;
      ram := SetEntry(ram, d, v, Absent);
      g := g.(owner := g.owner[f := Elsewhere]);
      Kfree(f);
    }

    /** One turn of deallocuvm's loop: free page v, or skip it, or skip a whole missing table. */
    method DropOne(d: nat, v: nat, newsz: nat, oldsz: nat, ghost r0: Ram, ghost g0: Ghosts) returns (u: nat)
      requires Valid() && Inv(r0, g0) && Dropped(r0, g0, ram, g, d, Up(newsz), v, oldsz) && Up(newsz) <= v
               && Addr(v) < oldsz <= KERNBASE
      requires d in ram.dirs && v < USERPAGES && Pdx(v) < |ram.dirs[d]| && !ram.dirs[d][Pdx(v)].Huge?
      modifies this
      ensures Valid() && Dropped(r0, g0, ram, g, d, Up(newsz), u, oldsz) && u > v
    {
      hide Inv, Within, Lookup, Dropped, Unmap, Up, Addr;
      var found := Walk(d, v, false);
      if !found {
        NoTable(ram, g, d, v);
        u := NextTable(v);
        DropSkip(r0, g0, ram, g, d, Up(newsz), v, u, oldsz);
      } else {
        var e := Lookup(ram, d, v);
        u := v + 1;
        if e.Present? {
          DropStep(r0, g0, ram, g, d, Up(newsz), v, oldsz, Filled(1));
          FreePage(d, v, e.frame);
        } else {
          DropSkip(r0, g0, ram, g, d, Up(newsz), v, u, oldsz);
        }
      }
    }

    /** deallocuvm over base pages: unmap and free what lies between newsz and oldsz. */
    method Deallocuvm(d: nat, oldsz: nat, newsz: nat) returns (r: nat)
      requires Valid() && d in ram.dirs && oldsz <= KERNBASE && NoHuge(ram, d, newsz, oldsz)
      modifies this
      ensures Valid() && r == if newsz >= oldsz then oldsz else newsz
      ensures Dropped(old(ram), old(g), ram, g, d, Up(newsz), USERPAGES, oldsz)
    {
      DirSize(ram, g, d);
      DroppedNone(ram, g, d, Up(newsz), oldsz);
      hide Inv, Within, Lookup, Dropped, NoHuge;
      if newsz >= oldsz {
        DropFinish(ram, g, ram, g, d, newsz, Up(newsz), oldsz);
        return oldsz;
      }
      var v := Up(newsz);
      while Addr(v) < oldsz
        invariant Valid() && Up(newsz) <= v && Dropped(old(ram), old(g), ram, g, d, Up(newsz), v, oldsz)
        decreases oldsz - Addr(v)
      {
        DroppedDirs(old(ram), old(g), ram, g, d, Up(newsz), v, newsz, oldsz);
        EntryInRange(ram, d, v, newsz, oldsz);
        v := DropOne(d, v, newsz, oldsz, old(ram), old(g));
      }
      DropFinish(old(ram), old(g), ram, g, d, newsz, v, oldsz);
      r := newsz;
    }

    /** allocuvm: grow the base pages of d from oldsz to newsz; 0 if memory runs out. */
    method Allocuvm(d: nat, oldsz: nat, newsz: nat) returns (r: nat)
      requires Valid() && BaseOnly(ram, d) && Sized(ram, d, oldsz) && oldsz < KERNBASE
      requires Undoable(ram, d, newsz)
      modifies this
      ensures Valid()
      ensures newsz >= KERNBASE || newsz < oldsz ==>
                ram == old(ram) && g == old(g) && r == if newsz >= KERNBASE then 0 else oldsz
      ensures oldsz <= newsz < KERNBASE ==>
                if r == newsz then Sized(ram, d, newsz) && newsz <= PHYSTOP
                                   && Grown(old(ram), old(g), ram, g, d, Up(oldsz), Up(newsz))
                else r == 0 && RolledBack(old(ram), old(g), ram, g, d)
      ensures oldsz <= newsz < KERNBASE && newsz > 0 ==>
                (r == newsz <==> FramesFor(old(ram), d, Up(oldsz), Up(newsz)) <= |old(ram.free)|)
    {
      if newsz >= KERNBASE {
        return 0;
      }
      if newsz < oldsz {
        return oldsz;
      }
      var ok := GrowTo(d, oldsz, newsz);
      if ok {
        hide Inv, Within, Lookup, Grown, RolledBack, Sized, FramesFor, Up;
        GrownDir(old(ram), old(g), ram, g, d, Up(oldsz), Up(newsz));
        GrownSized(old(ram), old(g), ram, g, d, oldsz, Up(newsz), newsz);
        r := newsz;
      } else {
        r := 0;
      }
    }

    /** allocuvm's loop. */
    method GrowTo(d: nat, oldsz: nat, newsz: nat) returns (ok: bool)
      requires Valid() && d in ram.dirs && BaseOnly(ram, d) && Sized(ram, d, oldsz) && oldsz <= newsz < KERNBASE
               && Undoable(ram, d, newsz)
      modifies this
      ensures Valid() && (!ok ==> newsz > 0)
      ensures ok <==> FramesFor(old(ram), d, Up(oldsz), Up(newsz)) <= |old(ram.free)|
      ensures if ok then Grown(old(ram), old(g), ram, g, d, Up(oldsz), Up(newsz))
              else RolledBack(old(ram), old(g), ram, g, d)
    {
      hide Inv, Within, Lookup, Grown, RolledBack, BaseOnly, Sized, Undoable, Up, Addr, FramesFor;
      StartGrowing(ram, g, d, oldsz);
      ghost var spare := |ram.free| - FramesFor(ram, d, Up(oldsz), Up(newsz));
      var v := Up(oldsz);
      while Addr(v) < newsz
        invariant Valid() && Up(oldsz) <= v && Grown(old(ram), old(g), ram, g, d, Up(oldsz), v)
                  && Addr(v) < newsz + 4096
        invariant |ram.free| - FramesFor(ram, d, v, Up(newsz)) == spare
        decreases newsz - Addr(v)
      {
        NextAddr(v);
        ok := GrowOne(d, v, oldsz, newsz, old(ram), old(g));
        if !ok {
          return;
        }
        v := v + 1;
      }
      UpReached(v, newsz);
      NothingLacking(ram, d, v);
      ok := true;
    }

    /** One turn of allocuvm's loop: a zeroed page at v, or the whole growth undone. */
    method GrowOne(d: nat, v: nat, oldsz: nat, newsz: nat, ghost r0: Ram, ghost g0: Ghosts) returns (ok: bool)
      requires Valid() && Inv(r0, g0) && BaseOnly(r0, d) && Sized(r0, d, oldsz)
               && Grown(r0, g0, ram, g, d, Up(oldsz), v)
      requires newsz < KERNBASE && Undoable(r0, d, newsz)
      requires Up(oldsz) <= v && Addr(v) < newsz
      modifies this
      ensures Valid() && if ok then Grown(r0, g0, ram, g, d, Up(oldsz), v + 1) else RolledBack(r0, g0, ram, g, d)
      ensures ok ==> |ram.free| - FramesFor(ram, d, v + 1, Up(newsz)) ==
                     |old(ram.free)| - FramesFor(old(ram), d, v, Up(newsz))
      ensures !ok ==> |old(ram.free)| < FramesFor(old(ram), d, v, Up(newsz))
    {
      UpBeyond(v, newsz);
      hide Inv, Within, Lookup, Grown, Dropped, RolledBack, BaseOnly, Sized, Added, NoHuge, Taken;
      hide FramesFor, Tabled, Up;
      NextPlace(r0, g0, ram, g, d, oldsz, v);
      ghost var r1, g1 := ram, g;
      var mem;
      mem, ok := NewPage(d, v, PTE_W + PTE_U + PTE_P, Filled(0));
      if ok {
        GrowStep(r0, g0, r1, g1, ram, g, d, Up(oldsz), v, mem.value);
        FramesAdded(r1, g1, ram, g, d, v, mem.value, PTE_W + PTE_U + PTE_P, Filled(0), Up(newsz));
      } else {
        FramesLeft(r1, g1, d, v, Up(newsz));
        Undo(d, oldsz, newsz, mem, v, r0, g0, r1, g1);
      }
    }

    /** allocuvm's way out: take the new pages back and free the frame in transit, if there is one. */
    method Undo(d: nat, oldsz: nat, newsz: nat, mem: Option<nat>, ghost v: nat, ghost r0: Ram, ghost g0: Ghosts,
                ghost r1: Ram, ghost g1: Ghosts)
      requires Valid() && Inv(r0, g0) && Inv(r1, g1) && BaseOnly(r0, d) && Sized(r0, d, oldsz)
               && Grown(r0, g0, r1, g1, d, Up(oldsz), v)
      requires newsz < KERNBASE && Undoable(r0, d, newsz)
      requires forall w: nat :: Up(oldsz) <= w < v ==> Addr(w) < newsz
      requires if mem.None? then ram == r1 && g == g1
               else r1.free != [] && mem.value == r1.free[0] && mem.value in g1.owner && g1.owner[mem.value].Free?
                    && ram == Taken(r1, Filled(0)) && g == g1.(owner := g1.owner[mem.value := Elsewhere])
      modifies this
      ensures Valid() && RolledBack(r0, g0, ram, g, d)
    {
      UndoPlace(r0, g0, r1, g1, d, oldsz, v, newsz);
      hide Inv, Within, Lookup, Grown, Dropped, RolledBack, Sized;
      var back := Deallocuvm(d, newsz, oldsz);
      if mem.Some? {
        TransitDropped(r1, g1, Filled(0), ram, g, d, Up(oldsz), newsz);
        Kfree(mem.value);
      }
      GrowUndo(r0, g0, r1, g1, ram, g, d, oldsz, v, newsz);
    }

    /** growproc: change the size of the base part by n. A request that would take the size below 0 wraps
        around and changes nothing. Shrinking to exactly 0 frees the pages and then fails with the old size:
        that request, and no other, leaves a size that does not describe the address space. */
    method Growproc(d: nat, sz: nat, n: int, ghost hugesz: nat) returns (ok: bool, newsz: nat)
      requires Valid() && Space(ram, d, sz, hugesz) && -0x8000_0000 <= n < 0x8000_0000 && sz > 0
      requires n > 0 ==> Undoable(ram, d, sz + n)
      modifies this
      ensures Valid() && Within(old(ram), old(g), ram, g, d, {})
      ensures newsz == if ok && sz + n > 0 then sz + n else sz
      ensures Space(ram, d, newsz, hugesz) <==> !(n < 0 && sz + n == 0)
      ensures n > 0 ==> if ok then Grown(old(ram), old(g), ram, g, d, Up(sz), Up(newsz)) && newsz <= PHYSTOP
                        else RolledBack(old(ram), old(g), ram, g, d)
      ensures n > 0 ==> (ok <==> sz + n < KERNBASE && FramesFor(old(ram), d, Up(sz), Up(sz + n)) <= |old(ram.free)|)
      ensures n < 0 && sz + n > 0 ==> ok && Dropped(old(ram), old(g), ram, g, d, Up(newsz), USERPAGES, sz)
      ensures n == 0 || sz + n < 0 ==> ok && ram == old(ram) && g == old(g)
    {
      hide Inv, Lookup, Within, Space, Grown, RolledBack, Dropped, HugeSized, BaseOnly, Sized, Up, Undoable, FramesFor;
      SpaceParts(ram, g, d, sz, hugesz);
      if n > 0 {
        ok, newsz := GrowBase(d, sz, sz + n, hugesz);
      } else if n == 0 || sz + n < 0 {
        ok, newsz := true, sz;
      } else {
        ShrinkPlace(ram, g, d, sz, sz + n, hugesz);
        var r := Deallocuvm(d, sz, sz + n);
        DroppedSpace(old(ram), old(g), ram, g, d, sz, sz + n, hugesz);
        DroppedWithin(old(ram), old(g), ram, g, d, Up(sz + n), USERPAGES, sz);
        ok := r != 0;
        newsz := if ok then r else sz;
        if !ok {
          NotSized(ram, d, sz, hugesz);
        }
      }
    }

    method GrowBase(d: nat, sz: nat, target: nat, ghost hugesz: nat) returns (ok: bool, newsz: nat)
      requires Valid() && Space(ram, d, sz, hugesz) && sz < target && Undoable(ram, d, target)
      modifies this
      ensures Valid() && Within(old(ram), old(g), ram, g, d, {}) && Space(ram, d, newsz, hugesz)
      ensures newsz == if ok then target else sz
      ensures if ok then Grown(old(ram), old(g), ram, g, d, Up(sz), Up(target)) && target <= PHYSTOP
              else RolledBack(old(ram), old(g), ram, g, d)
      ensures ok <==> target < KERNBASE && FramesFor(old(ram), d, Up(sz), Up(target)) <= |old(ram.free)|
    {
      SpaceParts(ram, g, d, sz, hugesz);
      RolledBackSelf(ram, g, d);
      hide Inv, Lookup, Within, Grown, RolledBack, HugeSized, BaseOnly, Sized, Up, Undoable, FramesFor;
      var r := Allocuvm(d, sz, target);
      ok := r != 0;
      newsz := if ok then r else sz;
      if ok {
        GrownSpace(old(ram), old(g), ram, g, d, Up(sz), Up(target), hugesz);
        GrownWithin(old(ram), old(g), ram, g, d, Up(sz), Up(target));
      } else {
        RolledBackSpace(old(ram), old(g), ram, g, d, sz, hugesz);
      }
    }

    /** The second half of freevm: the page tables, then the directory. */
    method FreeTables(d: nat)
      requires Valid() && d in ram.dirs && forall i :: 0 <= i < |ram.dirs[d]| ==> !ram.dirs[d][i].Huge?
      requires forall f :: f in g.owner && g.owner[f].PageOf? ==> g.owner[f].d != d
      modifies this
      ensures Valid() && Gone(old(ram), old(g), ram, g, d)
    {
      DirSize(ram, g, d);
      DetachKeeps(ram, g, d);
      ClearsFirst(ram, g, d);
      hide Inv, Lookup, Gone, Clearing, Clears, Detached;
      var es := ram.dirs[d];
      ghost var r0, g0 := ram, g;
      ram := Detached(ram, d);
      g := g.(owner := Clearing(g.owner, d, 0));
      FreeEntries(es, d, r0, g0);
      ClearsLast(r0, g0, ram, g, d);
      Kfree(d);
    }

    method FreeEntries(es: seq<Pde>, d: nat, ghost r0: Ram, ghost g0: Ghosts)
      requires Valid() && Inv(r0, g0) && d in r0.dirs && es == r0.dirs[d] && |es| == NPDENTRIES
               && Clears(r0, g0, ram, g, d, 0)
      modifies this
      ensures Valid() && Clears(r0, g0, ram, g, d, NPDENTRIES)
    {
      hide Inv, Clears;
      var i := 0;
      while i < NPDENTRIES
        invariant 0 <= i <= NPDENTRIES && Valid() && Clears(r0, g0, ram, g, d, i)
      {
        ClearsStep(r0, g0, ram, g, d, i);
        if es[i].Table? {
          Kfree(es[i].frame);
        }
        i := i + 1;
      }
    }

    /** freevm, for an address space without 4 MB pages. */
    method Freevm(d: nat)
      requires Valid() && d in ram.dirs && forall i :: 0 <= i < |ram.dirs[d]| ==> !ram.dirs[d][i].Huge?
      modifies this
      ensures Valid() && Gone(old(ram), old(g), ram, g, d)
    {
      DirSize(ram, g, d);
      hide Inv, Within, Lookup, Dropped, Gone, DropContents;
      var r := Deallocuvm(d, KERNBASE, 0);
      DroppedAll(old(ram), old(g), ram, g, d);
      ghost var r1, g1 := ram, g;
      FreeTables(d);
      GoneAfter(old(ram), old(g), r1, g1, ram, g, d);
    }

    /** setupkvm: a directory with the kernel's page tables. */
    method Setupkvm() returns (d: Option<nat>)
      requires Valid()
      modifies this
      ensures Valid()
      ensures d.None? ==> Restored(old(ram), old(g), ram, g)
      ensures d.Some? ==> Born(old(ram), old(g), ram, g, d.value) && Empty(ram, d.value)
                          && d.value in old(g.owner) && old(g.owner)[d.value].Free?
      ensures d.Some? <==> |old(ram.free)| >= 65
      ensures d.Some? ==> |ram.free| == |old(ram.free)| - 65
    {
      hide Inv, Lookup, Restored, Born, Gone, Within;
      RestoredSelf(ram, g);
      if ram.free != [] {
        NewDirKeeps(ram, g);
        BornNow(ram, g);
      }
      d := Kalloc();
      if d.None? {
        return;
      }
      ghost var r0, g0 := old(ram), old(g);
      ram := ram.(dirs := ram.dirs[d.value := BlankDir()]);
      g := g.(owner := g.owner[d.value := Dir]);
      assert g.owner == g0.owner[d.value := Dir];
      var ok := KernelTables(d.value, r0, g0);
      if !ok {
        d := None;
      }
    }

    /** mappages over the kernel's map: its page tables, in order. */
    method KernelTables(d: nat, ghost r0: Ram, ghost g0: Ghosts) returns (ok: bool)
      requires Valid() && Inv(r0, g0) && Born(r0, g0, ram, g, d) && Empty(ram, d) && d in g0.owner && g0.owner[d].Free?
      requires NoneFrom(ram, d, 512)
      modifies this
      ensures Valid() && if ok then Born(r0, g0, ram, g, d) && Empty(ram, d) else Restored(r0, g0, ram, g)
      ensures ok <==> |old(ram.free)| >= 64
      ensures ok ==> |ram.free| == |old(ram.free)| - 64
    {
      hide Inv, Lookup, Restored, Born, Gone, Within, Empty, NoneFrom;
      var i := 512;
      while i < NPDENTRIES
        invariant 512 <= i <= NPDENTRIES && Valid() && Born(r0, g0, ram, g, d) && Empty(ram, d)
        invariant NoneFrom(ram, d, i) && |ram.free| + KernelTablesTo(i) == |old(ram.free)|
      {
        KernelTablesNext(i);
        NoneFromNext(ram, d, i);
        if KernelTable(i) {
          ok := KernelTableAt(d, i, r0, g0);
          if !ok {
            Abandon(d, r0, g0);
            return;
          }
        }
        i := i + 1;
      }
      ok := true;
    }

    method KernelTableAt(d: nat, i: nat, ghost r0: Ram, ghost g0: Ghosts) returns (ok: bool)
      requires Valid() && Born(r0, g0, ram, g, d) && Empty(ram, d) && USERTABLES <= i < NPDENTRIES
      requires NoneFrom(ram, d, i)
      modifies this
      ensures Valid() && Born(r0, g0, ram, g, d) && (ok ==> Empty(ram, d))
      ensures NoHugeIn(ram, d) && NoneFrom(ram, d, i + 1)
      ensures ok <==> old(ram.free) != []
      ensures ok ==> |ram.free| == |old(ram.free)| - 1
    {
      hide Inv, Lookup, Born, Within, Empty, NoneFrom, Tabled, TablesOnly, EntriesKept;
      ghost var r1, g1 := ram, g;
      BornDir(r0, g0, ram, g, d);
      KernelPlace(ram, d, i);
      ok := Walk(d, i * 1024, true);
      WalkedBorn(r0, g0, r1, g1, ram, g, d, i);
      KernelNext(r1, ram, d, i);
    }

    /** The base pages of copyuvm; all is undone if memory runs out. */
    method CopyPages(p: nat, d: nat, sz: nat, ghost hugesz: nat, ghost r0: Ram, ghost g0: Ghosts) returns (ok: bool)
      requires Valid() && Inv(r0, g0) && Space(r0, p, sz, hugesz) && Born(r0, g0, ram, g, d) && Empty(ram, d)
      requires d in g0.owner && g0.owner[d].Free?
      modifies this
      ensures Valid() && if ok then Born(r0, g0, ram, g, d) && CopyTo(ram, p, d, Up(sz)) else Restored(r0, g0, ram, g)
      ensures ok <==> FramesFor(old(ram), d, 0, Up(sz)) <= |old(ram.free)|
    {
      hide Inv, Lookup, Born, Restored, CopyTo, Space, Empty, Up, Within, FramesFor;
      CopyNone(ram, p, d);
      ghost var spare := |ram.free| - FramesFor(ram, d, 0, Up(sz));
      var v := 0;
      while Addr(v) < sz
        invariant Valid() && Born(r0, g0, ram, g, d) && CopyTo(ram, p, d, v) && (v == 0 || Addr(v) < sz + 4096)
        invariant |ram.free| - FramesFor(ram, d, v, Up(sz)) == spare
        decreases sz - Addr(v)
      {
        ok := CopyOne(p, d, v, sz, hugesz, r0, g0);
        if !ok {
          return;
        }
        v := v + 1;
      }
      UpReached(v, sz);
      NothingLacking(ram, d, v);
      ok := true;
    }

    method CopyOne(p: nat, d: nat, v: nat, sz: nat, ghost hugesz: nat, ghost r0: Ram, ghost g0: Ghosts)
      returns (ok: bool)
      requires Valid() && Inv(r0, g0) && Space(r0, p, sz, hugesz) && Born(r0, g0, ram, g, d) && CopyTo(ram, p, d, v)
               && Addr(v) < sz
      requires d in g0.owner && g0.owner[d].Free?
      modifies this
      ensures Valid() && if ok then Born(r0, g0, ram, g, d) && CopyTo(ram, p, d, v + 1) else Restored(r0, g0, ram, g)
      ensures ok ==> |ram.free| - FramesFor(ram, d, v + 1, Up(sz)) ==
                     |old(ram.free)| - FramesFor(old(ram), d, v, Up(sz))
      ensures !ok ==> |old(ram.free)| < FramesFor(old(ram), d, v, Up(sz))
    {
      CopyPlace(r0, g0, ram, g, p, d, v, sz, hugesz);
      UpBeyond(v, sz);
      hide Inv, Lookup, Born, Restored, CopyTo, Space, Added, Gone, Taken, Tabled, FramesFor, Up;
      ghost var r1, g1 := ram, g;
      var e := Lookup(ram, p, v);
      var data := ram.pages[e.frame];
      var mem;
      mem, ok := NewPage(d, v, e.flags, data);
      if ok {
        CopyStep(r0, g0, r1, g1, ram, g, p, d, v, mem.value);
        FramesAdded(r1, g1, ram, g, d, v, mem.value, e.flags, data, Up(sz));
      } else {
        FramesLeft(r1, g1, d, v, Up(sz));
        if mem.Some? {
          TransitBorn(r0, g0, r1, g1, d, data);
          Kfree(mem.value);
        }
        Abandon(d, r0, g0);
      }
    }

    /** copyuvm's way out. */
    method Abandon(d: nat, ghost r0: Ram, ghost g0: Ghosts)
      requires Valid() && Inv(r0, g0) && Born(r0, g0, ram, g, d) && d in g0.owner && g0.owner[d].Free?
      modifies this
      ensures Valid() && Restored(r0, g0, ram, g)
    {
      hide Inv, Lookup, Born, Restored, Gone;
      ghost var r1, g1 := ram, g;
      BornDir(r0, g0, ram, g, d);
      Freevm(d);
      BornGone(r0, g0, r1, g1, ram, g, d);
    }

    /** khugealloc, a copy into the page, and mappages for one 4 MB page. */
    method HugePage(d: nat, i: nat, flags: nat, data: Page)
      requires Valid() && flags == HUGE_FLAGS && ram.hugefree != [] && d in ram.dirs && i < USERTABLES
               && i < |ram.dirs[d]| && ram.dirs[d][i].NoEntry?
      modifies this
      ensures Valid() && ram == HugeAdd(old(ram), d, i, data) && g == HugeGhosts(old(g), old(ram.hugefree)[0], d, i)
    {
      HugeAddKeeps(ram, g, d, i, data);
      hide Inv, Lookup;
      var h := ram.hugefree[0];
      ram := ram.(hugefree := ram.hugefree[1..]);
      ram := ram.(hugepages := ram.hugepages[h := data]);
      ram := ram.(dirs := ram.dirs[d := ram.dirs[d][i := Huge(h, flags)]]);
      g := HugeGhosts(g, h, d, i);
    }

    /** growhugeproc by n > 0 bytes, while there are 4 MB frames enough; addr is where the new part starts. */
    method Growhugeproc(d: nat, hugesz: nat, n: nat, ghost sz: nat) returns (addr: nat, newsz: nat)
      requires Valid() && Space(ram, d, sz, hugesz) && n > 0 && |ram.hugefree| >= HugeUp(hugesz + n) - HugeUp(hugesz)
      modifies this
      ensures Valid() && newsz == hugesz + n && addr == HUGE_VA_OFFSET + hugesz && Space(ram, d, sz, newsz)
      ensures HugeGrown(old(ram), old(g), ram, g, d, HUGEBASE + HugeUp(hugesz), HUGEBASE + HugeUp(newsz))
      ensures HugeZeros(ram, d, HUGEBASE + HugeUp(hugesz), HUGEBASE + HugeUp(newsz))
    {
      var i := HUGEBASE + HugeUp(hugesz);
      addr, newsz := HUGE_VA_OFFSET + hugesz, hugesz + n;
      ghost var lo := i;
      HugeBelowIff(i, newsz);
      hide Inv, Lookup, HugeGrown, HugeZeros, Space, HugeSized, HugeBelow, HugeAdd;
      StartZeros(ram, g, d, i, sz, hugesz);
      while HugeBelow(i, newsz)
        invariant lo <= i <= HUGEBASE + HugeUp(newsz) && Valid() && HugeGrown(old(ram), old(g), ram, g, d, lo, i)
                  && HugeZeros(ram, d, lo, i)
        decreases HUGEBASE + HugeUp(newsz) - i
      {
        HugeBelowIff(i, newsz);
        HugePlace(old(ram), old(g), ram, g, d, hugesz, i);
        HugeLeft(old(ram), old(g), ram, g, d, lo, i, HUGEBASE + HugeUp(newsz));
        HugeGrowStep(old(ram), old(g), ram, g, d, lo, i, HugeFilled(0));
        HugeZerosStep(ram, g, d, lo, i);
        HugePage(d, i, HUGE_FLAGS, HugeFilled(0));
        i := i + 1;
      }
      HugeBelowIff(i, newsz);
      HugeGrownSized(old(ram), old(g), ram, g, d, sz, hugesz, newsz);
    }

    /** The 4 MB pages of copyuvm, while there are frames enough. */
    method CopyHuge(p: nat, d: nat, ghost sz: nat, hugesz: nat)
      requires Valid() && HugeSized(ram, p, hugesz) && HighEmpty(ram, d) && p != d && |ram.hugefree| >= HugeUp(hugesz)
      modifies this
      ensures Valid() && HugeGrown(old(ram), old(g), ram, g, d, HUGEBASE, HUGEBASE + HugeUp(hugesz))
      ensures HugeTwins(ram, p, d, HUGEBASE + HugeUp(hugesz))
    {
      hide Inv, Lookup, HugeGrown, HugeTwins, HugeSized, HighEmpty, HugeBelow, HugeAdd;
      StartTwins(ram, g, p, d);
      var i := HUGEBASE;
      while HugeBelow(i, hugesz)
        invariant HUGEBASE <= i <= HUGEBASE + HugeUp(hugesz) && Valid()
        invariant HugeGrown(old(ram), old(g), ram, g, d, HUGEBASE, i) && HugeTwins(ram, p, d, i)
        decreases HUGEBASE + HugeUp(hugesz) - i
      {
        HugeBelowIff(i, hugesz);
        HugeCopyPlace(old(ram), old(g), ram, g, p, d, hugesz, i);
        var e := ram.dirs[p][i];
        var data := ram.hugepages[e.frame];
        HugeGrowStep(old(ram), old(g), ram, g, d, HUGEBASE, i, data);
        HugeTwinsStep(ram, g, p, d, i);
        HugePage(d, i, e.flags, data);
        i := i + 1;
      }
      HugeBelowIff(i, hugesz);
    }

    /** copyuvm, while there are 4 MB frames enough: a copy of address space p, or nothing changed. */
    method Copyuvm(p: nat, sz: nat, hugesz: nat) returns (d: Option<nat>)
      requires Valid() && p in ram.dirs && Space(ram, p, sz, hugesz) && |ram.hugefree| >= HugeUp(hugesz)
      modifies this
      ensures Valid()
      ensures d.None? ==> Restored(old(ram), old(g), ram, g)
      ensures d.Some? ==> Forked(old(ram), old(g), ram, g, p, d.value, sz, hugesz)
      ensures d.Some? <==> |old(ram.free)| >= CopyFrames(sz)
    {
      hide Inv, Lookup, Born, CopyTo, Restored, Forked, HugeGrown, HugeTwins, Empty, Space, FramesFor;
      SpaceParts(ram, g, p, sz, hugesz);
      PagesBelow(sz);
      d := Setupkvm();
      if d.None? {
        return;
      }
      FramesForAll(ram, d.value, Up(sz));
      var ok := CopyPages(p, d.value, sz, hugesz, old(ram), old(g));
      if !ok {
        return None;
      }
      ghost var r1, g1 := ram, g;
      BornHuge(old(ram), old(g), ram, g, p, d.value, sz, hugesz);
      CopyHuge(p, d.value, sz, hugesz);
      ForkedNow(old(ram), old(g), r1, g1, ram, g, p, d.value, sz, hugesz);
    }

    /** procpgdirinfo: count the user's base pages and 4 MB pages. */
    method Procpgdirinfo(d: nat) returns (base: nat, huge: nat)
      requires Valid() && d in ram.dirs
      ensures base == UserPages(ram, d, ALLPAGES)
      ensures |ram.dirs[d]| == NPDENTRIES && huge == UserHugePages(ram, d, NPDENTRIES)
      ensures base == |set v: nat | v < ALLPAGES && UserPage(ram, d, v)|
      ensures huge == |set i: nat | i < NPDENTRIES && UserHugePage(ram, d, i)|
    {
      UserPagesAre(ram, d, ALLPAGES);
      DirSize(ram, g, d);
      UserHugePagesAre(ram, d, NPDENTRIES);
      base, huge := 0, 0;
      var i := 0;
      while i < NPDENTRIES
        invariant 0 <= i <= NPDENTRIES && base == UserPages(ram, d, i * 1024) && huge == UserHugePages(ram, d, i)
      {
        assert TableOk(ram, g.owner, d, i);
        if ram.dirs[d][i].Huge? && UserFlags(ram.dirs[d][i].flags) {
          huge := huge + 1;
        }
        if ram.dirs[d][i].Table? {
          base := CountTable(d, i, base);
        } else {
          NoTableAbsent(ram, d, i);
          NoPages(ram, d, i * 1024, (i + 1) * 1024);
        }
        i := i + 1;
      }
    }

    method CountTable(d: nat, i: nat, start: nat) returns (base: nat)
      requires Valid() && d in ram.dirs && i < |ram.dirs[d]| && ram.dirs[d][i].Table?
               && start == UserPages(ram, d, i * 1024)
      ensures base == UserPages(ram, d, (i + 1) * 1024)
    {
      assert TableOk(ram, g.owner, d, i);
      hide Inv;
      var table := ram.tables[ram.dirs[d][i].frame];
      base := start;
      var j := 0;
      while j < NPTENTRIES
        invariant 0 <= j <= NPTENTRIES && base == UserPages(ram, d, i * 1024 + j)
      {
        assert Pdx(i * 1024 + j) == i && Ptx(i * 1024 + j) == j;
        assert Lookup(ram, d, i * 1024 + j) == table[j];
        if table[j].Present? && UserFlags(table[j].flags) {
          base := base + 1;
        }
        j := j + 1;
      }
    }
  }

  /** The frames it takes to copy an address space of sz bytes: a directory, 64 page tables of the kernel's
      part, the pages, and the page tables for them. */
  function CopyFrames(sz: nat): (n: nat) {
    1 + 64 + Up(sz) + (Up(sz) + 1023) / 1024
  }

  lemma PagesBelow(sz: nat)
    requires sz < KERNBASE
    ensures Up(sz) <= USERPAGES
  {
  }

  lemma UpBeyond(v: nat, sz: nat)
    requires Addr(v) < sz
    ensures v < Up(sz)
  {
  }

  lemma NothingLacking(r: Ram, d: nat, v: nat)
    ensures FramesFor(r, d, v, v) == 0
  {
  }

  lemma KernelPlace(r: Ram, d: nat, i: nat)
    requires NoneFrom(r, d, i) && i < NPDENTRIES
    ensures Pdx(i * 1024) == i && d in r.dirs && |r.dirs[d]| == NPDENTRIES && !r.dirs[d][i].Huge?
            && !Tabled(r, d, i * 1024)
  {
  }

  lemma KernelNext(r: Ram, r': Ram, d: nat, i: nat)
    requires NoneFrom(r, d, i) && EntriesKept(r, r', d, i)
    ensures NoneFrom(r', d, i + 1)
  {
  }

  lemma NoneFromNext(r: Ram, d: nat, i: nat)
    requires NoneFrom(r, d, i)
    ensures NoneFrom(r, d, i + 1)
  {
  }

  datatype Sizes = Sizes(sz: nat, hugesz: nat)

  /** The processes' address spaces, by page directory. */
  class Processes {
    const m: Machine
    var table: map<nat, Sizes>

    /** Every process has the pages its sizes say and no other, and every directory is some process's. */
    ghost predicate Valid()
      reads this, m
    {
      && m.Valid() && table.Keys == m.ram.dirs.Keys
      && (forall d :: d in table ==> table[d].sz > 0 && Space(m.ram, d, table[d].sz, table[d].hugesz))
    }

    constructor (m: Machine)
      requires m.Valid() && m.ram.dirs == map[]
      ensures this.m == m && Valid() && table == map[]
    {
      this.m := m;
      table := map[];
    }

    /** userinit: the first process, with one page; None is its panic. */
    method Userinit(data: Page) returns (r: Option<nat>)
      requires Valid() && table == map[]
      modifies this`table, m
      ensures r.Some? <==> |old(m.ram.free)| >= 67
      ensures r.Some? ==> Valid() && table == map[r.value := Sizes(PGSIZE, 0)]
      ensures r.Some? ==> var e := Lookup(m.ram, r.value, 0);
                          e.Present? && e.flags == PTE_W + PTE_U + PTE_P
                          && e.frame in m.ram.pages && m.ram.pages[e.frame] == data
    {
      hide Inv, Lookup, Space, Born, Restored, Added, Empty;
      r := m.Setupkvm();
      if r.None? {
        return;
      }
      ghost var r1, g1 := m.ram, m.g;
      FirstPlace(r1, g1, r.value);
      var mem, ok := m.NewPage(r.value, 0, PTE_W + PTE_U + PTE_P, data);
      if !ok {
        return None;
      }
      FirstPage(r1, g1, m.ram, m.g, r.value, mem.value, PTE_W + PTE_U + PTE_P, data);
      OnlyDir(old(m.ram), old(m.g), r1, g1, m.ram, m.g, r.value, mem.value, PTE_W + PTE_U + PTE_P, data);
      table := map[r.value := Sizes(PGSIZE, 0)];
    }

    /** sbrk: every address space stays as its sizes say, unless this process shrinks to exactly 0. */
    method Growproc(d: nat, n: int) returns (ok: bool)
      requires Valid() && d in table && -0x8000_0000 <= n < 0x8000_0000
      requires n > 0 ==> Undoable(m.ram, d, table[d].sz + n)
      modifies this`table, m
      ensures Valid() <==> !(n < 0 && old(table[d].sz) + n == 0)
      ensures var was := old(table[d]);
              table == old(table)[d := Sizes(if ok && was.sz + n > 0 then was.sz + n else was.sz, was.hugesz)]
      ensures Within(old(m.ram), old(m.g), m.ram, m.g, d, {})
      ensures var sz := old(table[d].sz);
              n > 0 ==> (ok <==> sz + n < KERNBASE
                                 && FramesFor(old(m.ram), d, Up(sz), Up(sz + n)) <= |old(m.ram.free)|)
    {
      hide Inv, Lookup, Space, Within, Grown, RolledBack, Dropped, Undoable, FramesFor, Up;
      ghost var s := table[d];
      var newsz;
      ok, newsz := m.Growproc(d, table[d].sz, n, table[d].hugesz);
      forall e | e in table && e != d ensures Space(m.ram, e, table[e].sz, table[e].hugesz) {
        SpaceElsewhere(old(m.ram), old(m.g), m.ram, m.g, d, e, table[e].sz, table[e].hugesz);
      }
      WithinDirs(old(m.ram), old(m.g), m.ram, m.g, d);
      table := table[d := Sizes(newsz, table[d].hugesz)];
    }

    /** shugebrk by n > 0 bytes, while there are 4 MB frames enough. */
    method Growhugeproc(d: nat, n: nat) returns (addr: nat)
      requires Valid() && d in table && n > 0
      requires |m.ram.hugefree| >= HugeUp(table[d].hugesz + n) - HugeUp(table[d].hugesz)
      modifies this`table, m
      ensures Valid() && addr == HUGE_VA_OFFSET + old(table[d].hugesz)
      ensures table == old(table)[d := Sizes(old(table[d].sz), old(table[d].hugesz) + n)]
    {
      hide Inv, Lookup, Space, HugeGrown, HugeZeros;
      ghost var s := table[d];
      var newsz;
      addr, newsz := m.Growhugeproc(d, table[d].hugesz, n, table[d].sz);
      ghost var lo, hi := HUGEBASE + HugeUp(s.hugesz), HUGEBASE + HugeUp(newsz);
      forall e | e in table && e != d ensures Space(m.ram, e, table[e].sz, table[e].hugesz) {
        HugeGrowElsewhere(old(m.ram), old(m.g), m.ram, m.g, d, lo, hi, e, table[e].sz, table[e].hugesz);
      }
      HugeDirs(old(m.ram), old(m.g), m.ram, m.g, d, lo, hi);
      table := table[d := Sizes(table[d].sz, newsz)];
    }

    /** fork, while there are 4 MB frames enough: the child is like its parent and nobody else changes, or
        everything is as before. */
    method Fork(p: nat) returns (d: Option<nat>)
      requires Valid() && p in table && |m.ram.hugefree| >= HugeUp(table[p].hugesz)
      modifies this`table, m
      ensures Valid()
      ensures d.Some? <==> |old(m.ram.free)| >= CopyFrames(old(table[p].sz))
      ensures d.None? ==> table == old(table) && Restored(old(m.ram), old(m.g), m.ram, m.g)
      ensures d.Some? ==> d.value !in old(table) && table == old(table)[d.value := old(table[p])]
      ensures d.Some? ==>
                var of := old(table[p]); Forked(old(m.ram), old(m.g), m.ram, m.g, p, d.value, of.sz, of.hugesz)
    {
      hide Inv, Lookup, Space, Restored, Forked;
      d := m.Copyuvm(p, table[p].sz, table[p].hugesz);
      if d.None? {
        RestoredDirs(old(m.ram), old(m.g), m.ram, m.g);
        forall e | e in table ensures Space(m.ram, e, table[e].sz, table[e].hugesz) {
          RestoredElsewhere(old(m.ram), old(m.g), m.ram, m.g, e, table[e].sz, table[e].hugesz);
        }
      } else {
        ForkedDirs(old(m.ram), old(m.g), m.ram, m.g, p, d.value, table[p].sz, table[p].hugesz);
        forall e | e in table ensures Space(m.ram, e, table[e].sz, table[e].hugesz) {
          ForkElsewhere(old(m.ram), old(m.g), m.ram, m.g, p, d.value, table[p].sz, table[p].hugesz, e, table[e].sz,
                        table[e].hugesz);
        }
        table := table[d.value := table[p]];
      }
    }
  }

  lemma WithinDirs(r0: Ram, g0: Ghosts, r: Ram, g: Ghosts, d: nat)
    requires Within(r0, g0, r, g, d, {})
    ensures r.dirs.Keys == r0.dirs.Keys
  {
    hide Lookup;
  }

  lemma HugeDirs(r0: Ram, g0: Ghosts, r: Ram, g: Ghosts, d: nat, lo: nat, i: nat)
    requires HugeGrown(r0, g0, r, g, d, lo, i)
    ensures r.dirs.Keys == r0.dirs.Keys
  {
    hide Lookup;
  }

  lemma RestoredDirs(r0: Ram, g0: Ghosts, r: Ram, g: Ghosts)
    requires Restored(r0, g0, r, g)
    ensures r.dirs == r0.dirs
  {
    hide Lookup;
  }

  lemma ForkedDirs(r0: Ram, g0: Ghosts, r: Ram, g: Ghosts, p: nat, d: nat, sz: nat, hugesz: nat)
    requires Forked(r0, g0, r, g, p, d, sz, hugesz)
    ensures d !in r0.dirs && r.dirs.Keys == r0.dirs.Keys + {d} && Space(r, d, sz, hugesz)
  {
    hide Lookup, Space;
  }

  lemma FirstPlace(r: Ram, g: Ghosts, d: nat)
    requires Inv(r, g) && Empty(r, d)
    ensures d in r.dirs && Pdx(0) < |r.dirs[d]| && !r.dirs[d][Pdx(0)].Huge? && Lookup(r, d, 0).Absent?
    ensures !Tabled(r, d, 0)
  {
  }

  lemma OnlyDir(r0: Ram, g0: Ghosts, r1: Ram, g1: Ghosts, r: Ram, g: Ghosts, d: nat, f: nat, flags: nat, data: Page)
    requires r0.dirs.Keys == {} && Born(r0, g0, r1, g1, d) && Added(r1, g1, r, g, d, 0, f, flags, data)
    ensures r.dirs.Keys == {d}
  {
    hide Lookup;
  }
}
