/** A volume on which one chunk of filewrite logs exactly MAXOPBLOCKS blocks: all blocks are taken but four,
    which lie under four different map blocks, and the write starts in mid-block of a file that is about to
    need an indirect block. */
module TightVolume {
  import opened Blocks
  import opened Bitmap
  import opened Inodes
  import opened WriteCost
  import Fs
  import FreshVolume

  const SIZE := 12289
  const CELLS := 8190
  const FILE := 59
  const BYTES := 5888 // 11 blocks and a half

  function Layout(): (sb: Super)
    ensures sb.Wf()
  {
    Super(SIZE, 64, 2, 20, 4095)
  }

  /** Data blocks in order, without 4095, 8191, 8192 and 12288. */
  function BlockOf(c: nat): (b: nat) {
    if c < 4095 then 4096 + c else 4098 + c
  }

  predicate TakenBy(n: nat, b: nat) {
    (4096 <= b < 8191 && b - 4096 < n) || (8193 <= b < 12288 && b - 4098 < n)
  }

  /** The blocks of the first n cells belong to the slots of the inodes from 1 on, in order. */
  ghost predicate Packed(v: Volume, owner: Owners, n: nat) {
    && Inv(Layout(), v, owner) && n <= CELLS
    && (forall b: nat :: b in owner <==> TakenBy(n, b))
    && (forall i, k :: 0 <= i < 64 && 0 <= k < SLOTS ==> SlotFull(v, i, k, n))
    && (forall i :: 0 <= i < 64 ==> v.inodes[i].size == 0)
  }

  ghost predicate SlotFull(v: Volume, i: nat, k: nat, n: nat)
    requires Shape(Layout(), v) && i < 64 && k < SLOTS
  {
    Addr(Layout(), v, i, k) != 0 <==> 1 <= i && 141 * (i - 1) + k < n
  }

  lemma FirstCell() returns (v: Volume)
    ensures Packed(v, map[], 0)
  {
    v := FreshVolume.EmptyVolume(Layout());
    forall i: nat, k: nat | i < 64 && k < SLOTS ensures SlotFull(v, i, k, 0) {
      assert SlotOwned(Layout(), v, map[], i, k);
    }
  }

  /** The next cell can be given its block. */
  lemma NextCell(v: Volume, owner: Owners, n: nat)
    requires Packed(v, owner, n) && n < CELLS
    ensures var i, k := 1 + n / 141, n % 141;
            i < 60 && k < SLOTS && CanGrow(Layout(), v, i, k, BlockOf(n)) && Addr(Layout(), v, i, k) == 0
  {
    var i, k, b := 1 + n / 141, n % 141, BlockOf(n);
    assert n == 141 * (i - 1) + k;
    assert SlotFull(v, i, k, n) && SlotFull(v, i, NDIRECT, n);
    assert !TakenBy(n, b);
    hide Addr, InUse;
    assert InUse(Layout(), v, b) <==> b < 4095 || b in owner;
    assert Addr(Layout(), v, i, NDIRECT) == v.inodes[i].addrs[NDIRECT] by { DirectAddr(v, i); }
  }

  lemma DirectAddr(v: Volume, i: nat)
    requires Shape(Layout(), v) && i < 64
    ensures Addr(Layout(), v, i, NDIRECT) == v.inodes[i].addrs[NDIRECT]
  {
  }

  lemma CellIs(n: nat, i: nat, k: nat)
    requires i >= 1 && k < 141
    ensures 141 * (i - 1) + k == n <==> i == 1 + n / 141 && k == n % 141
  {
  }

  lemma Pack(v: Volume, owner: Owners, n: nat) returns (v': Volume, owner': Owners)
    requires Packed(v, owner, n) && n < CELLS
    ensures Packed(v', owner', n + 1)
  {
    var i, k, b := 1 + n / 141, n % 141, BlockOf(n);
    NextCell(v, owner, n);
    v', owner' := Grow(Layout(), v, i, k, b), owner[b := (i, k)];
    GrowKeeps(Layout(), v, owner, i, k, b);
    GrowRecords(Layout(), v, owner, i, k, b);
    assert forall c: nat :: c in owner' <==> TakenBy(n + 1, c);
    hide Owned, Shape, Grow, CanGrow, Addr;
    var next := n + 1;
    forall j: nat, m: nat | j < 64 && m < SLOTS ensures SlotFull(v', j, m, next) {
      GrowAddr(Layout(), v, owner, i, k, b, j, m);
      assert SlotFull(v, j, m, n);
      if j >= 1 { CellIs(n, j, m); }
    }
  }

  lemma {:induction false} PackAll(n: nat) returns (v: Volume, owner: Owners)
    requires n <= CELLS
    ensures Packed(v, owner, n)
  {
    if n == 0 {
      v := FirstCell();
      owner := map[];
    } else {
      v, owner := PackAll(n - 1);
      v, owner := Pack(v, owner, n - 1);
    }
  }

  // ----- the file, and the records of the inodes -----

  /** Every block but four is taken, and FILE has its direct blocks and no other. */
  ghost predicate Crowded(v: Volume, owner: Owners) {
    && Inv(Layout(), v, owner)
    && (forall b: nat :: b in owner <==> TakenBy(CELLS, b))
    && (forall k :: 0 <= k < SLOTS ==> SlotFull(v, FILE, k, CELLS))
    && v.inodes[FILE].size == BYTES && (forall j :: 0 <= j < 64 && j != FILE ==> v.inodes[j].size == 0)
  }

  lemma SizeFile(v: Volume, owner: Owners) returns (v': Volume)
    requires Packed(v, owner, CELLS)
    ensures Crowded(v', owner)
  {
    v' := Volume(v.blocks, v.inodes[FILE := Fs.Resized(v.inodes[FILE], BYTES)]);
    Fs.ResizedKeeps(Layout(), v, v', owner, FILE);
    hide Owned, Shape, Addr;
    forall k | 0 <= k < SLOTS ensures SlotFull(v', FILE, k, CELLS) {
      SameStorageAddr(Layout(), v, v', owner, FILE, k);
      assert SlotFull(v, FILE, k, CELLS);
    }
  }

  /** The records of the first m inodes are written. */
  lemma {:induction false} SyncTo(v: Volume, owner: Owners, m: nat) returns (v': Volume)
    requires Crowded(v, owner) && m <= 64
    ensures Crowded(v', owner) && forall j :: 0 <= j < m ==> Synced(Layout(), v', j)
  {
    if m == 0 {
      v' := v;
    } else {
      var v1 := SyncTo(v, owner, m - 1);
      v' := SyncOne(v1, owner, m - 1);
    }
  }

  lemma SyncOne(v: Volume, owner: Owners, m: nat) returns (v': Volume)
    requires Crowded(v, owner) && m < 64 && forall j :: 0 <= j < m ==> Synced(Layout(), v, j)
    ensures Crowded(v', owner) && forall j :: 0 <= j < m + 1 ==> Synced(Layout(), v', j)
  {
    InodeBlockInRange(Layout(), m);
    v' := Written(Layout(), v, m);
    WrittenOnDisk(Layout(), v, m, m);
    SameStorageKeeps(Layout(), v, v', owner);
    hide Owned, Shape, Addr, SameStorage, OnDisk, DinodeAt, PutDinode;
    forall k | 0 <= k < SLOTS ensures SlotFull(v', FILE, k, CELLS) {
      SameStorageAddr(Layout(), v, v', owner, FILE, k);
      assert SlotFull(v, FILE, k, CELLS);
    }
    forall j | 0 <= j < m + 1 ensures Synced(Layout(), v', j) {
      InodeBlockInRange(Layout(), j);
      WrittenOnDisk(Layout(), v, m, j);
      assert j < m ==> Synced(Layout(), v, j);
    }
  }

  lemma CrowdedVolume() returns (v: Volume, owner: Owners)
    ensures Crowded(v, owner) && Fs.AllCurrent(Layout(), v)
  {
    v, owner := PackAll(CELLS);
    v := SizeFile(v, owner);
    v := SyncTo(v, owner, 64);
    hide Owned, Addr, Synced;
    forall j: nat | j < 64 ensures NoHoles(Layout(), v, j) {
      if j == FILE {
        forall n | 0 <= n < Span(BYTES) && n < MAXFILE ensures Addr(Layout(), v, FILE, FileSlot(n)) != 0 {
          assert SlotFull(v, FILE, FileSlot(n), CELLS);
        }
      }
    }
  }

  // ----- the write -----

  function Holes(): (r: set<nat>) {
    {4095, 8191, 8192, 12288}
  }

  lemma CrowdedFree(v: Volume, owner: Owners)
    requires Crowded(v, owner)
    ensures FreeBlocks(Layout(), v) == Holes() && |Holes()| == 4
  {
    hide Owned, FreeBlocks;
    forall b: nat ensures b in FreeBlocks(Layout(), v) <==> b in Holes() {
      FreeIs(Layout(), v, owner, b);
    }
  }

  lemma CrowdedMissing(v: Volume, owner: Owners)
    requires Crowded(v, owner)
    ensures Fs.Reached(BYTES, Fs.CHUNK) == 15 && BYTES / BSIZE == 11
    ensures Missing(Layout(), v, FILE, 11, 15) == {12, 13, 14, 15}
    ensures Fs.Short(Layout(), v, FILE, BYTES, Fs.CHUNK) == {12, 13, 14, 15}
  {
    hide Owned, Shape, Addr;
    NeededSlots(11, 15);
    var need := Needed(11, 15);
    assert FileSlot(11) == 11 && FileSlot(12) == 13 && FileSlot(13) == 14 && FileSlot(14) == 15;
    forall k: nat ensures k in need <==> k in {11, 12, 13, 14, 15} {
      if k in need && k != NDIRECT {
        var n :| 11 <= n < 15 && FileSlot(n) == k;
      }
    }
    forall k: nat | k < SLOTS ensures k in Mapped(Layout(), v, FILE) <==> k < 12 {
      assert SlotFull(v, FILE, k, CELLS);
    }
  }

  /** A block that a slot got was free before. */
  lemma WasFree(sb: Super, v: Volume, v': Volume, owner: Owners, owner': Owners, i: nat, k: nat)
    requires Inv(sb, v, owner) && Inv(sb, v', owner') && SlotsGrew(sb, v, v', i) && i < sb.ninodes && k < SLOTS
    requires Addr(sb, v, i, k) == 0 && Addr(sb, v', i, k) != 0
    ensures var a := Addr(sb, v', i, k); a in FreeBlocks(sb, v) && a in owner' && owner'[a] == (i, k)
  {
    var a := Addr(sb, v', i, k);
    SlotFacts(sb, v', owner', i, k);
    if a in owner {
      assert OwnerPoints(sb, v, owner, a);
      SlotFacts(sb, v', owner', owner[a].0, owner[a].1);
    }
    FreeIs(sb, v, owner, a);
  }

  lemma SameFour(a: set<nat>, b: set<nat>)
    requires a <= b && |a| == |b|
    ensures a == b
  {
    if x :| x in b && x !in a {
      Fewer(a, b - {x});
    }
  }

  /** The four slots that the write fills get the four free blocks. */
  lemma FourSlots(v: Volume, v': Volume, owner: Owners, owner': Owners)
    requires Crowded(v, owner) && Inv(Layout(), v', owner') && SlotsGrew(Layout(), v, v', FILE)
    requires forall k :: 12 <= k < 16 ==> Addr(Layout(), v', FILE, k) != 0
    ensures {Addr(Layout(), v', FILE, 12), Addr(Layout(), v', FILE, 13), Addr(Layout(), v', FILE, 14),
             Addr(Layout(), v', FILE, 15)} == Holes()
  {
    hide Crowded, Owned, SlotsGrew, Addr, FreeBlocks, Holes;
    CrowdedFree(v, owner);
    OneSlot(v, v', owner, owner', 12);
    OneSlot(v, v', owner, owner', 13);
    OneSlot(v, v', owner, owner', 14);
    OneSlot(v, v', owner, owner', 15);
    var sb := Layout();
    var c, d, e, f := Addr(sb, v', FILE, 12), Addr(sb, v', FILE, 13), Addr(sb, v', FILE, 14), Addr(sb, v', FILE, 15);
    FourDifferent(c, d, e, f);
    SameFour({c, d, e, f}, Holes());
  }

  lemma FourDifferent(c: nat, d: nat, e: nat, f: nat)
    requires c != d && c != e && c != f && d != e && d != f && e != f
    ensures |{c, d, e, f}| == 4
  {
  }

  lemma OneSlot(v: Volume, v': Volume, owner: Owners, owner': Owners, k: nat)
    requires Crowded(v, owner) && Inv(Layout(), v', owner') && SlotsGrew(Layout(), v, v', FILE)
    requires 12 <= k < 16 && Addr(Layout(), v', FILE, k) != 0
    ensures var a := Addr(Layout(), v', FILE, k); a in FreeBlocks(Layout(), v) && a in owner' && owner'[a] == (FILE, k)
  {
    assert SlotFull(v, FILE, k, CELLS);
    WasFree(Layout(), v, v', owner, owner', FILE, k);
  }

  lemma OldBlock(v: Volume, v': Volume, owner: Owners, owner': Owners)
    requires Crowded(v, owner) && Inv(Layout(), v', owner') && SlotsGrew(Layout(), v, v', FILE)
    ensures Addr(Layout(), v', FILE, 11) !in Holes() && Addr(Layout(), v', FILE, 11) >= 4095
  {
    CrowdedFree(v, owner);
    assert SlotFull(v, FILE, 11, CELLS);
    SlotFacts(Layout(), v, owner, FILE, 11);
    FreeIs(Layout(), v, owner, Addr(Layout(), v, FILE, 11));
  }

  /** Whichever of the four blocks the write gives to which slot, it logs ten blocks. */
  lemma TenBlocks(v: Volume, v': Volume, owner: Owners, owner': Owners)
    requires Crowded(v, owner) && Inv(Layout(), v', owner') && SlotsGrew(Layout(), v, v', FILE)
    requires forall k :: 12 <= k < 16 ==> Addr(Layout(), v', FILE, k) != 0
    ensures |Fs.Charged(Layout(), v, v', FILE, BYTES, Fs.CHUNK)| == 10
  {
    hide Owned, SlotsGrew, Addr, Missing, Fs.Charged, Fs.Short;
    CrowdedMissing(v, owner);
    FourSlots(v, v', owner, owner');
    OldBlock(v, v', owner, owner');
    TenOf(Layout(), v, v');
  }

  lemma TenOf(sb: Super, v: Volume, v': Volume)
    requires sb == Layout() && Shape(sb, v) && Shape(sb, v') && v.inodes[FILE].size == BYTES
    requires Missing(sb, v, FILE, 11, 15) == {12, 13, 14, 15} && Fs.Reached(BYTES, Fs.CHUNK) == 15
    requires Addr(sb, v', FILE, 11) !in Holes() && Addr(sb, v', FILE, 11) >= 4095
    requires {Addr(sb, v', FILE, 12), Addr(sb, v', FILE, 13), Addr(sb, v', FILE, 14), Addr(sb, v', FILE, 15)} == Holes()
    ensures |Fs.Charged(sb, v, v', FILE, BYTES, Fs.CHUNK)| == 10
  {
    hide Shape, Addr, Missing, MapsOf, DataOf, Beyond, Holes;
    var x := Addr(sb, v', FILE, 11);
    var miss := Missing(sb, v, FILE, 11, 15);
    FourData(sb, v');
    FourMaps(sb, v', miss);
    assert 13 in miss;
    BeyondIs(miss);
    assert Fs.Charged(sb, v, v', FILE, BYTES, Fs.CHUNK) == {x} + Holes() + {20, 21, 22, 23} + {9};
    TenIs(x);
  }

  lemma TenIs(x: nat)
    requires x !in Holes() && x >= 4095
    ensures |{x} + Holes() + {20, 21, 22, 23} + {9}| == 10
  {
    var maps: set<nat> := {20, 21, 22, 23};
    assert |Holes()| == 4 && |maps| == 4;
    assert Holes() !! maps;
    hide Holes;
    var five := {x} + Holes();
    assert |five| == 5 && |five + maps| == 9;
  }

  lemma BeyondIs(miss: set<nat>)
    requires 13 in miss
    ensures Beyond(miss)
  {
  }

  lemma FourData(sb: Super, v: Volume)
    requires sb == Layout() && Shape(sb, v)
    ensures DataOf(sb, v, FILE, 11, 15) ==
            {Addr(sb, v, FILE, 11), Addr(sb, v, FILE, 13), Addr(sb, v, FILE, 14), Addr(sb, v, FILE, 15)}
  {
    hide Shape, Addr;
    assert FileSlot(11) == 11 && FileSlot(12) == 13 && FileSlot(13) == 14 && FileSlot(14) == 15;
  }

  lemma FourMaps(sb: Super, v: Volume, miss: set<nat>)
    requires sb == Layout() && Shape(sb, v) && miss == {12, 13, 14, 15}
    requires {Addr(sb, v, FILE, 12), Addr(sb, v, FILE, 13), Addr(sb, v, FILE, 14), Addr(sb, v, FILE, 15)} == Holes()
    ensures MapsOf(sb, v, FILE, miss) == {20, 21, 22, 23}
  {
    hide Shape, Addr, MapBlock;
    var c, d, e, f := Addr(sb, v, FILE, 12), Addr(sb, v, FILE, 13), Addr(sb, v, FILE, 14), Addr(sb, v, FILE, 15);
    assert MapsOf(sb, v, FILE, miss) == {MapBlock(20, c), MapBlock(20, d), MapBlock(20, e), MapBlock(20, f)};
    HoleMaps();
    assert 4095 in {c, d, e, f} && 8191 in {c, d, e, f} && 8192 in {c, d, e, f} && 12288 in {c, d, e, f};
  }

  lemma HoleMaps()
    ensures MapBlock(20, 4095) == 20 && MapBlock(20, 8191) == 21 && MapBlock(20, 8192) == 22
            && MapBlock(20, 12288) == 23
  {
  }

  /** The bound is reached: on a crowded volume, and CrowdedVolume makes one, a chunk is written and logs
      MAXOPBLOCKS blocks. */
  method BoundIsReached(v: Volume, ghost owner: Owners, src: seq<byte>) returns (fs: Fs.FileSystem, r: Option<int>)
    requires Crowded(v, owner) && Fs.AllCurrent(Layout(), v) && |src| == Fs.CHUNK
    ensures r == Some(Fs.CHUNK) && |fs.logged| == Fs.MAXOPBLOCKS
  {
    hide Crowded, Owned, Shape, Addr, Fs.AllCurrent, Fs.Charged;
    hide Fs.Short, Wrote, SlotsGrew, FreeBlocks, Missing;
    CrowdedFile(v, owner);
    CrowdedMissing(v, owner);
    CrowdedFree(v, owner);
    fs := new Fs.FileSystem(Layout(), v, owner);
    r := fs.Writei(FILE, src, BYTES);
    Fs.Counts(Layout(), fs.Vol());
    Fs.CurrentHere(Layout(), fs.Vol(), FILE);
    FileMapped(fs.Vol(), fs.owner);
    TenBlocks(v, fs.Vol(), owner, fs.owner);
    assert {} + fs.logged == fs.logged;
  }

  lemma CrowdedFile(v: Volume, owner: Owners)
    requires Crowded(v, owner)
    ensures Inv(Layout(), v, owner) && |v.inodes| == 64 && v.inodes[FILE].size == BYTES
    ensures BYTES + Fs.CHUNK <= MAXBYTES
  {
  }

  lemma FileMapped(v: Volume, owner: Owners)
    requires Inv(Layout(), v, owner) && v.inodes[FILE].size == BYTES + Fs.CHUNK && NoHoles(Layout(), v, FILE)
    ensures forall k :: 12 <= k < 16 ==> Addr(Layout(), v, FILE, k) != 0
  {
    assert FileSlot(12) == 13 && FileSlot(13) == 14 && FileSlot(14) == 15 && Span(BYTES + Fs.CHUNK) == 15;
    assert Addr(Layout(), v, FILE, FileSlot(12)) != 0;
  }
}
