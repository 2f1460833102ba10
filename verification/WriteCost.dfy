/** What a write costs: which slots of the file it has to fill, how many free blocks that takes, and
    exactly which blocks it logs. */
module WriteCost {
  import opened Blocks
  import opened Bitmap
  import opened Inodes

  /** The slots of inode i that have a block. */
  ghost function Mapped(sb: Super, v: Volume, i: nat): (r: set<nat>)
    requires Shape(sb, v) && i < sb.ninodes
  {
    set k: nat | k < SLOTS && Addr(sb, v, i, k) != 0
  }

  /** The slots behind blocks lo to hi of a file. */
  ghost function Needed(lo: nat, hi: nat): (r: set<nat>)
    requires hi <= MAXFILE
  {
    (set n: nat | lo <= n < hi :: FileSlot(n)) + (if lo < hi && NDIRECT < hi then {NDIRECT} else {})
  }

  /** Those that still have to be filled, one free block each. */
  ghost function Missing(sb: Super, v: Volume, i: nat, lo: nat, hi: nat): (r: set<nat>)
    requires Shape(sb, v) && i < sb.ninodes && hi <= MAXFILE
  {
    Needed(lo, hi) - Mapped(sb, v, i)
  }

  lemma NeededSlots(lo: nat, hi: nat)
    requires hi <= MAXFILE
    ensures forall k :: k in Needed(lo, hi) ==> k < SLOTS
    ensures forall n :: lo <= n < hi ==> FileSlot(n) in Needed(lo, hi)
    ensures forall k :: k in Needed(lo, hi) && k != NDIRECT ==> exists n :: lo <= n < hi && FileSlot(n) == k
    ensures NDIRECT in Needed(lo, hi) <==> lo < hi && NDIRECT < hi
  {
  }

  lemma NeededMore(lo: nat, hi: nat)
    requires lo <= hi < MAXFILE
    ensures Needed(lo, hi + 1) == Needed(lo, hi) + Needed(hi, hi + 1)
  {
    var all, parts := Needed(lo, hi + 1), Needed(lo, hi) + Needed(hi, hi + 1);
    forall k | k in all && k != NDIRECT ensures k in parts {
      var n: nat :| lo <= n < hi + 1 && FileSlot(n) == k;
      if n < hi {
        assert FileSlot(n) in Needed(lo, hi);
      }
    }
    forall k | k in Needed(lo, hi) && k != NDIRECT ensures k in all {
      var n: nat :| lo <= n < hi && FileSlot(n) == k;
      assert FileSlot(n) in all;
    }
  }

  lemma NeededOne(n: nat)
    requires n < MAXFILE
    ensures Needed(n, n + 1) == {FileSlot(n)} + if n < NDIRECT then {} else {NDIRECT}
  {
  }

  lemma OneMore(a: set<nat>, x: nat)
    ensures |a + {x}| <= |a| + 1
  {
    if x in a {
      assert a + {x} == a;
    }
  }

  lemma {:induction false} NeededSize(lo: nat, hi: nat)
    requires lo <= hi <= MAXFILE
    ensures |Needed(lo, hi) - {NDIRECT}| <= hi - lo
  {
    hide Needed, FileSlot;
    if lo < hi {
      NeededSize(lo, hi - 1);
      NeededLast(lo, hi);
      OneMore(Needed(lo, hi - 1) - {NDIRECT}, FileSlot(hi - 1));
    } else {
      NothingNeeded(lo);
    }
  }

  lemma NeededLast(lo: nat, hi: nat)
    requires lo < hi <= MAXFILE
    ensures Needed(lo, hi) - {NDIRECT} == (Needed(lo, hi - 1) - {NDIRECT}) + {FileSlot(hi - 1)}
  {
    NeededMore(lo, hi - 1);
    NeededOne(hi - 1);
    hide Needed;
  }

  lemma NothingNeeded(lo: nat)
    requires lo <= MAXFILE
    ensures Needed(lo, lo) == {}
  {
  }

  // ----- filling slots -----

  /** Mapping block n of the file fills its slots and no other. */
  lemma MappedBlock(sb: Super, v: Volume, v': Volume, i: nat, n: nat)
    requires Shape(sb, v) && Shape(sb, v') && i < sb.ninodes && n < MAXFILE && SlotsKept(sb, v, v', i, FileSlot(n))
    ensures Mapped(sb, v, i) <= Mapped(sb, v', i) <= Mapped(sb, v, i) + Needed(n, n + 1)
    ensures Addr(sb, v', i, FileSlot(n)) != 0 ==> Mapped(sb, v', i) == Mapped(sb, v, i) + Needed(n, n + 1)
  {
    NeededOne(n);
    assert Addr(sb, v', i, FileSlot(n)) != 0 && n >= NDIRECT ==> Addr(sb, v', i, NDIRECT) != 0;
    hide Shape, Addr, FileSlot, Needed;
  }

  /** Filling one slot of inode i. */
  lemma MappedGrow(sb: Super, v: Volume, owner: Owners, i: nat, k: nat, b: nat)
    requires Inv(sb, v, owner) && CanGrow(sb, v, i, k, b) && Addr(sb, v, i, k) == 0 && b != 0
    ensures Shape(sb, Grow(sb, v, i, k, b))
    ensures Mapped(sb, Grow(sb, v, i, k, b), i) == Mapped(sb, v, i) + {k} && k !in Mapped(sb, v, i)
    ensures |Mapped(sb, Grow(sb, v, i, k, b), i)| == |Mapped(sb, v, i)| + 1 && |owner[b := (i, k)]| == |owner| + 1
  {
    assert b !in owner by { FreeIs(sb, v, owner, b); }
    assert owner[b := (i, k)].Keys == owner.Keys + {b};
    GrowShape(sb, v, i, k, b);
    var v' := Grow(sb, v, i, k, b);
    hide Owned, InUse, Shape, Grow, Addr;
    forall m: nat | m < SLOTS ensures m in Mapped(sb, v', i) <==> m in Mapped(sb, v, i) + {k} {
      GrowAddr(sb, v, owner, i, k, b, i, m);
    }
  }

  lemma MappedSame(sb: Super, v: Volume, v': Volume, i: nat)
    requires Shape(sb, v) && Shape(sb, v') && i < sb.ninodes
    requires forall k :: 0 <= k < SLOTS ==> Addr(sb, v', i, k) == Addr(sb, v, i, k)
    ensures Mapped(sb, v', i) == Mapped(sb, v, i)
  {
    hide Shape, Addr;
  }

  // ----- free blocks -----

  ghost function FreeBlocks(sb: Super, v: Volume): (r: set<nat>)
    requires Shape(sb, v)
  {
    set b: nat | b < sb.size && !InUse(sb, v, b)
  }

  ghost function Interval(lo: nat, hi: nat): (r: set<nat>)
    ensures forall b :: b in r <==> lo <= b < hi
    ensures lo <= hi ==> |r| == hi - lo
  {
    if lo >= hi then {} else Interval(lo, hi - 1) + {hi - 1}
  }

  /** A block is free exactly if it lies in the data area and nobody owns it. */
  lemma FreeIs(sb: Super, v: Volume, owner: Owners, b: nat)
    requires Inv(sb, v, owner)
    ensures b in FreeBlocks(sb, v) <==> sb.datastart <= b < sb.size && b !in owner
    ensures b in owner ==> sb.datastart <= b < sb.size
  {
    hide InUse, SlotsOwned;
    LayoutOrder(sb);
    if b in owner {
      assert OwnerPoints(sb, v, owner, b);
    }
  }

  lemma FreeCount(sb: Super, v: Volume, owner: Owners)
    requires Inv(sb, v, owner)
    ensures |FreeBlocks(sb, v)| == sb.size - sb.datastart - |owner|
  {
    LayoutOrder(sb);
    hide Inv, FreeBlocks;
    var free, all, owned := FreeBlocks(sb, v), Interval(sb.datastart, sb.size), owner.Keys;
    forall b: nat ensures b in all <==> b in free || b in owned {
      FreeIs(sb, v, owner, b);
    }
    forall b: nat | b in free ensures b !in owned {
      FreeIs(sb, v, owner, b);
    }
    assert all == free + owned;
    assert |all| == |free| + |owned|;
    assert |owned| == |owner|;
  }

  // ----- blocks logged -----

  /** The data blocks lo to hi of file i. */
  ghost function DataOf(sb: Super, v: Volume, i: nat, lo: nat, hi: nat): (r: set<nat>)
    requires Shape(sb, v) && i < sb.ninodes && hi <= MAXFILE
  {
    set n: nat | lo <= n < hi :: Addr(sb, v, i, FileSlot(n))
  }

  /** The map blocks of the blocks in some slots of inode i. */
  ghost function MapsOf(sb: Super, v: Volume, i: nat, slots: set<nat>): (r: set<nat>)
    requires Shape(sb, v) && i < sb.ninodes
  {
    set k: nat | k < SLOTS && k in slots :: MapBlock(sb.bmapstart, Addr(sb, v, i, k))
  }

  ghost predicate Beyond(slots: set<nat>) {
    exists k: nat :: NDIRECT < k < SLOTS && k in slots
  }

  /** The blocks that writing blocks lo to hi of file i logs, where v and v' are the volume before and
      after: the data blocks, a map block for each slot that was filled, and the indirect block if a slot
      under it was. */
  ghost function LoggedBy(sb: Super, v: Volume, v': Volume, i: nat, lo: nat, hi: nat): (r: set<nat>)
    requires Shape(sb, v) && Shape(sb, v') && i < sb.ninodes && hi <= MAXFILE
  {
    var miss := Missing(sb, v, i, lo, hi);
    DataOf(sb, v', i, lo, hi) + MapsOf(sb, v', i, miss) + if Beyond(miss) then {Addr(sb, v', i, NDIRECT)} else {}
  }

  ghost predicate SameSlots(sb: Super, v: Volume, v': Volume, i: nat, slots: set<nat>)
    requires Shape(sb, v) && Shape(sb, v') && i < sb.ninodes
  {
    forall k: nat :: k < SLOTS && k in slots ==> Addr(sb, v', i, k) == Addr(sb, v, i, k)
  }

  /** Later changes of other slots do not matter. */
  lemma LoggedSame(sb: Super, v: Volume, v1: Volume, v2: Volume, i: nat, lo: nat, hi: nat)
    requires Shape(sb, v) && Shape(sb, v1) && Shape(sb, v2) && i < sb.ninodes && hi <= MAXFILE
    requires SameSlots(sb, v1, v2, i, Needed(lo, hi))
    ensures LoggedBy(sb, v, v2, i, lo, hi) == LoggedBy(sb, v, v1, i, lo, hi)
  {
    NeededSlots(lo, hi);
    hide Shape, Addr, FileSlot, Needed, Mapped, MapBlock;
    if Beyond(Missing(sb, v, i, lo, hi)) {
      var k: nat :| NDIRECT < k < SLOTS && k in Missing(sb, v, i, lo, hi);
      var n :| lo <= n < hi && FileSlot(n) == k;
      SlotBeyond(n);
    }
    assert DataOf(sb, v2, i, lo, hi) == DataOf(sb, v1, i, lo, hi);
    assert MapsOf(sb, v2, i, Missing(sb, v, i, lo, hi)) == MapsOf(sb, v1, i, Missing(sb, v, i, lo, hi));
  }

  lemma SlotBeyond(n: nat)
    requires n < MAXFILE && FileSlot(n) > NDIRECT
    ensures n >= NDIRECT
  {
  }

  /** A write of several blocks logs what the writes of the single blocks log. */
  lemma LoggedMore(sb: Super, v: Volume, v1: Volume, v2: Volume, i: nat, lo: nat, hi: nat)
    requires Shape(sb, v) && Shape(sb, v1) && Shape(sb, v2) && i < sb.ninodes && lo <= hi < MAXFILE
    requires Mapped(sb, v1, i) == Mapped(sb, v, i) + Needed(lo, hi)
    requires SameSlots(sb, v1, v2, i, Needed(lo, hi))
    ensures LoggedBy(sb, v, v2, i, lo, hi + 1) == LoggedBy(sb, v, v1, i, lo, hi) + LoggedBy(sb, v1, v2, i, hi, hi + 1)
  {
    hide Shape, Addr, FileSlot, Needed, Mapped, MapBlock, DataOf, MapsOf;
    LoggedSame(sb, v, v1, v2, i, lo, hi);
    NeededMore(lo, hi);
    var a, b := Missing(sb, v, i, lo, hi), Missing(sb, v1, i, hi, hi + 1);
    assert Missing(sb, v, i, lo, hi + 1) == a + b;
    PartsMore(sb, v2, i, lo, hi, a, b);
  }

  lemma PartsMore(sb: Super, v: Volume, i: nat, lo: nat, hi: nat, a: set<nat>, b: set<nat>)
    requires Shape(sb, v) && i < sb.ninodes && lo <= hi < MAXFILE
    ensures DataOf(sb, v, i, lo, hi + 1) == DataOf(sb, v, i, lo, hi) + DataOf(sb, v, i, hi, hi + 1)
    ensures MapsOf(sb, v, i, a + b) == MapsOf(sb, v, i, a) + MapsOf(sb, v, i, b)
    ensures Beyond(a + b) == (Beyond(a) || Beyond(b))
  {
    hide Shape, Addr, FileSlot, MapBlock;
  }

  // ----- how many -----

  /** A block for each block of the range, and one for an indirect block; none for a block that is there. */
  lemma MissingBound(sb: Super, v: Volume, i: nat, lo: nat, hi: nat)
    requires Shape(sb, v) && i < sb.ninodes && lo <= hi <= MAXFILE
    ensures |Missing(sb, v, i, lo, hi)| <= hi - lo + 1
    ensures lo < hi && Addr(sb, v, i, FileSlot(lo)) != 0 ==> |Missing(sb, v, i, lo, hi)| <= hi - lo
  {
    hide Shape, Addr, FileSlot, Needed;
    NeededSize(lo, hi);
    NeededSlots(lo, hi);
    AtMostPlusOne(Missing(sb, v, i, lo, hi), Needed(lo, hi), NDIRECT);
    if lo < hi && Addr(sb, v, i, FileSlot(lo)) != 0 {
      AllButOne(Missing(sb, v, i, lo, hi), Needed(lo, hi), NDIRECT, FileSlot(lo));
    }
  }

  lemma AtMostPlusOne(a: set<nat>, b: set<nat>, x: nat)
    requires a <= b
    ensures |a| <= |b - {x}| + 1
  {
    Fewer(a, (b - {x}) + {x});
    OneMore(b - {x}, x);
  }

  lemma AllButOne(a: set<nat>, b: set<nat>, x: nat, y: nat)
    requires a <= b && y in b && y !in a && y != x
    ensures |a| <= |b - {x}|
  {
    AtMostPlusOne(a, b - {y}, x);
    assert (b - {y}) - {x} == (b - {x}) - {y};
  }

  lemma {:induction false} DataSize(sb: Super, v: Volume, i: nat, lo: nat, hi: nat)
    requires Shape(sb, v) && i < sb.ninodes && lo <= hi <= MAXFILE
    ensures |DataOf(sb, v, i, lo, hi)| <= hi - lo
  {
    hide Shape, Addr, FileSlot;
    if lo < hi {
      DataSize(sb, v, i, lo, hi - 1);
      assert DataOf(sb, v, i, lo, hi) == DataOf(sb, v, i, lo, hi - 1) + {Addr(sb, v, i, FileSlot(hi - 1))};
      OneMore(DataOf(sb, v, i, lo, hi - 1), Addr(sb, v, i, FileSlot(hi - 1)));
    } else {
      assert DataOf(sb, v, i, lo, hi) == {};
    }
  }

  lemma {:induction false} MapsSize(sb: Super, v: Volume, i: nat, slots: set<nat>)
    requires Shape(sb, v) && i < sb.ninodes
    ensures |MapsOf(sb, v, i, slots)| <= |slots|
  {
    hide Shape, Addr, MapBlock;
    if slots == {} {
      assert MapsOf(sb, v, i, slots) == {};
    } else {
      var x :| x in slots;
      MapsSize(sb, v, i, slots - {x});
      if x < SLOTS {
        var m := MapBlock(sb.bmapstart, Addr(sb, v, i, x));
        assert MapsOf(sb, v, i, slots) == MapsOf(sb, v, i, slots - {x}) + {m};
        OneMore(MapsOf(sb, v, i, slots - {x}), m);
      } else {
        assert MapsOf(sb, v, i, slots) == MapsOf(sb, v, i, slots - {x});
      }
    }
  }

  /** The blocks logged are at most the blocks of the range, a map block for each one that was missing, and
      the indirect block. */
  lemma LoggedBound(sb: Super, v: Volume, v': Volume, i: nat, lo: nat, hi: nat)
    requires Shape(sb, v) && Shape(sb, v') && i < sb.ninodes && lo <= hi <= MAXFILE
    ensures |LoggedBy(sb, v, v', i, lo, hi)| <= hi - lo + |Missing(sb, v, i, lo, hi)| + 1
  {
    hide Shape, Addr, Missing, DataOf, MapsOf;
    var miss := Missing(sb, v, i, lo, hi);
    DataSize(sb, v', i, lo, hi);
    MapsSize(sb, v', i, miss);
    Sizes(DataOf(sb, v', i, lo, hi), MapsOf(sb, v', i, miss), if Beyond(miss) then {Addr(sb, v', i, NDIRECT)} else {});
  }

  lemma Sizes(a: set<nat>, b: set<nat>, c: set<nat>)
    ensures |a + b + c| <= |a| + |b| + |c|
  {
    assert a + b + c == a + (b - a) + (c - a - b);
    Fewer(b - a, b);
    Fewer(c - a - b, c);
  }
}
