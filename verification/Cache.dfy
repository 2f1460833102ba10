/** The buffer cache (bio.c) over the in-memory disk (memide.c): a doubly linked
    LRU ring of NBUF buffers, reference counts, sleep locks and dirty pins. */
module Cache {
  import opened Blocks

  const NBUF := 30
  const HEAD := NBUF
  const ROOTDEV := 1

  /** One `struct buf`; `holder` is the process that holds the sleep lock. */
  datatype Buf = Buf(dev: nat, blockno: nat, valid: bool, dirty: bool,
                     refcnt: nat, holder: Option<nat>, data: Block)

  predicate Is(b: Buf, dev: nat, blockno: nat) {
    b.dev == dev && b.blockno == blockno
  }

  predicate Free(b: Buf) {
    b.refcnt == 0 && !b.dirty
  }

  // ----- the prev/next ring -----

  /** The i-th node of the ring: the list head, then the buffers, then the head again. */
  function Node(order: seq<nat>, i: nat): (r: nat)
    requires i <= |order| + 1
  {
    if 1 <= i <= |order| then order[i - 1] else HEAD
  }

  /** `next` and `prev` link head and the buffers of `order` in one circle. */
  ghost predicate Ring(order: seq<nat>, next: seq<nat>, prev: seq<nat>) {
    && |next| == NBUF + 1 && |prev| == NBUF + 1
    && Distinct(order)
    && (forall i :: 0 <= i < |order| ==> order[i] < NBUF)
    && (forall i :: 0 <= i <= |order| ==>
          next[Node(order, i)] == Node(order, i + 1) && prev[Node(order, i + 1)] == Node(order, i))
  }

  function Without(order: seq<nat>, i: nat): (r: seq<nat>)
    requires i < |order|
  {
    order[..i] + order[i + 1..]
  }

  lemma RingUnlink(order: seq<nat>, next: seq<nat>, prev: seq<nat>, i: nat)
    requires Ring(order, next, prev) && i < |order|
    ensures var b := order[i];
            next[b] < |prev| && prev[b] < |next| &&
            Ring(Without(order, i), next[prev[b] := next[b]], prev[next[b] := prev[b]])
  {
    var b := order[i];
    assert Node(order, i + 1) == b;
    assert next[Node(order, i + 1)] == Node(order, i + 2);
    assert prev[Node(order, i + 1)] == Node(order, i);
    var order' := Without(order, i);
    var next' := next[prev[b] := next[b]];
    var prev' := prev[next[b] := prev[b]];
    forall k | 0 <= k <= |order'|
      ensures next'[Node(order', k)] == Node(order', k + 1) && prev'[Node(order', k + 1)] == Node(order', k)
    {
      var old0 := if k <= i then k else k + 1;
      assert Node(order', k) == Node(order, old0);
      assert Node(order', k + 1) == Node(order, if k < i then k + 1 else k + 2);
    }
  }

  lemma RingPushFront(order: seq<nat>, next: seq<nat>, prev: seq<nat>, b: nat)
    requires Ring(order, next, prev) && b < NBUF && b !in order
    ensures next[HEAD] < |prev| &&
            Ring([b] + order, next[b := next[HEAD]][HEAD := b], prev[b := HEAD][next[HEAD] := b])
  {
    assert next[Node(order, 0)] == Node(order, 1);
    var order' := [b] + order;
    var next' := next[b := next[HEAD]][HEAD := b];
    var prev' := prev[b := HEAD][next[HEAD] := b];
    forall k | 0 <= k <= |order'|
      ensures next'[Node(order', k)] == Node(order', k + 1) && prev'[Node(order', k + 1)] == Node(order', k)
    {
      if k >= 1 {
        assert Node(order', k + 1) == Node(order, k);
        assert next[Node(order, k - 1)] == Node(order, k) && prev[Node(order, k)] == Node(order, k - 1);
        if k >= 2 { assert Node(order', k) == Node(order, k - 1); }
      }
    }
  }

  // ----- invariants over the buffers -----

  ghost predicate AllBuffers(order: seq<nat>) {
    |order| == NBUF && forall b :: 0 <= b < NBUF ==> b in order
  }

  /** The ring runs from the most to the least recently released buffer. */
  ghost predicate ByRecency(order: seq<nat>, stamp: seq<nat>, clock: nat) {
    && |stamp| == NBUF
    && (forall i :: 0 <= i < NBUF ==> stamp[i] < clock)
    && (forall i :: 0 <= i < |order| ==> order[i] < NBUF)
    && (forall i, j :: 0 <= i < j < |order| ==> stamp[order[i]] > stamp[order[j]])
  }

  /** No block is held by two buffers; (0, 0) is what unused buffers carry. */
  ghost predicate Unique(bufs: seq<Buf>) {
    forall i, j :: 0 <= i < j < |bufs| && Is(bufs[i], bufs[j].dev, bufs[j].blockno) ==>
      bufs[i].dev == 0 && bufs[i].blockno == 0
  }

  /** Each reference is owed to a process, and the lock holder has one. */
  ghost predicate Counted(bufs: seq<Buf>, refs: seq<set<nat>>) {
    && |refs| == |bufs|
    && (forall i :: 0 <= i < |bufs| ==> bufs[i].refcnt == |refs[i]|)
    && (forall i :: 0 <= i < |bufs| && bufs[i].holder.Some? ==> bufs[i].holder.value in refs[i])
  }

  ghost predicate Holds(b: Buf, blockno: nat) {
    b.valid && b.blockno == blockno
  }

  /** Valid buffers show `logical`; what differs from the disk is pinned or locked. */
  ghost predicate Coherent(bufs: seq<Buf>, modified: set<nat>, logical: seq<Block>, disk: seq<Block>) {
    && |logical| == |disk|
    && (forall i :: 0 <= i < |bufs| && bufs[i].dirty ==> bufs[i].valid)
    && (forall i :: i in modified ==> i < |bufs| && bufs[i].valid && bufs[i].holder.Some?)
    && (forall i :: 0 <= i < |bufs| && bufs[i].valid ==>
          bufs[i].dev == ROOTDEV && bufs[i].blockno < |disk| && bufs[i].data == logical[bufs[i].blockno])
    && (forall i :: 0 <= i < |bufs| && bufs[i].valid && !bufs[i].dirty && i !in modified ==>
          bufs[i].data == disk[bufs[i].blockno])
    && (forall n :: 0 <= n < |disk| && logical[n] != disk[n] ==>
          exists i :: 0 <= i < |bufs| && Holds(bufs[i], n))
  }

  /** Changing who refers to or locks a buffer keeps contents and identities. */
  lemma KeepsContents(was: seq<Buf>, b: nat, now: Buf, modified: set<nat>, logical: seq<Block>, disk: seq<Block>)
    requires b < |was| && Is(now, was[b].dev, was[b].blockno)
    requires now.valid == was[b].valid && now.dirty == was[b].dirty && now.data == was[b].data
    requires b in modified ==> now.holder.Some?
    requires Unique(was) && Coherent(was, modified, logical, disk)
    ensures Unique(was[b := now]) && Coherent(was[b := now], modified, logical, disk)
  {
    var bufs := was[b := now];
    forall n | 0 <= n < |disk| && logical[n] != disk[n]
      ensures exists i :: 0 <= i < |bufs| && Holds(bufs[i], n)
    {
      var i :| 0 <= i < |was| && Holds(was[i], n);
      assert Holds(bufs[i], n);
    }
  }

  /** Handing a clean, unreferenced buffer to another block loses nothing. */
  lemma Recycle(was: seq<Buf>, b: nat, now: Buf, refs: seq<set<nat>>, pid: nat,
                modified: set<nat>, logical: seq<Block>, disk: seq<Block>)
    requires b < |was| && Free(was[b]) && !now.valid && !now.dirty && now.refcnt == 1 && now.holder.None?
    requires Unique(was) && Counted(was, refs) && Coherent(was, modified, logical, disk)
    requires forall c :: 0 <= c < |was| ==> !Is(was[c], now.dev, now.blockno)
    ensures Unique(was[b := now]) && Coherent(was[b := now], modified, logical, disk)
    ensures refs[b] == {} && Counted(was[b := now], refs[b := {pid}])
  {
    assert refs[b] == {} && was[b].holder.None?;
    var bufs := was[b := now];
    forall n | 0 <= n < |disk| && logical[n] != disk[n]
      ensures exists i :: 0 <= i < |bufs| && Holds(bufs[i], n)
    {
      var i :| 0 <= i < |was| && Holds(was[i], n);
      assert i != b;
      assert Holds(bufs[i], n);
    }
  }

  /** A buffer that is about to be read: no other buffer shows its block. */
  lemma FirstReader(was: seq<Buf>, b: nat, modified: set<nat>, logical: seq<Block>, disk: seq<Block>)
    requires b < |was| && !was[b].valid && was[b].dev == ROOTDEV && was[b].blockno < |disk|
    requires Unique(was) && Coherent(was, modified, logical, disk)
    ensures logical[was[b].blockno] == disk[was[b].blockno]
    ensures var bufs := was[b := was[b].(valid := true, data := disk[was[b].blockno])];
            Unique(bufs) && Coherent(bufs, modified, logical, disk)
  {
    var n := was[b].blockno;
    assert forall i :: 0 <= i < |was| ==> !Holds(was[i], n);
    assert logical[n] == disk[n];
    var bufs := was[b := was[b].(valid := true, data := disk[n])];
    forall m | 0 <= m < |disk| && logical[m] != disk[m]
      ensures exists i :: 0 <= i < |bufs| && Holds(bufs[i], m)
    {
      var i :| 0 <= i < |was| && Holds(was[i], m);
      assert Holds(bufs[i], m);
    }
  }

  lemma Overwrite(was: seq<Buf>, b: nat, data: Block, modified: set<nat>, logical: seq<Block>, disk: seq<Block>)
    requires b < |was| && was[b].valid && was[b].holder.Some?
    requires Unique(was) && Coherent(was, modified, logical, disk)
    ensures var bufs := was[b := was[b].(data := data)];
            Unique(bufs) && Coherent(bufs, modified + {b}, logical[was[b].blockno := data], disk)
  {
    var bufs := was[b := was[b].(data := data)];
    var now := logical[was[b].blockno := data];
    forall m | 0 <= m < |disk| && now[m] != disk[m]
      ensures exists i :: 0 <= i < |bufs| && Holds(bufs[i], m)
    {
      if m == was[b].blockno {
        assert Holds(bufs[b], m);
      } else {
        var i :| 0 <= i < |was| && Holds(was[i], m);
        assert Holds(bufs[i], m);
      }
    }
  }

  lemma WriteThrough(was: seq<Buf>, b: nat, modified: set<nat>, logical: seq<Block>, disk: seq<Block>)
    requires b < |was| && was[b].valid
    requires Unique(was) && Coherent(was, modified, logical, disk)
    ensures var bufs := was[b := was[b].(dirty := false)];
            Unique(bufs) && Coherent(bufs, modified - {b}, logical, disk[was[b].blockno := was[b].data])
  {
    var bufs := was[b := was[b].(dirty := false)];
    var now := disk[was[b].blockno := was[b].data];
    forall m | 0 <= m < |disk| && logical[m] != now[m]
      ensures exists i :: 0 <= i < |bufs| && Holds(bufs[i], m)
    {
      var i :| 0 <= i < |was| && Holds(was[i], m);
      assert Holds(bufs[i], m);
    }
  }

  lemma FlagKeepsCount(was: seq<Buf>, b: nat, dirty: bool, refs: seq<set<nat>>)
    requires b < |was| && Counted(was, refs)
    ensures Counted(was[b := was[b].(dirty := dirty)], refs)
  {
  }

  lemma PinKeeps(was: seq<Buf>, b: nat, modified: set<nat>, logical: seq<Block>, disk: seq<Block>)
    requires b < |was| && was[b].valid
    requires Unique(was) && Coherent(was, modified, logical, disk)
    ensures var bufs := was[b := was[b].(dirty := true)];
            Unique(bufs) && Coherent(bufs, modified - {b}, logical, disk)
  {
    var bufs := was[b := was[b].(dirty := true)];
    forall m | 0 <= m < |disk| && logical[m] != disk[m]
      ensures exists i :: 0 <= i < |bufs| && Holds(bufs[i], m)
    {
      var i :| 0 <= i < |was| && Holds(was[i], m);
      assert Holds(bufs[i], m);
    }
  }

  /** The blocks that B_DIRTY keeps in the cache. */
  ghost function Pins(bufs: seq<Buf>): (r: set<nat>) {
    set i | 0 <= i < |bufs| && bufs[i].dirty :: bufs[i].blockno
  }

  lemma PinsSame(was: seq<Buf>, now: seq<Buf>)
    requires |was| == |now|
    requires forall i :: 0 <= i < |was| ==>
               was[i].dirty == now[i].dirty && (was[i].dirty ==> was[i].blockno == now[i].blockno)
    ensures Pins(was) == Pins(now)
  {
    forall n | n in Pins(was) ensures n in Pins(now) {
      var i :| 0 <= i < |was| && was[i].dirty && was[i].blockno == n;
      assert now[i].dirty && now[i].blockno == n;
    }
    forall n | n in Pins(now) ensures n in Pins(was) {
      var i :| 0 <= i < |now| && now[i].dirty && now[i].blockno == n;
      assert was[i].dirty && was[i].blockno == n;
    }
  }

  /** Clearing or setting B_DIRTY on one buffer unpins or pins its block only. */
  lemma PinsUpdate(was: seq<Buf>, b: nat, dirty: bool)
    requires b < |was| && was[b].dev == ROOTDEV && Unique(was)
    requires forall i :: 0 <= i < |was| && was[i].dirty ==> was[i].dev == ROOTDEV
    ensures var now := was[b := was[b].(dirty := dirty)];
            Pins(now) == if dirty then Pins(was) + {was[b].blockno} else Pins(was) - {was[b].blockno}
  {
    var now := was[b := was[b].(dirty := dirty)];
    var n := was[b].blockno;
    forall m | m in Pins(now) ensures m in (if dirty then Pins(was) + {n} else Pins(was) - {n}) {
      var i :| 0 <= i < |now| && now[i].dirty && now[i].blockno == m;
      if i != b { assert was[i].dirty && was[i].blockno == m; }
    }
    forall m | m in Pins(was) && m != n ensures m in Pins(now) {
      var i :| 0 <= i < |was| && was[i].dirty && was[i].blockno == m;
      assert now[i].dirty && now[i].blockno == m;
    }
    if dirty { assert now[b].dirty && now[b].blockno == n; }
  }

  lemma {:induction false} PinsAtMost(bufs: seq<Buf>)
    ensures |Pins(bufs)| <= |bufs|
    ensures (exists b :: 0 <= b < |bufs| && !bufs[b].dirty) ==> |Pins(bufs)| < |bufs|
  {
    if bufs != [] {
      var n := |bufs| - 1;
      PinsAtMost(bufs[..n]);
      PinsLast(bufs);
      if exists b :: 0 <= b < |bufs| && !bufs[b].dirty {
        var b :| 0 <= b < |bufs| && !bufs[b].dirty;
        if b < n { assert !bufs[..n][b].dirty; }
      }
    }
  }

  lemma PinsLast(bufs: seq<Buf>)
    requires bufs != []
    ensures var n := |bufs| - 1;
            Pins(bufs) == if bufs[n].dirty then Pins(bufs[..n]) + {bufs[n].blockno} else Pins(bufs[..n])
  {
    var n := |bufs| - 1;
    forall m | m in Pins(bufs[..n]) ensures m in Pins(bufs) {
      var i :| 0 <= i < n && bufs[..n][i].dirty && bufs[..n][i].blockno == m;
      assert bufs[i].dirty && bufs[i].blockno == m;
    }
    forall m | m in Pins(bufs) ensures m in Pins(bufs[..n]) || (bufs[n].dirty && m == bufs[n].blockno) {
      var i :| 0 <= i < |bufs| && bufs[i].dirty && bufs[i].blockno == m;
      if i < n { assert bufs[..n][i].dirty && bufs[..n][i].blockno == m; }
    }
  }

  /** Pins after a block has been written through buffer b. */
  lemma PinsWritten(was: seq<Buf>, now: seq<Buf>, b: nat)
    requires |was| == |now| && b < |was| && was[b].dev == ROOTDEV && Unique(was)
    requires forall i :: 0 <= i < |was| && was[i].dirty ==> was[i].dev == ROOTDEV
    requires !now[b].dirty
    requires forall i :: 0 <= i < |was| && i != b ==> now[i].dirty == was[i].dirty && now[i].blockno == was[i].blockno
    ensures Pins(now) == Pins(was) - {was[b].blockno}
    ensures was[b].blockno !in Pins(was) ==> |Pins(was)| < |was|
  {
    PinsUpdate(was, b, false);
    PinsSame(was[b := was[b].(dirty := false)], now);
    if was[b].blockno !in Pins(was) {
      assert !was[b].dirty;
      PinsAtMost(was);
    }
  }

  /** What bread hands out: buffer b, locked by pid, showing the block's contents;
      every other buffer is as it was, and b was the block's or free. */
  ghost predicate Lent(was: seq<Buf>, bufs: seq<Buf>, b: nat, pid: nat, dev: nat, blockno: nat, logical: seq<Block>) {
    && |was| == |bufs| && b < |was| && blockno < |logical|
    && bufs == was[b := bufs[b]]
    && bufs[b].holder == Some(pid)
    && bufs[b].valid && Is(bufs[b], dev, blockno) && bufs[b].data == logical[blockno]
    && bufs[b].dirty == was[b].dirty
    && (Is(was[b], dev, blockno) || Free(was[b]))
    && bufs[b].refcnt == (if Is(was[b], dev, blockno) then was[b].refcnt else 0) + 1
  }

  /** The blocks of the buffers that bget must not recycle. */
  ghost function BusyBlocks(bufs: seq<Buf>): (r: set<nat>) {
    set i | 0 <= i < |bufs| && !Free(bufs[i]) :: bufs[i].blockno
  }

  lemma BusyAtMost(bufs: seq<Buf>)
    ensures |BusyBlocks(bufs)| <= |bufs|
    ensures (exists b :: 0 <= b < |bufs| && Free(bufs[b])) ==> |BusyBlocks(bufs)| < |bufs|
  {
    var marked := seq(|bufs|, i requires 0 <= i < |bufs| => bufs[i].(dirty := !Free(bufs[i])));
    PinsAtMost(marked);
    assert Pins(marked) == BusyBlocks(bufs) by {
      assert forall i :: 0 <= i < |bufs| ==>
        (marked[i].dirty <==> !Free(bufs[i])) && marked[i].blockno == bufs[i].blockno;
    }
    if b :| 0 <= b < |bufs| && Free(bufs[b]) {
      assert !marked[b].dirty;
    }
  }

  /** bget finds a buffer for each block in turn: the block has a busy buffer, or some
      buffer is not busy. */
  predicate CanRead(busy: set<nat>, blocks: seq<nat>)
    decreases |blocks|
  {
    blocks == [] || ((blocks[0] in busy || |busy| < NBUF) && CanRead(busy + {blocks[0]}, blocks[1..]))
  }

  lemma CanReadOne(busy: set<nat>, b: nat)
    ensures CanRead(busy, [b]) <==> b in busy || |busy| < NBUF
    ensures CanRead(busy, [])
  {
    assert [b][1..] == [];
  }

  lemma CanReadTwo(busy: set<nat>, a: nat, b: nat)
    ensures CanRead(busy, [a, b]) <==> CanRead(busy, [a]) && CanRead(busy + {a}, [b])
  {
    CanReadOne(busy, a);
    assert [a, b][1..] == [b];
  }

  /** Reading a block without a busy buffer, then one with, takes one free buffer. */
  lemma OneBufferIsEnough(busy: set<nat>, slot: nat, home: nat)
    requires slot !in busy && home in busy
    ensures CanRead(busy, [slot, home]) <==> |busy| < NBUF
    ensures CanRead(busy, [slot]) <==> |busy| < NBUF
  {
    CanReadTwo(busy, slot, home);
    CanReadOne(busy, slot);
    CanReadOne(busy + {slot}, home);
  }

  /** A buffer lent for a block is busy, and no other buffer's state changes. */
  lemma LentBusy(was: seq<Buf>, bufs: seq<Buf>, b: nat, pid: nat, blockno: nat, logical: seq<Block>)
    requires Lent(was, bufs, b, pid, ROOTDEV, blockno, logical)
    ensures BusyBlocks(bufs) == BusyBlocks(was) + {blockno}
  {
    forall n | n in BusyBlocks(was) ensures n in BusyBlocks(bufs) {
      var i :| 0 <= i < |was| && !Free(was[i]) && was[i].blockno == n;
      assert !Free(bufs[i]) && bufs[i].blockno == n;
    }
    forall n | n in BusyBlocks(bufs) && n != blockno ensures n in BusyBlocks(was) {
      var i :| 0 <= i < |bufs| && !Free(bufs[i]) && bufs[i].blockno == n;
      assert !Free(was[i]) && was[i].blockno == n;
    }
    assert !Free(bufs[b]) && bufs[b].blockno == blockno;
  }

  /** Whatever is busy or locked now was so before, for the same block. */
  ghost predicate NoMore(was: seq<Buf>, now: seq<Buf>) {
    && |was| == |now|
    && (forall i :: 0 <= i < |now| && !Free(now[i]) ==> !Free(was[i]) && Is(now[i], was[i].dev, was[i].blockno))
    && (forall i :: 0 <= i < |now| && now[i].holder.Some? ==> was[i].holder.Some? && now[i].blockno == was[i].blockno)
  }

  lemma NoMoreBusy(was: seq<Buf>, now: seq<Buf>)
    requires NoMore(was, now)
    ensures BusyBlocks(now) <= BusyBlocks(was) && |BusyBlocks(now)| <= |BusyBlocks(was)|
  {
    forall n | n in BusyBlocks(now) ensures n in BusyBlocks(was) {
      var i :| 0 <= i < |now| && !Free(now[i]) && now[i].blockno == n;
      assert !Free(was[i]) && was[i].blockno == n;
    }
    Fewer(BusyBlocks(now), BusyBlocks(was));
  }

  lemma PinsAreBusy(bufs: seq<Buf>)
    ensures Pins(bufs) <= BusyBlocks(bufs)
  {
    forall n | n in Pins(bufs) ensures n in BusyBlocks(bufs) {
      var i :| 0 <= i < |bufs| && bufs[i].dirty && bufs[i].blockno == n;
      assert !Free(bufs[i]);
    }
  }

  /** Once a buffer that was lent is released, written through or not, nothing more is busy. */
  lemma ReleasedOne(was: seq<Buf>, lent: seq<Buf>, now: seq<Buf>, b: nat, pid: nat, blockno: nat, logical: seq<Block>)
    requires Lent(was, lent, b, pid, ROOTDEV, blockno, logical) && |now| == |lent| && now == lent[b := now[b]]
    requires now[b].refcnt == lent[b].refcnt - 1 && now[b].holder.None? && Is(now[b], ROOTDEV, blockno)
    requires now[b].dirty ==> lent[b].dirty
    ensures NoMore(was, now)
  {
  }

  lemma ReleasedTwo(was: seq<Buf>, mid: seq<Buf>, lent: seq<Buf>, now: seq<Buf>, a: nat, b: nat, pid: nat,
                    first: nat, second: nat, logical: seq<Block>)
    requires Lent(was, mid, a, pid, ROOTDEV, first, logical) && Lent(mid, lent, b, pid, ROOTDEV, second, logical)
    requires a != b && |now| == |lent| && now == lent[a := now[a]][b := now[b]]
    requires now[a].refcnt == lent[a].refcnt - 1 && now[a].holder.None? && Is(now[a], ROOTDEV, first)
    requires now[b].refcnt == lent[b].refcnt - 1 && now[b].holder.None? && Is(now[b], ROOTDEV, second)
    requires (now[a].dirty ==> lent[a].dirty) && (now[b].dirty ==> lent[b].dirty)
    ensures NoMore(was, now)
  {
  }

  /** bget finds no buffer for a block exactly if the busy buffers hold NBUF blocks and not this one. */
  lemma NoBuffer(bufs: seq<Buf>, blockno: nat)
    requires |bufs| == NBUF && Unique(bufs)
    requires forall i :: 0 <= i < NBUF && !Free(bufs[i]) ==> bufs[i].dev == ROOTDEV
    ensures (forall i :: 0 <= i < NBUF ==> !Free(bufs[i]) && !Is(bufs[i], ROOTDEV, blockno))
       <==> |BusyBlocks(bufs)| >= NBUF && blockno !in BusyBlocks(bufs)
  {
    BusyAtMost(bufs);
    if forall i :: 0 <= i < NBUF ==> !Free(bufs[i]) {
      var all := seq(NBUF, i requires 0 <= i < NBUF => bufs[i].blockno);
      forall i | 0 <= i < NBUF ensures all[i] in BusyBlocks(bufs) {
        assert !Free(bufs[i]);
      }
      forall i, j | 0 <= i < j < NBUF ensures all[i] != all[j] {
        assert !Free(bufs[i]) && !Free(bufs[j]);
      }
      Pigeonhole(all, BusyBlocks(bufs));
    }
  }

  lemma LentPins(was: seq<Buf>, bufs: seq<Buf>, b: nat, pid: nat, dev: nat, blockno: nat, logical: seq<Block>)
    requires Lent(was, bufs, b, pid, dev, blockno, logical)
    ensures Pins(bufs) == Pins(was)
  {
    PinsSame(was, bufs);
  }

  lemma PlaceOf(order: seq<nat>, next: seq<nat>, prev: seq<nat>, stamp: seq<nat>, clock: nat, b: nat) returns (i: nat)
    requires AllBuffers(order) && Ring(order, next, prev) && ByRecency(order, stamp, clock) && b < NBUF
    ensures i < |order| && order[i] == b && Distinct(order) && b !in Without(order, i) && |stamp| == NBUF
  {
    assert b in order;
    i :| 0 <= i < |order| && order[i] == b;
    hide Ring, ByRecency, AllBuffers;
    forall j | 0 <= j < |order| - 1 ensures Without(order, i)[j] != b {
      assert Without(order, i)[j] == order[if j < i then j else j + 1];
    }
  }

  /** Releasing a buffer to the front keeps the ring ordered by recency. */
  lemma Renewed(order: seq<nat>, i: nat, stamp: seq<nat>, clock: nat)
    requires Distinct(order) && AllBuffers(order) && ByRecency(order, stamp, clock) && i < |order|
    ensures var now := [order[i]] + Without(order, i);
            AllBuffers(now) && ByRecency(now, stamp[order[i] := clock], clock + 1)
  {
    var b := order[i];
    var now := [b] + Without(order, i);
    forall c | 0 <= c < NBUF ensures c in now {
      assert c in order;
      var k :| 0 <= k < |order| && order[k] == c;
      if k < i { assert now[k + 1] == c; }
      else if k > i { assert now[k] == c; }
      else { assert now[0] == c; }
    }
  }

  /** binit's list construction: every buffer in turn goes to the front. */
  method LinkAll() returns (next: seq<nat>, prev: seq<nat>, ghost order: seq<nat>)
    ensures Ring(order, next, prev) && |order| == NBUF
    ensures forall i :: 0 <= i < NBUF ==> order[i] == NBUF - 1 - i
  {
    next := seq(NBUF + 1, _ => HEAD);
    prev := seq(NBUF + 1, _ => HEAD);
    order := [];
    for b := 0 to NBUF
      invariant Ring(order, next, prev)
      invariant |order| == b
      invariant forall i :: 0 <= i < b ==> order[i] == b - 1 - i
    {
      RingPushFront(order, next, prev, b);
      var first := next[HEAD];
      next := next[b := first];
      prev := prev[b := HEAD];
      prev := prev[first := b];
      next := next[HEAD := b];
      order := [b] + order;
    }
  }

  lemma CountdownHasAll(order: seq<nat>)
    requires |order| == NBUF && forall i :: 0 <= i < NBUF ==> order[i] == NBUF - 1 - i
    ensures AllBuffers(order)
  {
    forall b | 0 <= b < NBUF ensures b in order {
      assert order[NBUF - 1 - b] == b;
    }
  }

  class BufferCache {
    var bufs: seq<Buf>
    var next: seq<nat>
    var prev: seq<nat>
    var disk: seq<Block>

    ghost var order: seq<nat>      // the ring, most recently released first
    ghost var stamp: seq<nat>      // when each buffer last became unreferenced
    ghost var clock: nat
    ghost var refs: seq<set<nat>>  // the processes behind each reference count
    ghost var modified: set<nat>   // buffers changed and neither written nor pinned yet
    ghost var logical: seq<Block>  // the block array that clients see
    ghost var writes: seq<Write>   // every block write the disk has seen

    /** The LRU ring: every buffer once, by time of last release. */
    ghost predicate Linked()
      reads this`order, this`next, this`prev, this`stamp, this`clock
    {
      && Ring(order, next, prev)
      && AllBuffers(order)
      && ByRecency(order, stamp, clock)
    }

    /** The buffers' identities, references and contents. */
    ghost predicate Sound()
      reads this`bufs, this`refs, this`modified, this`logical, this`disk
    {
      && |bufs| == NBUF
      && Unique(bufs)
      && Counted(bufs, refs)
      && Coherent(bufs, modified, logical, disk)
    }

    ghost predicate Valid()
      reads this
      ensures Valid() ==> |bufs| == NBUF && |refs| == NBUF && |logical| == |disk|
      ensures Valid() ==> forall i :: 0 <= i < NBUF && bufs[i].valid ==>
        bufs[i].dev == ROOTDEV && bufs[i].blockno < |disk| == |logical| && bufs[i].data == logical[bufs[i].blockno]
    {
      Linked() && Sound()
    }

    ghost predicate Cached(dev: nat, blockno: nat)
      reads this
    {
      exists i :: 0 <= i < |bufs| && Is(bufs[i], dev, blockno)
    }

    ghost predicate AllBusy()
      reads this
    {
      forall i :: 0 <= i < |bufs| ==> !Free(bufs[i])
    }

    ghost predicate InRange(dev: nat, blockno: nat)
      reads this
    {
      dev == ROOTDEV && blockno < |disk|
    }

    lemma PinnedOnRoot()
      requires Valid()
      ensures Unique(bufs)
      ensures forall i :: 0 <= i < NBUF && bufs[i].holder.Some? ==> !Free(bufs[i])
      ensures forall i :: 0 <= i < NBUF && bufs[i].dirty ==> bufs[i].dev == ROOTDEV
    {
    }

    /** binit over a zeroed buffer array. */
    constructor (image: seq<Block>)
      ensures Valid()
      ensures disk == image && logical == image && writes == [] && modified == {}
      ensures forall i :: 0 <= i < NBUF ==>
        bufs[i] == Buf(0, 0, false, false, 0, None, ZeroBlock()) && refs[i] == {}
    {
      bufs := seq(NBUF, _ => Buf(0, 0, false, false, 0, None, ZeroBlock()));
      refs := seq(NBUF, _ => {});
      disk, logical, writes, modified := image, image, [], {};
      stamp := seq(NBUF, (i: nat) => i);
      clock := NBUF;
      var nx, pv;
      ghost var ord;
      nx, pv, ord := LinkAll();
      CountdownHasAll(ord);
      next, prev, order := nx, pv, ord;
    }

    /** The forward scan of bget: the buffer that holds the block, or HEAD. */
    method Find(dev: nat, blockno: nat) returns (b: nat)
      requires Valid()
      ensures b <= NBUF
      ensures b < NBUF ==> Is(bufs[b], dev, blockno)
      ensures b == HEAD ==> forall c :: 0 <= c < NBUF ==> !Is(bufs[c], dev, blockno)
    {
      ghost var i: nat := 1;
      assert next[Node(order, 0)] == Node(order, 1);
      b := next[HEAD];
      while b != HEAD
        invariant 1 <= i <= NBUF + 1 && b == Node(order, i)
        invariant forall j :: 0 <= j < i - 1 ==> !Is(bufs[order[j]], dev, blockno)
        decreases NBUF + 1 - i
      {
        if bufs[b].dev == dev && bufs[b].blockno == blockno {
          return;
        }
        assert next[Node(order, i)] == Node(order, i + 1);
        b := next[b];
        i := i + 1;
      }
      forall c | 0 <= c < NBUF ensures !Is(bufs[c], dev, blockno) {
        assert c in order;
      }
    }

    /** The backward scan of bget: the least recently released buffer that is
        unreferenced and clean, or HEAD when there is none. */
    method FindVictim() returns (b: nat)
      requires Valid()
      ensures b <= NBUF
      ensures b < NBUF ==> Free(bufs[b]) && forall c :: 0 <= c < NBUF && Free(bufs[c]) ==> stamp[b] <= stamp[c]
      ensures b == HEAD ==> AllBusy()
    {
      ghost var i: nat := NBUF;
      assert prev[Node(order, NBUF + 1)] == Node(order, NBUF);
      b := prev[HEAD];
      while b != HEAD
        invariant 0 <= i <= NBUF && b == Node(order, i)
        invariant forall j :: i <= j < NBUF ==> !Free(bufs[order[j]])
        decreases i
      {
        if bufs[b].refcnt == 0 && !bufs[b].dirty {
          forall c | 0 <= c < NBUF && Free(bufs[c]) ensures stamp[b] <= stamp[c] {
            assert c in order;
          }
          return;
        }
        assert prev[Node(order, i)] == Node(order, i - 1);
        b := prev[b];
        i := i - 1;
      }
      forall c | 0 <= c < NBUF ensures !Free(bufs[c]) {
        assert c in order;
      }
    }

    /** Find or recycle a buffer and take a reference; None is the panic. */
    method Bget(pid: nat, dev: nat, blockno: nat) returns (r: Option<nat>)
      requires Valid()
      requires forall i :: 0 <= i < NBUF && Is(bufs[i], dev, blockno) ==> pid !in refs[i]
      modifies this`bufs, this`refs
      ensures Valid()
      ensures r.None? <==> old(!Cached(dev, blockno) && AllBusy())
      ensures r.None? ==> bufs == old(bufs) && refs == old(refs)
      ensures r.Some? ==>
        var b := r.value;
        b < NBUF && refs == old(refs)[b := old(refs)[b] + {pid}] && pid !in old(refs)[b]
      ensures r.Some? && old(Cached(dev, blockno)) ==>
        var b := r.value;
        Is(old(bufs)[b], dev, blockno)
        && bufs == old(bufs)[b := old(bufs)[b].(refcnt := old(bufs)[b].refcnt + 1)]
      ensures r.Some? && !old(Cached(dev, blockno)) ==>
        var b := r.value;
        Free(old(bufs)[b])
        && bufs == old(bufs)[b := Buf(dev, blockno, false, false, 1, None, old(bufs)[b].data)]
        && forall c :: 0 <= c < NBUF && Free(old(bufs)[c]) ==> stamp[b] <= stamp[c]
    {
      var b := Find(dev, blockno);
      if b != HEAD {
        assert Cached(dev, blockno);
        TakeRef(pid, b);
        return Some(b);
      }
      assert !Cached(dev, blockno);
      b := FindVictim();
      if b == HEAD {
        return None;
      }
      Reassign(pid, b, dev, blockno);
      r := Some(b);
    }

    method TakeRef(pid: nat, b: nat)
      requires Valid() && b < NBUF && pid !in refs[b]
      modifies this`bufs, this`refs
      ensures Valid()
      ensures bufs == old(bufs)[b := old(bufs)[b].(refcnt := old(bufs)[b].refcnt + 1)]
      ensures refs == old(refs)[b := old(refs)[b] + {pid}]
    {
      var now := bufs[b].(refcnt := bufs[b].refcnt + 1);
      KeepsContents(bufs, b, now, modified, logical, disk);
      bufs := bufs[b := now];
      refs := refs[b := refs[b] + {pid}];
    }

    method Reassign(pid: nat, b: nat, dev: nat, blockno: nat)
      requires Valid() && b < NBUF && Free(bufs[b])
      requires forall c :: 0 <= c < NBUF ==> !Is(bufs[c], dev, blockno)
      modifies this`bufs, this`refs
      ensures Valid()
      ensures bufs == old(bufs)[b := Buf(dev, blockno, false, false, 1, None, old(bufs)[b].data)]
      ensures refs == old(refs)[b := {pid}] && old(refs)[b] == {}
    {
      var now := Buf(dev, blockno, false, false, 1, None, bufs[b].data);
      Recycle(bufs, b, now, refs, pid, modified, logical, disk);
      bufs := bufs[b := now];
      refs := refs[b := {pid}];
    }

    /** acquiresleep, at the step where the lock is free. */
    method AcquireSleep(pid: nat, b: nat)
      requires Valid() && b < NBUF && pid in refs[b] && bufs[b].holder.None?
      modifies this`bufs
      ensures Valid()
      ensures bufs == old(bufs)[b := old(bufs)[b].(holder := Some(pid))]
    {
      var now := bufs[b].(holder := Some(pid));
      KeepsContents(bufs, b, now, modified, logical, disk);
      bufs := bufs[b := now];
    }

    /** iderw on a buffer that is not valid yet: a read; false is the panic. */
    method ReadBlock(pid: nat, b: nat) returns (ok: bool)
      requires Valid() && b < NBUF && bufs[b].holder == Some(pid) && !bufs[b].valid
      modifies this`bufs
      ensures Valid()
      ensures ok <==> InRange(bufs[b].dev, bufs[b].blockno)
      ensures ok ==> old(bufs)[b].blockno < |logical|
      ensures ok ==> bufs == old(bufs)[b := old(bufs)[b].(valid := true, data := logical[old(bufs)[b].blockno])]
      ensures !ok ==> bufs == old(bufs)
    {
      if bufs[b].dev != ROOTDEV || bufs[b].blockno >= |disk| {
        return false;
      }
      var n := bufs[b].blockno;
      FirstReader(bufs, b, modified, logical, disk);
      bufs := bufs[b := bufs[b].(valid := true, data := disk[n])];
      ok := true;
    }

    /** A locked buffer with the block's contents; None is a panic in bget or iderw. */
    method Bread(pid: nat, dev: nat, blockno: nat) returns (r: Option<nat>)
      requires Valid()
      requires forall i :: 0 <= i < NBUF && Is(bufs[i], dev, blockno) ==> pid !in refs[i] && bufs[i].holder.None?
      modifies this`bufs, this`refs
      ensures Valid()
      ensures r.None? <==> old(!Cached(dev, blockno) && AllBusy()) || !InRange(dev, blockno)
      ensures r.None? ==> Pins(bufs) == old(Pins(bufs))
      ensures r.Some? ==> Lent(old(bufs), bufs, r.value, pid, dev, blockno, logical)
      ensures r.Some? ==> refs == old(refs)[r.value := old(refs)[r.value] + {pid}] && pid !in old(refs)[r.value]
    {
      hide Valid;
      r := Bget(pid, dev, blockno);
      if r.None? {
        return;
      }
      var b := r.value;
      AcquireSleep(pid, b);
      if !bufs[b].valid {
        var ok := ReadBlock(pid, b);
        if !ok {
          PinsSame(old(bufs), bufs);
          return None;
        }
      }
    }

    /** bread of a block of the root device, while no other device's buffers are in use: whether it
        finds a buffer depends on the busy blocks alone. */
    method BreadRoot(pid: nat, blockno: nat) returns (r: Option<nat>)
      requires Valid() && blockno < |disk|
      requires forall i :: 0 <= i < NBUF && !Free(bufs[i]) ==> bufs[i].dev == ROOTDEV
      requires forall i :: 0 <= i < NBUF && Is(bufs[i], ROOTDEV, blockno) ==> pid !in refs[i] && bufs[i].holder.None?
      modifies this`bufs, this`refs
      ensures Valid()
      ensures r.Some? <==> old(CanRead(BusyBlocks(bufs), [blockno]))
      ensures r.Some? ==> Lent(old(bufs), bufs, r.value, pid, ROOTDEV, blockno, logical)
      ensures r.Some? ==> refs == old(refs)[r.value := old(refs)[r.value] + {pid}] && pid !in old(refs)[r.value]
      ensures r.Some? ==> BusyBlocks(bufs) == old(BusyBlocks(bufs)) + {blockno}
      ensures r.Some? ==> forall i :: 0 <= i < NBUF && !Free(bufs[i]) ==> bufs[i].dev == ROOTDEV
    {
      PinnedOnRoot();
      hide Valid, BusyBlocks, Pins, CanRead;
      NoBuffer(bufs, blockno);
      CanReadOne(BusyBlocks(bufs), blockno);
      r := Bread(pid, ROOTDEV, blockno);
      if r.Some? {
        LentBusy(old(bufs), bufs, r.value, pid, blockno, logical);
      }
    }

    /** The caller's memmove into b->data. */
    method SetData(pid: nat, b: nat, data: Block)
      requires Valid() && b < NBUF && bufs[b].holder == Some(pid) && bufs[b].valid
      modifies this`bufs, this`logical, this`modified
      ensures Valid()
      ensures bufs == old(bufs)[b := old(bufs)[b].(data := data)]
      ensures logical == old(logical)[bufs[b].blockno := data]
      ensures modified == old(modified) + {b}
    {
      Overwrite(bufs, b, data, modified, logical, disk);
      bufs := bufs[b := bufs[b].(data := data)];
      logical := logical[bufs[b].blockno := data];
      modified := modified + {b};
    }

    /** Set B_DIRTY and let iderw write the block through. */
    method Bwrite(pid: nat, b: nat)
      requires Valid() && b < NBUF && bufs[b].holder == Some(pid) && bufs[b].valid
      modifies this`bufs, this`disk, this`modified, this`writes
      ensures Valid()
      ensures bufs == old(bufs)[b := old(bufs)[b].(dirty := false)]
      ensures disk == old(disk)[bufs[b].blockno := bufs[b].data]
      ensures writes == old(writes) + [Write(bufs[b].blockno, bufs[b].data)]
      ensures modified == old(modified) - {b}
    {
      hide Unique, Coherent, Counted;
      WriteThrough(bufs, b, modified, logical, disk);
      FlagKeepsCount(bufs, b, false, refs);
      var n := bufs[b].blockno;
      bufs := bufs[b := bufs[b].(dirty := true)];
      bufs := bufs[b := bufs[b].(dirty := false)];
      assert bufs == old(bufs)[b := old(bufs)[b].(dirty := false)];
      disk := disk[n := bufs[b].data];
      modified := modified - {b};
      writes := writes + [Write(n, bufs[b].data)];
    }

    /** log_write's last act: B_DIRTY keeps the buffer from being recycled. */
    method Pin(pid: nat, b: nat)
      requires Valid() && b < NBUF && bufs[b].holder == Some(pid) && bufs[b].valid
      modifies this`bufs, this`modified
      ensures Valid()
      ensures bufs == old(bufs)[b := old(bufs)[b].(dirty := true)]
      ensures modified == old(modified) - {b}
    {
      PinKeeps(bufs, b, modified, logical, disk);
      bufs := bufs[b := bufs[b].(dirty := true)];
      modified := modified - {b};
    }

    /** The first half of brelse: give up the sleep lock. */
    method ReleaseSleep(pid: nat, b: nat)
      requires Valid() && b < NBUF && bufs[b].holder == Some(pid) && b !in modified
      modifies this`bufs
      ensures Valid()
      ensures bufs == old(bufs)[b := old(bufs)[b].(holder := None)]
    {
      var now := bufs[b].(holder := None);
      KeepsContents(bufs, b, now, modified, logical, disk);
      bufs := bufs[b := now];
    }

    /** The second half of brelse: drop the reference; the last one moves the
        buffer to the front of the ring. */
    method DropRef(pid: nat, b: nat)
      requires Valid() && b < NBUF && pid in refs[b] && bufs[b].holder != Some(pid)
      modifies this`bufs, this`refs, this`order, this`next, this`prev, this`stamp, this`clock
      ensures Valid()
      ensures bufs == old(bufs)[b := old(bufs)[b].(refcnt := old(bufs)[b].refcnt - 1)]
      ensures refs == old(refs)[b := old(refs)[b] - {pid}]
      ensures if refs[b] == {} then order[0] == b && stamp == old(stamp)[b := old(clock)] && clock == old(clock) + 1
              else order == old(order) && stamp == old(stamp) && clock == old(clock)
    {
      var now := bufs[b].(refcnt := bufs[b].refcnt - 1);
      KeepsContents(bufs, b, now, modified, logical, disk);
      bufs := bufs[b := now];
      refs := refs[b := refs[b] - {pid}];
      if bufs[b].refcnt == 0 {
        MoveToFront(b);
      }
    }

    method MoveToFront(b: nat)
      requires Linked() && b < NBUF
      modifies this`order, this`next, this`prev, this`stamp, this`clock
      ensures Linked()
      ensures order[0] == b && stamp == old(stamp)[b := old(clock)] && clock == old(clock) + 1
    {
      hide Ring, Without, AllBuffers, ByRecency;
      ghost var i := PlaceOf(order, next, prev, stamp, clock, b);
      Unlink(b, i);
      PushFront(b, Without(order, i));
      Renewed(order, i, stamp, clock);
      order := [b] + Without(order, i);
      stamp := stamp[b := clock];
      clock := clock + 1;
    }

    method Unlink(b: nat, ghost i: nat)
      requires Ring(order, next, prev) && i < |order| && order[i] == b
      modifies this`next, this`prev
      ensures Ring(Without(order, i), next, prev)
    {
      RingUnlink(order, next, prev, i);
      var before, after := prev[b], next[b];
      prev := prev[after := before];
      next := next[before := after];
    }

    method PushFront(b: nat, ghost rest: seq<nat>)
      requires Ring(rest, next, prev) && b < NBUF && b !in rest
      modifies this`next, this`prev
      ensures Ring([b] + rest, next, prev)
    {
      RingPushFront(rest, next, prev, b);
      var first := next[HEAD];
      next := next[b := first];
      prev := prev[b := HEAD];
      prev := prev[first := b];
      next := next[HEAD := b];
    }

    /** Unlock and release. */
    method Brelse(pid: nat, b: nat)
      requires Valid() && b < NBUF && bufs[b].holder == Some(pid) && b !in modified
      modifies this`bufs, this`refs, this`order, this`next, this`prev, this`stamp, this`clock
      ensures Valid()
      ensures bufs == old(bufs)[b := old(bufs)[b].(refcnt := old(bufs)[b].refcnt - 1, holder := None)]
      ensures refs == old(refs)[b := old(refs)[b] - {pid}]
      ensures if refs[b] == {} then order[0] == b && stamp == old(stamp)[b := old(clock)] && clock == old(clock) + 1
              else order == old(order) && stamp == old(stamp) && clock == old(clock)
    {
      ReleaseSleep(pid, b);
      DropRef(pid, b);
    }
  }
}
