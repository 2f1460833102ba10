/** The user-level allocator (umalloc.c): a circular, address-ordered, coalescing
    free list of headers. Addresses count units of sizeof(Header). */
module Umalloc {
  import opened Blocks

  datatype Header = Header(ptr: int, size: nat)

  type Memory = map<int, Header>

  // ----- the free list -----

  function Next(order: seq<int>, i: nat): (p: int)
    requires i < |order|
  {
    if i + 1 < |order| then order[i + 1] else order[0]
  }

  ghost predicate Ascending(order: seq<int>) {
    forall i, j :: 0 <= i < j < |order| ==> order[i] < order[j]
  }

  predicate Linked(mem: Memory, order: seq<int>, i: nat)
    requires i < |order|
  {
    order[i] in mem && mem[order[i]].ptr == Next(order, i)
  }

  /** The headers of `order` link up in one circle, by ascending address. */
  ghost predicate Circular(mem: Memory, order: seq<int>) {
    |order| > 0 && Ascending(order) && forall i :: 0 <= i < |order| ==> Linked(mem, order, i)
  }

  /** Entry i is nonempty and ends before the next one starts; the sentinel, entry 0, is empty. */
  predicate Gap(mem: Memory, order: seq<int>, i: nat)
    requires i < |order|
  {
    && order[i] in mem
    && (if i == 0 then mem[order[i]].size == 0 else mem[order[i]].size >= 1)
    && (i + 1 < |order| ==> order[i] + mem[order[i]].size < order[i + 1])
  }

  /** No two free blocks are adjacent. */
  ghost predicate Coalesced(mem: Memory, order: seq<int>) {
    forall i :: 0 <= i < |order| ==> Gap(mem, order, i)
  }

  ghost function Frees(order: seq<int>): (s: set<int>) {
    set i | 1 <= i < |order| :: order[i]
  }

  // ----- blocks and the units they cover -----

  ghost function Range(h: int, n: nat): (s: set<int>)
    ensures forall u :: u in s <==> h <= u < h + n
  {
    if n == 0 then {} else Range(h, n - 1) + {h + n - 1}
  }

  predicate Covers(mem: Memory, h: int, u: int)
    requires h in mem
  {
    h <= u < h + mem[h].size
  }

  /** Every unit got from the kernel lies in exactly one block, namely home[u]. */
  ghost predicate Partition(mem: Memory, blocks: set<int>, home: map<int, int>) {
    && (forall h :: h in blocks ==> h in mem && mem[h].size >= 1)
    && (forall h, u :: h in blocks && Covers(mem, h, u) ==> u in home && home[u] == h)
    && (forall u :: u in home ==> home[u] in blocks && Covers(mem, home[u], u))
  }

  lemma StartsInHome(mem: Memory, blocks: set<int>, home: map<int, int>)
    requires Partition(mem, blocks, home)
    ensures forall h :: h in blocks ==> h in home && home[h] == h
  {
    forall h | h in blocks ensures h in home && home[h] == h {
      assert Covers(mem, h, h);
    }
  }

  /** Two blocks do not overlap. */
  lemma Disjoint(mem: Memory, blocks: set<int>, home: map<int, int>, h: int, g: int)
    requires Partition(mem, blocks, home) && h in blocks && g in blocks && h < g
    ensures h + mem[h].size <= g
  {
    if h + mem[h].size > g {
      assert Covers(mem, h, g);
      assert Covers(mem, g, g);
    }
  }

  /** Joining block g to its lower neighbour h. */
  lemma Join(mem: Memory, mem': Memory, blocks: set<int>, home: map<int, int>, h: int, g: int)
    returns (home': map<int, int>)
    requires Partition(mem, blocks, home) && h in blocks && g in blocks && h + mem[h].size == g
    requires forall b :: b in blocks && b != g ==>
               b in mem' && mem'[b].size == if b == h then mem[h].size + mem[g].size else mem[b].size
    ensures Partition(mem', blocks - {g}, home') && home'.Keys == home.Keys
  {
    home' := map u | u in home :: if home[u] == g then h else home[u];
    forall b, u | b in blocks - {g} && Covers(mem', b, u) ensures u in home' && home'[u] == b {
      if b == h {
        if u < g { assert Covers(mem, h, u); } else { assert Covers(mem, g, u); }
      } else {
        assert Covers(mem, b, u);
      }
    }
    forall u | u in home' ensures home'[u] in blocks - {g} && Covers(mem', home'[u], u) {
      assert Covers(mem, home[u], u);
    }
  }

  /** Cutting the last k units off block h. */
  lemma Cut(mem: Memory, mem': Memory, blocks: set<int>, home: map<int, int>, h: int, k: nat)
    returns (home': map<int, int>)
    requires Partition(mem, blocks, home) && h in blocks && 0 < k < mem[h].size
    requires var g := h + mem[h].size - k;
             g in mem' && mem'[g].size == k
             && forall b :: b in blocks ==> b in mem' && mem'[b].size == if b == h then mem[h].size - k else mem[b].size
    ensures Partition(mem', blocks + {h + mem[h].size - k}, home') && home'.Keys == home.Keys
    ensures h + mem[h].size - k !in blocks
  {
    var g := h + mem[h].size - k;
    assert Covers(mem, h, g);
    StartsInHome(mem, blocks, home);
    home' := map u | u in home :: if home[u] == h && u >= g then g else home[u];
    forall b, u | b in blocks + {g} && Covers(mem', b, u) ensures u in home' && home'[u] == b {
      assert Covers(mem, if b == g then h else b, u);
    }
    forall u | u in home' ensures home'[u] in blocks + {g} && Covers(mem', home'[u], u) {
      assert Covers(mem, home[u], u);
    }
  }

  /** A fresh range from the kernel as one more block. */
  lemma Gain(mem: Memory, mem': Memory, blocks: set<int>, home: map<int, int>, h: int, n: nat)
    returns (home': map<int, int>)
    requires Partition(mem, blocks, home) && n > 0
    requires Range(h, n) !! home.Keys
    requires h in mem' && mem'[h].size == n
    requires forall b :: b in blocks ==> b in mem' && mem'[b].size == mem[b].size
    ensures h !in blocks && Partition(mem', blocks + {h}, home')
    ensures home'.Keys == home.Keys + Range(h, n)
  {
    assert h in Range(h, n);
    StartsInHome(mem, blocks, home);
    home' := map u | u in home.Keys + Range(h, n) :: if u in Range(h, n) then h else home[u];
    forall b, u | b in blocks + {h} && Covers(mem', b, u) ensures u in home' && home'[u] == b {
      if b != h { assert Covers(mem, b, u); }
    }
    forall u | u in home' ensures home'[u] in blocks + {h} && Covers(mem', home'[u], u) {
      if u !in Range(h, n) { assert Covers(mem, home[u], u); }
    }
  }

  lemma SameSizes(mem: Memory, mem': Memory, blocks: set<int>, home: map<int, int>)
    requires Partition(mem, blocks, home)
    requires forall b :: b in blocks ==> b in mem' && mem'[b].size == mem[b].size
    ensures Partition(mem', blocks, home)
  {
    forall b, u | b in blocks && Covers(mem', b, u) ensures u in home && home[u] == b {
      assert Covers(mem, b, u);
    }
    forall u | u in home ensures home[u] in blocks && Covers(mem', home[u], u) {
      assert Covers(mem, home[u], u);
    }
  }

  /** A pool: its free list, the blocks handed out, and the units got from the kernel. */
  ghost predicate Heap(base: int, mem: Memory, order: seq<int>, live: set<int>, home: map<int, int>) {
    && Circular(mem, order) && Coalesced(mem, order) && order[0] == base
    && Frees(order) !! live && Partition(mem, Frees(order) + live, home)
    && (forall u :: u in home ==> base < u)
  }

  // ----- putting a block back -----

  /** Block b belongs right behind entry k of the list. */
  predicate Slot(order: seq<int>, b: int, k: nat) {
    k < |order| && order[k] < b && (k + 1 < |order| ==> b < order[k + 1])
  }

  lemma SlotExists(order: seq<int>, b: int) returns (k: nat)
    requires |order| > 0 && order[0] < b && Ascending(order) && b !in order
    ensures Slot(order, b, k)
  {
    k := 0;
    while k + 1 < |order| && order[k + 1] < b
      invariant k < |order| && order[k] < b
    {
      k := k + 1;
    }
  }

  /** The list once b is in behind entry k: b swallows entry k + 1 if `up`, entry k swallows b if `low`. */
  ghost function Insert(order: seq<int>, b: int, k: nat, up: bool, low: bool): (r: seq<int>)
    requires k < |order| && (up ==> k + 1 < |order|)
  {
    order[..k + 1] + (if low then [] else [b]) + order[if up then k + 2 else k + 1..]
  }

  /** Where entry i of the new list comes from. */
  lemma InsertAt(order: seq<int>, b: int, k: nat, up: bool, low: bool, i: nat)
    requires k < |order| && (up ==> k + 1 < |order|)
    ensures var r := Insert(order, b, k, up, low);
            && |r| == |order| + (if low then 0 else 1) - (if up then 1 else 0)
            && (i < |r| ==> r[i] == if i <= k then order[i] else if i == k + 1 && !low then b
                                    else order[i - (if low then 0 else 1) + (if up then 1 else 0)])
  {
  }

  /** How the headers of b and of its predecessor p change when b goes in between p and q. */
  ghost predicate Spliced(mem: Memory, mem': Memory, p: int, b: int, q: int, up: bool, low: bool)
    requires p in mem && b in mem && q in mem
  {
    var size := mem[b].size + if up then mem[q].size else 0;
    var next := if up then mem[q].ptr else q;
    && (forall h :: h in mem && h != p && h != b ==> h in mem' && mem'[h] == mem[h])
    && p in mem' && b in mem'
    && (if low then mem'[p] == Header(next, mem[p].size + size)
        else mem'[b] == Header(next, size) && mem'[p] == Header(b, mem[p].size))
  }

  lemma InsertAscending(order: seq<int>, b: int, k: nat, up: bool, low: bool)
    requires Ascending(order) && Slot(order, b, k) && (up ==> k + 1 < |order|)
    ensures Ascending(Insert(order, b, k, up, low))
  {
    var r := Insert(order, b, k, up, low);
    forall i, j | 0 <= i < j < |r| ensures r[i] < r[j] {
      InsertAt(order, b, k, up, low, i);
      InsertAt(order, b, k, up, low, j);
      hide Insert;
    }
  }

  lemma InsertLinks(mem: Memory, mem': Memory, order: seq<int>, b: int, k: nat, up: bool, low: bool, i: nat)
    requires Circular(mem, order) && Slot(order, b, k) && b in mem && (up ==> k + 1 < |order|)
    requires Linked(mem, order, k) && (up ==> Linked(mem, order, k + 1)) && Next(order, k) in mem
    requires Spliced(mem, mem', order[k], b, Next(order, k), up, low)
    requires i < |Insert(order, b, k, up, low)|
    ensures Linked(mem', Insert(order, b, k, up, low), i)
  {
    InsertAt(order, b, k, up, low, i);
    InsertAt(order, b, k, up, low, i + 1);
    InsertAt(order, b, k, up, low, 0);
    hide Insert;
    var j := if i <= k then i else i - (if low then 0 else 1) + (if up then 1 else 0);
    assert j < |order| ==> Linked(mem, order, j);
  }

  lemma InsertCircular(mem: Memory, mem': Memory, order: seq<int>, b: int, k: nat, up: bool, low: bool)
    requires Circular(mem, order) && Slot(order, b, k) && b in mem && (up ==> k + 1 < |order|)
    requires Linked(mem, order, k) && (up ==> Linked(mem, order, k + 1)) && Next(order, k) in mem
    requires Spliced(mem, mem', order[k], b, Next(order, k), up, low)
    ensures Circular(mem', Insert(order, b, k, up, low))
  {
    InsertAscending(order, b, k, up, low);
    InsertAt(order, b, k, up, low, 0);
    var r := Insert(order, b, k, up, low);
    forall i | 0 <= i < |r| ensures Linked(mem', r, i) {
      InsertLinks(mem, mem', order, b, k, up, low, i);
    }
    hide Insert, Spliced, Linked, Ascending;
  }

  lemma InsertGaps(mem: Memory, mem': Memory, order: seq<int>, b: int, k: nat, up: bool, low: bool, i: nat)
    requires Ascending(order) && Coalesced(mem, order) && Slot(order, b, k) && b in mem && mem[b].size >= 1
    requires Gap(mem, order, k) && Next(order, k) in mem
    requires up <==> k + 1 < |order| && b + mem[b].size == order[k + 1]
    requires low <==> order[k] + mem[order[k]].size == b
    requires k > 0 ==> order[k] + mem[order[k]].size <= b
    requires k + 1 < |order| ==> b + mem[b].size <= order[k + 1] && Gap(mem, order, k + 1)
    requires Spliced(mem, mem', order[k], b, Next(order, k), up, low)
    requires i < |Insert(order, b, k, up, low)|
    ensures Gap(mem', Insert(order, b, k, up, low), i)
  {
    if i == k || (i == k + 1 && !low) {
      InsertGapNew(mem, mem', order, b, k, up, low, i);
    } else {
      InsertGapOld(mem, mem', order, b, k, up, low, i);
    }
  }

  /** The gap behind an entry that was there before and was not joined with b. */
  lemma InsertGapOld(mem: Memory, mem': Memory, order: seq<int>, b: int, k: nat, up: bool, low: bool, i: nat)
    requires Ascending(order) && Coalesced(mem, order) && Slot(order, b, k) && b in mem && Next(order, k) in mem
             && order[k] in mem
    requires (up ==> k + 1 < |order|) && Spliced(mem, mem', order[k], b, Next(order, k), up, low)
    requires i < |Insert(order, b, k, up, low)| && i != k && (i == k + 1 ==> low)
    ensures Gap(mem', Insert(order, b, k, up, low), i)
  {
    InsertAt(order, b, k, up, low, i);
    InsertAt(order, b, k, up, low, i + 1);
    hide Insert;
    var j := if i <= k then i else i - (if low then 0 else 1) + (if up then 1 else 0);
    assert Gap(mem, order, j) && order[j] != order[k] && order[j] != b;
    hide Ascending, Coalesced;
  }

  /** The gap behind b, or behind the entry before it. */
  lemma InsertGapNew(mem: Memory, mem': Memory, order: seq<int>, b: int, k: nat, up: bool, low: bool, i: nat)
    requires Slot(order, b, k) && b in mem && mem[b].size >= 1 && Gap(mem, order, k) && Next(order, k) in mem
    requires up <==> k + 1 < |order| && b + mem[b].size == order[k + 1]
    requires low <==> order[k] + mem[order[k]].size == b
    requires k > 0 ==> order[k] + mem[order[k]].size <= b
    requires k + 1 < |order| ==> b + mem[b].size <= order[k + 1] && Gap(mem, order, k + 1)
    requires Spliced(mem, mem', order[k], b, Next(order, k), up, low)
    requires i < |Insert(order, b, k, up, low)| && (i == k || (i == k + 1 && !low))
    ensures Gap(mem', Insert(order, b, k, up, low), i)
  {
    InsertAt(order, b, k, up, low, i);
    InsertAt(order, b, k, up, low, i + 1);
    hide Insert;
  }

  lemma InsertCoalesced(mem: Memory, mem': Memory, order: seq<int>, b: int, k: nat, up: bool, low: bool)
    requires Ascending(order) && Coalesced(mem, order) && Slot(order, b, k) && b in mem && mem[b].size >= 1
    requires Gap(mem, order, k) && Next(order, k) in mem
    requires up <==> k + 1 < |order| && b + mem[b].size == order[k + 1]
    requires low <==> order[k] + mem[order[k]].size == b
    requires k > 0 ==> order[k] + mem[order[k]].size <= b
    requires k + 1 < |order| ==> b + mem[b].size <= order[k + 1] && Gap(mem, order, k + 1)
    requires Spliced(mem, mem', order[k], b, Next(order, k), up, low)
    ensures Coalesced(mem', Insert(order, b, k, up, low))
  {
    var r := Insert(order, b, k, up, low);
    forall i | 0 <= i < |r| ensures Gap(mem', r, i) {
      InsertGaps(mem, mem', order, b, k, up, low, i);
    }
    hide Insert, Spliced, Gap;
  }

  lemma InsertFrees(order: seq<int>, b: int, k: nat, up: bool, low: bool)
    requires Ascending(order) && Slot(order, b, k) && (up ==> k + 1 < |order|) && (low ==> k > 0)
    ensures Frees(Insert(order, b, k, up, low))
         == Frees(order) + (if low then {} else {b}) - (if up then {order[k + 1]} else {})
  {
    var r := Insert(order, b, k, up, low);
    var s := Frees(order) + (if low then {} else {b}) - (if up then {order[k + 1]} else {});
    forall x | x in Frees(r) ensures x in s {
      var i :| 1 <= i < |r| && r[i] == x;
      InsertAt(order, b, k, up, low, i);
      hide Insert;
    }
    forall x | x in s ensures x in Frees(r) {
      InsertAt(order, b, k, up, low, k + 1);
      if x != b || low {
        var i :| 1 <= i < |order| && order[i] == x;
        InsertAt(order, b, k, up, low, if i <= k then i else i - (if up then 1 else 0) + (if low then 0 else 1));
      }
      hide Insert;
    }
  }

  lemma InsertPartition(mem: Memory, mem': Memory, blocks: set<int>, home: map<int, int>, p: int, b: int, q: int,
                        up: bool, low: bool)
    returns (home': map<int, int>)
    requires Partition(mem, blocks, home) && b in blocks && p != b && q != b && p in mem && q in mem
    requires up ==> q in blocks && q != p && b + mem[b].size == q
    requires low ==> p in blocks && p + mem[p].size == b
    requires Spliced(mem, mem', p, b, q, up, low)
    ensures Partition(mem', blocks - (if up then {q} else {}) - (if low then {b} else {}), home')
    ensures home'.Keys == home.Keys
  {
    var mem1 := mem[b := Header(0, mem[b].size + if up then mem[q].size else 0)];
    var blocks1 := blocks - if up then {q} else {};
    if up {
      home' := Join(mem, mem1, blocks, home, b, q);
    } else {
      home' := home;
      SameSizes(mem, mem1, blocks, home);
      assert blocks1 == blocks;
    }
    if low {
      home' := Join(mem1, mem', blocks1, home', p, b);
    } else {
      SameSizes(mem1, mem', blocks1, home');
      assert blocks1 - {} == blocks1;
    }
  }

  /** What the pool invariant says around the place where b goes back. */
  lemma Neighbours(base: int, mem: Memory, order: seq<int>, live: set<int>, home: map<int, int>, b: int, k: nat)
    requires Heap(base, mem, order, live, home) && b in live && Slot(order, b, k)
    ensures b in mem && mem[b].size >= 1 && b !in Frees(order)
    ensures Linked(mem, order, k) && Gap(mem, order, k) && Next(order, k) in mem
    ensures k > 0 ==> order[k] in Frees(order) && order[k] + mem[order[k]].size <= b
    ensures k + 1 < |order| ==> order[k + 1] in Frees(order) && b + mem[b].size <= order[k + 1]
                                && Gap(mem, order, k + 1) && Linked(mem, order, k + 1)
  {
    var blocks := Frees(order) + live;
    assert Linked(mem, order, k) && Linked(mem, order, 0);
    if k > 0 {
      Disjoint(mem, blocks, home, order[k], b);
    }
    if k + 1 < |order| {
      assert Linked(mem, order, k + 1);
      Disjoint(mem, blocks, home, b, order[k + 1]);
    }
  }

  /** Freeing keeps the pool sound and loses no unit. */
  lemma FreeKeeps(base: int, mem: Memory, mem': Memory, order: seq<int>, live: set<int>, home: map<int, int>, b: int,
                  k: nat, up: bool, low: bool)
    returns (home': map<int, int>)
    requires Heap(base, mem, order, live, home) && b in live && b in mem && Slot(order, b, k)
    requires order[k] in mem && Next(order, k) in mem
    requires up <==> k + 1 < |order| && b + mem[b].size == order[k + 1]
    requires low <==> order[k] + mem[order[k]].size == b
    requires Spliced(mem, mem', order[k], b, Next(order, k), up, low)
    ensures Heap(base, mem', Insert(order, b, k, up, low), live - {b}, home') && home'.Keys == home.Keys
  {
    Neighbours(base, mem, order, live, home, b, k);
    var blocks := Frees(order) + live;
    InsertCircular(mem, mem', order, b, k, up, low);
    InsertCoalesced(mem, mem', order, b, k, up, low);
    InsertFrees(order, b, k, up, low);
    InsertAt(order, b, k, up, low, 0);
    hide Insert, Frees, Circular, Coalesced, Partition, Ascending;
    home' := InsertPartition(mem, mem', blocks, home, order[k], b, Next(order, k), up, low);
    assert Frees(Insert(order, b, k, up, low)) + (live - {b})
        == blocks - (if up then {Next(order, k)} else {}) - (if low then {b} else {});
  }

  // ----- taking a block out -----

  ghost function Drop(order: seq<int>, i: nat): (r: seq<int>)
    requires i < |order|
  {
    order[..i] + order[i + 1..]
  }

  lemma DropFrees(order: seq<int>, i: nat)
    requires Ascending(order) && 1 <= i < |order|
    ensures Frees(Drop(order, i)) == Frees(order) - {order[i]}
  {
    var r := Drop(order, i);
    forall x | x in Frees(order) - {order[i]} ensures x in Frees(r) {
      var j :| 1 <= j < |order| && order[j] == x;
      assert r[if j < i then j else j - 1] == x;
    }
  }

  lemma DropLinks(mem: Memory, order: seq<int>, i: nat, mem': Memory, j: nat)
    requires Circular(mem, order) && Coalesced(mem, order) && 1 <= i < |order| && j < |order| - 1
    requires Linked(mem, order, i) && Linked(mem, order, i - 1)
    requires mem' == mem[order[i - 1] := Header(mem[order[i]].ptr, mem[order[i - 1]].size)]
    ensures Linked(mem', Drop(order, i), j) && Gap(mem', Drop(order, i), j)
  {
    var g := if j < i then j else j + 1;
    assert Linked(mem, order, g) && Gap(mem, order, g) && (g == i - 1 || order[g] != order[i - 1]);
    hide Ascending, Circular, Coalesced;
  }

  /** Handing out a whole free block. */
  lemma TakeWhole(base: int, mem: Memory, order: seq<int>, live: set<int>, home: map<int, int>, i: nat, mem': Memory)
    requires Heap(base, mem, order, live, home) && 1 <= i < |order| && order[i] in mem && order[i - 1] in mem
    requires mem' == mem[order[i - 1] := Header(mem[order[i]].ptr, mem[order[i - 1]].size)]
    ensures Heap(base, mem', Drop(order, i), live + {order[i]}, home)
  {
    var r := Drop(order, i);
    assert Linked(mem, order, i) && Linked(mem, order, i - 1);
    forall j | 0 <= j < |r| ensures Linked(mem', r, j) && Gap(mem', r, j) {
      DropLinks(mem, order, i, mem', j);
    }
    assert Ascending(r);
    DropFrees(order, i);
    SameSizes(mem, mem', Frees(order) + live, home);
    assert order[i] in Frees(order);
    assert r[0] == order[0];
    hide Drop, Frees, Partition, Ascending, Linked, Gap;
    assert Frees(r) + (live + {order[i]}) == Frees(order) + live;
  }

  /** The memory after cutting the last n units off block p: a header is written in front of them. */
  function Carve(mem: Memory, p: int, n: nat): (m: Memory)
    requires p in mem && n < mem[p].size
  {
    SetSize(mem[p := Header(mem[p].ptr, mem[p].size - n)], p + mem[p].size - n, n)
  }

  /** `h->s.size = n`; the link of a header never written before is whatever was in memory, here 0. */
  function SetSize(mem: Memory, h: int, n: nat): (m: Memory) {
    mem[h := Header(if h in mem then mem[h].ptr else 0, n)]
  }

  lemma CarveLinks(mem: Memory, order: seq<int>, i: nat, n: nat, j: nat)
    requires Ascending(order) && i < |order| && j < |order| && order[i] in mem && 0 < n < mem[order[i]].size
    requires Linked(mem, order, j) && Gap(mem, order, j) && i > 0 && order[j] != order[i] + mem[order[i]].size - n
    ensures Linked(Carve(mem, order[i], n), order, j) && Gap(Carve(mem, order[i], n), order, j)
  {
  }

  /** Handing out the tail of a free block. */
  lemma TakeTail(base: int, mem: Memory, order: seq<int>, live: set<int>, home: map<int, int>, i: nat, n: nat)
    returns (home': map<int, int>)
    requires Heap(base, mem, order, live, home) && 1 <= i < |order| && order[i] in mem && 0 < n < mem[order[i]].size
    ensures var g := order[i] + mem[order[i]].size - n;
            && g !in live && g !in order && Heap(base, Carve(mem, order[i], n), order, live + {g}, home')
            && home'.Keys == home.Keys
  {
    var blocks, h := Frees(order) + live, order[i];
    var mem', g := Carve(mem, h, n), h + mem[h].size - n;
    TailStart(base, mem, order, live, home, i, n);
    assert forall b :: b in blocks ==> b in mem by { hide Frees, Carve; }
    home' := Cut(mem, mem', blocks, home, h, n);
    hide Partition, Carve, Linked, Gap, Ascending, Frees;
    forall j | 0 <= j < |order| ensures Linked(mem', order, j) && Gap(mem', order, j) {
      assert Linked(mem, order, j) && Gap(mem, order, j);
      CarveLinks(mem, order, i, n, j);
    }
    assert blocks + {g} == Frees(order) + (live + {g});
  }

  lemma TailStart(base: int, mem: Memory, order: seq<int>, live: set<int>, home: map<int, int>, i: nat, n: nat)
    requires Heap(base, mem, order, live, home) && 1 <= i < |order| && order[i] in mem && 0 < n < mem[order[i]].size
    ensures var g := order[i] + mem[order[i]].size - n;
            order[i] in Frees(order) && g !in live && g !in order && g !in Frees(order)
  {
    var blocks, h := Frees(order) + live, order[i];
    assert h in Frees(order);
    assert Covers(mem, h, h + mem[h].size - n);
    StartsInHome(mem, blocks, home);
    hide Partition, Circular, Coalesced;
    assert forall j :: 1 <= j < |order| ==> order[j] in Frees(order);
  }

  /** Fresh units from the kernel become one more block. */
  lemma GainKeeps(base: int, mem: Memory, order: seq<int>, live: set<int>, home: map<int, int>, h: int, n: nat)
    returns (home': map<int, int>)
    requires Heap(base, mem, order, live, home) && n > 0 && Range(h, n) !! home.Keys && base < h
    ensures h !in live && Heap(base, SetSize(mem, h, n), order, live + {h}, home')
            && home'.Keys == home.Keys + Range(h, n)
  {
    var blocks, mem' := Frees(order) + live, SetSize(mem, h, n);
    assert h in Range(h, n);
    StartsInHome(mem, blocks, home);
    forall j | 0 <= j < |order| ensures order[j] != h && Linked(mem', order, j) && Gap(mem', order, j) {
      assert Linked(mem, order, j) && Gap(mem, order, j);
      assert j > 0 ==> order[j] in blocks;
    }
    home' := Gain(mem, mem', blocks, home, h, n);
    hide Partition, Frees;
    assert blocks + {h} == Frees(order) + (live + {h});
  }

  /** What vfree does to memory at the place found, and that it leaves a sound pool with b's units free. */
  lemma Freed(base: int, mem: Memory, mem': Memory, order: seq<int>, live: set<int>, home: map<int, int>, b: int,
              k: nat)
    returns (order': seq<int>, home': map<int, int>)
    requires Heap(base, mem, order, live, home) && b in live && b in mem && Slot(order, b, k)
    requires order[k] in mem && Next(order, k) in mem
    requires mem' == Splice(mem, order[k], b, Next(order, k))
    ensures Heap(base, mem', order', live - {b}, home') && home'.Keys == home.Keys && order[k] in order'
    ensures forall h :: h in live && h != b && h in mem ==> h in mem' && mem'[h] == mem[h]
    ensures FreeAt(mem', order', b, mem[b].size)
  {
    var up, low := k + 1 < |order| && b + mem[b].size == order[k + 1], order[k] + mem[order[k]].size == b;
    SpliceSpec(base, mem, order, live, home, b, k);
    home' := FreeKeeps(base, mem, mem', order, live, home, b, k, up, low);
    order' := Insert(order, b, k, up, low);
    InsertAt(order, b, k, up, low, k);
    InsertAt(order, b, k, up, low, k + 1);
    Neighbours(base, mem, order, live, home, b, k);
    hide Heap, Insert, Splice;
    var i := if low then k else k + 1;
    assert order'[i] in mem' && order'[i] <= b && b + mem[b].size <= order'[i] + mem'[order'[i]].size;
    assert order'[k] == order[k];
  }

  /** The two conditional updates of vfree. */
  function Splice(mem: Memory, p: int, b: int, q: int): (m: Memory)
    requires p in mem && b in mem && q in mem
  {
    var m := if b + mem[b].size == q then mem[b := Header(mem[q].ptr, mem[b].size + mem[q].size)]
             else mem[b := Header(q, mem[b].size)];
    if p + m[p].size == b then m[p := Header(m[b].ptr, m[p].size + m[b].size)] else m[p := Header(b, m[p].size)]
  }

  lemma SpliceSpec(base: int, mem: Memory, order: seq<int>, live: set<int>, home: map<int, int>, b: int, k: nat)
    requires Heap(base, mem, order, live, home) && b in live && b in mem && Slot(order, b, k)
    requires order[k] in mem && Next(order, k) in mem
    ensures var p, q := order[k], Next(order, k);
            Spliced(mem, Splice(mem, p, b, q), p, b, q,
                    k + 1 < |order| && b + mem[b].size == order[k + 1], p + mem[p].size == b)
    ensures order[k] !in live
  {
    Neighbours(base, mem, order, live, home, b, k);
    assert order[0] !in live by {
      StartsInHome(mem, Frees(order) + live, home);
    }
    assert base < b by {
      StartsInHome(mem, Frees(order) + live, home);
    }
    hide Circular, Coalesced, Partition, Frees;
  }

  /** No header of the free list is a live block's header. */
  lemma ListNotLive(base: int, mem: Memory, order: seq<int>, live: set<int>, home: map<int, int>, i: nat)
    requires Heap(base, mem, order, live, home) && 1 <= i < |order| && order[i] in mem
    ensures order[i] !in live && order[i - 1] !in live
  {
    StartsInHome(mem, Frees(order) + live, home);
    assert order[i] in Frees(order) && (i > 1 ==> order[i - 1] in Frees(order));
  }

  lemma Sentinel(base: int, mem: Memory)
    requires base in mem && mem[base] == Header(base, 0)
    ensures Heap(base, mem, [base], {}, map[]) && !Fits(mem, [base], 1)
  {
    assert Linked(mem, [base], 0) && Gap(mem, [base], 0);
    assert Frees([base]) == {};
  }

  // ----- a pool -----

  ghost predicate Fits(mem: Memory, order: seq<int>, n: nat) {
    exists i :: 0 <= i < |order| && order[i] in mem && mem[order[i]].size >= n
  }

  /** The n units at b lie inside one free block. */
  ghost predicate FreeAt(mem: Memory, order: seq<int>, b: int, n: nat) {
    exists i :: 1 <= i < |order| && order[i] in mem && order[i] <= b && b + n <= order[i] + mem[order[i]].size
  }

  /** The entry t steps on from entry f of a circle of n. */
  function Around(n: nat, f: nat, t: nat): (i: nat)
    requires f < n && t <= n
    ensures i < n
  {
    if f + t < n then f + t else f + t - n
  }

  predicate TooSmall(mem: Memory, order: seq<int>, i: nat, n: nat)
    requires i < |order|
  {
    order[i] in mem && mem[order[i]].size < n
  }

  /** Following the links from entry f visits each entry once before coming back to it. */
  lemma WalkOn(order: seq<int>, f: nat)
    requires Ascending(order) && f < |order|
    ensures forall t :: 0 <= t < |order| ==> Next(order, Around(|order|, f, t)) == order[Around(|order|, f, t + 1)]
    ensures forall t :: 0 <= t <= |order| && order[Around(|order|, f, t)] == order[f] ==> t == 0 || t == |order|
    ensures Around(|order|, f, 0) == f == Around(|order|, f, |order|)
  {
  }

  lemma StartSearch(base: int, mem: Memory, order: seq<int>, live: set<int>, home: map<int, int>, freep: int)
    returns (f: nat)
    requires Heap(base, mem, order, live, home) && freep in order
    ensures f < |order| && order[f] == freep && Ascending(order) && Gap(mem, order, 0)
    ensures forall j :: 0 <= j < |order| ==> Linked(mem, order, j)
  {
    f :| f < |order| && order[f] == freep;
  }

  lemma FitsAt(mem: Memory, order: seq<int>, i: nat, n: nat)
    requires i < |order| && order[i] in mem && mem[order[i]].size >= n
    ensures Fits(mem, order, n)
  {
  }

  lemma BeforeAround(mem: Memory, order: seq<int>, f: nat, t: nat)
    requires f < |order| && t < |order| && Gap(mem, order, 0) && order[Around(|order|, f, t + 1)] in mem
    ensures mem[order[Around(|order|, f, t + 1)]].size > 0 ==>
              Around(|order|, f, t + 1) > 0 && Around(|order|, f, t) == Around(|order|, f, t + 1) - 1
  {
  }

  lemma AllTooSmall(mem: Memory, order: seq<int>, f: nat, n: nat)
    requires f < |order| && forall t :: 1 <= t <= |order| ==> TooSmall(mem, order, Around(|order|, f, t), n)
    ensures !Fits(mem, order, n)
  {
    forall i | 0 <= i < |order| ensures order[i] in mem && mem[order[i]].size < n {
      assert TooSmall(mem, order, Around(|order|, f, if i > f then i - f else i - f + |order|), n);
    }
  }

  class Pool {
    const base: int
    /** The least number of units asked from the kernel at a time. */
    const minimum: nat
    var started: bool
    var freep: int
    var mem: Memory
    ghost var order: seq<int>
    ghost var live: set<int>
    ghost var home: map<int, int>

    ghost predicate Valid()
      reads this
    {
      if started then Heap(base, mem, order, live, home) && freep in order else live == {} && home == map[]
    }

    constructor (base: int, minimum: nat)
      ensures this.base == base && this.minimum == minimum && Valid() && !started && live == {} && home == map[]
    {
      this.base, this.minimum := base, minimum;
      started, freep, mem := false, base, map[];
      order, live, home := [], {}, map[];
    }

    lemma LiveUnits()
      requires Valid()
      ensures forall h :: h in live ==> h in mem && h in home
    {
      if started {
        StartsInHome(mem, Frees(order) + live, home);
      }
    }

    /** The last list entry below block b, found by walking on from freep. */
    method FindSlot(b: int) returns (p: int, ghost k: nat)
      requires Valid() && b in live
      ensures p in order && p < b && forall q :: q in order && q < b ==> q <= p
      ensures Slot(order, b, k) && order[k] == p
    {
      assert started && Heap(base, mem, order, live, home);
      assert b in mem && Covers(mem, b, b) && b !in order by {
        assert Linked(mem, order, 0);
        assert forall i :: 1 <= i < |order| ==> order[i] in Frees(order);
      }
      k := SlotExists(order, b);
      p := freep;
      ghost var i :| 0 <= i < |order| && order[i] == p;
      assert Linked(mem, order, i);
      while !(b > p && b < mem[p].ptr)
        invariant 0 <= i < |order| && order[i] == p && Linked(mem, order, i)
        decreases if i <= k then k - i else |order| - i + k
      {
        if p >= mem[p].ptr && (b > p || b < mem[p].ptr) {
          break;
        }
        p := mem[p].ptr;
        i := if i + 1 < |order| then i + 1 else 0;
        assert Linked(mem, order, i);
      }
      k := i;
    }

    /** vfree on the header b of a block handed out before. */
    method Vfree(b: int)
      requires Valid() && b in live && b in mem
      modifies `freep, `mem, `order, `live, `home
      ensures Valid() && live == old(live) - {b} && home.Keys == old(home.Keys)
      ensures forall h :: h in old(live) && h != b && h in old(mem) ==> h in mem && mem[h] == old(mem[h])
      ensures FreeAt(mem, order, b, old(mem[b].size))
    {
      ghost var k;
      var p;
      p, k := FindSlot(b);
      Neighbours(base, mem, order, live, home, b, k);
      hide Heap, Slot, Gap;
      SpliceIn(p, b);
      freep := p;
      hide Splice, Circular, Coalesced, Frees, Next, FreeAt;
      order, home := Freed(base, old(mem), mem, order, live, home, b, k);
      live := live - {b};
    }

    /** Put b behind p, joining it with the block after it and with p where they touch. */
    method SpliceIn(p: int, b: int)
      requires p in mem && b in mem && mem[p].ptr in mem
      modifies `mem
      ensures mem == Splice(old(mem), p, b, old(mem[p].ptr))
    {
      var q := mem[p].ptr;
      if b + mem[b].size == q {
        mem := mem[b := Header(mem[q].ptr, mem[b].size + mem[q].size)];
      } else {
        mem := mem[b := Header(q, mem[b].size)];
      }
      if p + mem[p].size == b {
        mem := mem[p := Header(mem[b].ptr, mem[p].size + mem[b].size)];
      } else {
        mem := mem[p := Header(b, mem[p].size)];
      }
    }

    /** Ask the kernel for at least n units and free them into the pool; `brk` is its answer. */
    method Morecore(n: nat, brk: Option<int>) returns (ok: bool)
      requires Valid() && started && n > 0
      requires brk.Some? ==> base < brk.value && Range(brk.value, Request(n)) !! home.Keys
      modifies `freep, `mem, `order, `live, `home
      ensures Valid() && live == old(live) && ok == brk.Some?
      ensures home.Keys == old(home.Keys) + if ok then Range(brk.value, Request(n)) else {}
      ensures forall h :: h in live && h in old(mem) ==> h in mem && mem[h] == old(mem[h])
      ensures if ok then Fits(mem, order, n) else mem == old(mem) && order == old(order) && home == old(home)
    {
      if brk.None? {
        return false;
      }
      var h := brk.value;
      ghost var home' := GainKeeps(base, mem, order, live, home, h, Request(n));
      mem := SetSize(mem, h, Request(n));
      home, live := home', live + {h};
      Vfree(h);
      ok := true;
    }

    function Request(n: nat): (r: nat)
      ensures r >= n && r >= minimum && (r == n || r == minimum)
    {
      if n < minimum then minimum else n
    }

    /** Walk once around the circle from behind freep, looking for n units. */
    method Search(n: nat) returns (found: bool, prevp: int, p: int, ghost i: nat)
      requires Valid() && started && n > 0
      ensures found == Fits(mem, order, n)
      ensures found ==> 1 <= i < |order| && order[i - 1] == prevp && order[i] == p
      ensures found ==> p in mem && mem[p].size >= n && prevp in mem
    {
      hide Heap, Around, Next, Gap, Fits;
      ghost var f := StartSearch(base, mem, order, live, home, freep);
      ghost var t := 0;
      WalkOn(order, f);
      prevp := freep;
      assert Linked(mem, order, f) && Linked(mem, order, Around(|order|, f, 1));
      p := mem[prevp].ptr;
      while mem[p].size < n
        invariant 0 <= t < |order| && prevp == order[Around(|order|, f, t)] && p == order[Around(|order|, f, t + 1)]
        invariant prevp in mem && p in mem
        invariant forall u :: 1 <= u <= t ==> TooSmall(mem, order, Around(|order|, f, u), n)
        decreases |order| - t
      {
        t := t + 1;
        assert TooSmall(mem, order, Around(|order|, f, t), n);
        if p == freep {
          AllTooSmall(mem, order, f, n);
          found, i := false, 0;
          return;
        }
        assert Linked(mem, order, Around(|order|, f, t)) && Linked(mem, order, Around(|order|, f, t + 1));
        prevp := p;
        p := mem[p].ptr;
      }
      found, i := true, Around(|order|, f, t + 1);
      BeforeAround(mem, order, f, t);
      FitsAt(mem, order, i, n);
    }

    /** Hand out the n units found at p: all of the block, or its tail. */
    method Take(prevp: int, p: int, n: nat, ghost i: nat) returns (b: int)
      requires Valid() && started && n > 0 && 1 <= i < |order| && order[i - 1] == prevp && order[i] == p
      requires p in mem && prevp in mem && mem[p].size >= n
      modifies `freep, `mem, `order, `live, `home
      ensures Valid() && b !in old(live) && live == old(live) + {b} && b in mem && mem[b].size == n
      ensures home.Keys == old(home.Keys) && FreeAt(old(mem), old(order), b, n)
      ensures forall h :: h in old(live) && h in old(mem) ==> h in mem && mem[h] == old(mem[h])
    {
      ListNotLive(base, mem, order, live, home, i);
      hide Heap;
      if mem[p].size == n {
        TakeWhole(base, mem, order, live, home, i, mem[prevp := Header(mem[p].ptr, mem[prevp].size)]);
        mem := mem[prevp := Header(mem[p].ptr, mem[prevp].size)];
        order := Drop(order, i);
        assert order[i - 1] == prevp;
        hide Drop;
        b := p;
      } else {
        home := TakeTail(base, mem, order, live, home, i, n);
        b := p + (mem[p].size - n);
        mem := Carve(mem, p, n);
      }
      live := live + {b};
      freep := prevp;
    }

    method Start()
      requires Valid() && !started
      modifies this
      ensures Valid() && started && live == old(live) == {} && home == old(home)
      ensures forall n: nat :: n > 0 ==> !Fits(mem, order, n)
    {
      started, freep, mem := true, base, mem[base := Header(base, 0)];
      order := [base];
      Sentinel(base, mem);
    }

    /** malloc for n units; `brk` is what the kernel would answer to a request for more. */
    method Malloc(n: nat, brk: Option<int>) returns (r: Option<int>, asked: bool)
      requires Valid() && n > 0
      requires brk.Some? ==> base < brk.value && Range(brk.value, Request(n)) !! home.Keys
      modifies this
      ensures Valid() && started && asked == !old(started && Fits(mem, order, n))
      ensures r.None? <==> asked && brk.None?
      ensures home.Keys == old(home.Keys) + if asked && brk.Some? then Range(brk.value, Request(n)) else {}
      ensures live == old(live) + if r.Some? then {r.value} else {}
      ensures r.Some? ==> r.value !in old(live) && r.value in mem && mem[r.value].size == n
      ensures forall h :: h in old(live) && h in old(mem) ==> h in mem && mem[h] == old(mem[h])
    {
      if !started {
        Start();
      }
      hide Valid;
      hide Fits, FreeAt;
      var prevp, p;
      ghost var i;
      asked, prevp, p, i := Find(n, brk);
      if asked && brk.None? {
        return None, true;
      }
      var b := Take(prevp, p, n, i);
      r := Some(b);
    }

    /** Search; if nothing fits, get more from the kernel and search again from freep. */
    method Find(n: nat, brk: Option<int>) returns (asked: bool, prevp: int, p: int, ghost i: nat)
      requires Valid() && started && n > 0
      requires brk.Some? ==> base < brk.value && Range(brk.value, Request(n)) !! home.Keys
      modifies `freep, `mem, `order, `live, `home
      ensures Valid() && started && live == old(live) && asked == !old(Fits(mem, order, n))
      ensures home.Keys == old(home.Keys) + if asked && brk.Some? then Range(brk.value, Request(n)) else {}
      ensures forall h :: h in live && h in old(mem) ==> h in mem && mem[h] == old(mem[h])
      ensures !(asked && brk.None?) ==> 1 <= i < |order| && order[i - 1] == prevp && order[i] == p
                                        && p in mem && mem[p].size >= n && prevp in mem
    {
      hide Valid;
      hide Fits, FreeAt, Range;
      var found;
      found, prevp, p, i := Search(n);
      asked := !found;
      if asked {
        var ok := Morecore(n, brk);
        if ok {
          found, prevp, p, i := Search(n);
        }
      }
    }
  }

  // ----- what the invariant amounts to -----

  ghost function Total(mem: Memory, bs: seq<int>): (n: nat)
    requires forall i :: 0 <= i < |bs| ==> bs[i] in mem
  {
    if bs == [] then 0 else Total(mem, bs[..|bs| - 1]) + mem[bs[|bs| - 1]].size
  }

  lemma {:induction false} RangeSize(h: int, n: nat)
    ensures |Range(h, n)| == n
  {
    if n > 0 {
      RangeSize(h, n - 1);
    }
  }

  ghost function Members(bs: seq<int>): (s: set<int>) {
    set i | 0 <= i < |bs| :: bs[i]
  }

  ghost function UnitsOf(home: map<int, int>, s: set<int>): (us: set<int>) {
    set u | u in home && home[u] in s
  }

  lemma BlockUnits(mem: Memory, blocks: set<int>, home: map<int, int>, s: set<int>, b: int)
    requires Partition(mem, blocks, home) && b in blocks && b !in s
    ensures |UnitsOf(home, s + {b})| == |UnitsOf(home, s)| + mem[b].size
  {
    RangeSize(b, mem[b].size);
    forall u ensures u in Range(b, mem[b].size) <==> u in home && home[u] == b {
      assert u in Range(b, mem[b].size) <==> Covers(mem, b, u);
    }
    assert UnitsOf(home, s + {b}) == UnitsOf(home, s) + Range(b, mem[b].size);
  }

  lemma {:induction false} CoveredUnits(mem: Memory, blocks: set<int>, home: map<int, int>, bs: seq<int>)
    requires Partition(mem, blocks, home) && Distinct(bs)
    requires forall i :: 0 <= i < |bs| ==> bs[i] in blocks && bs[i] in mem
    ensures |UnitsOf(home, Members(bs))| == Total(mem, bs)
    decreases |bs|
  {
    if bs == [] {
      assert UnitsOf(home, Members(bs)) == {};
    } else {
      var n := |bs| - 1;
      CoveredUnits(mem, blocks, home, bs[..n]);
      assert Members(bs) == Members(bs[..n]) + {bs[n]};
      BlockUnits(mem, blocks, home, Members(bs[..n]), bs[n]);
    }
  }

  lemma HasHeader(mem: Memory, blocks: set<int>, home: map<int, int>, b: int)
    requires Partition(mem, blocks, home) && b in blocks
    ensures b in mem
  {
  }

  lemma AllUnits(mem: Memory, blocks: set<int>, home: map<int, int>)
    requires Partition(mem, blocks, home)
    ensures UnitsOf(home, blocks) == home.Keys
  {
    forall u | u in home.Keys ensures u in UnitsOf(home, blocks) {
      assert home[u] in blocks;
    }
  }

  /** The sizes of the free and the live blocks, listed in any way, add up to the units got from the kernel. */
  lemma Conservation(base: int, mem: Memory, order: seq<int>, live: set<int>, home: map<int, int>, bs: seq<int>)
    requires Heap(base, mem, order, live, home)
    requires Distinct(bs) && Members(bs) == Frees(order) + live
    ensures (forall i :: 0 <= i < |bs| ==> bs[i] in mem) && Total(mem, bs) == |home.Keys|
  {
    var blocks := Frees(order) + live;
    hide Frees, Circular, Coalesced, Partition;
    forall i | 0 <= i < |bs| ensures bs[i] in blocks && bs[i] in mem {
      assert bs[i] in Members(bs);
      HasHeader(mem, blocks, home, bs[i]);
    }
    CoveredUnits(mem, blocks, home, bs);
    AllUnits(mem, blocks, home);
  }

  /** Once everything is freed, a contiguous heap is the sentinel plus one block that covers it all. */
  lemma FreedEverything(base: int, mem: Memory, order: seq<int>, home: map<int, int>, lo: int, n: nat)
    requires Heap(base, mem, order, {}, home) && n > 0 && home.Keys == Range(lo, n)
    ensures order == [base, lo] && lo in mem && mem[lo].size == n
  {
    var blocks := Frees(order) + {};
    StartsInHome(mem, blocks, home);
    assert lo in home && home[lo] in blocks && Covers(mem, home[lo], lo);
    assert lo in Frees(order);
    assert |order| > 1 && order[1] in Frees(order) && order[1] == lo;
    assert Gap(mem, order, 1) && Linked(mem, order, 1);
    var end := lo + mem[lo].size;
    assert end <= lo + n by { assert Covers(mem, lo, end - 1); }
    FirstFreeEnds(mem, order, home, lo);
    assert order[|order| - 1] in Frees(order);
  }

  /** The unit behind the first free block belongs to no block, when all blocks are free. */
  lemma FirstFreeEnds(mem: Memory, order: seq<int>, home: map<int, int>, lo: int)
    requires Circular(mem, order) && Coalesced(mem, order) && Partition(mem, Frees(order), home)
    requires |order| > 1 && order[1] == lo && lo in mem && Gap(mem, order, 1)
    ensures lo + mem[lo].size !in home
    ensures forall i :: 2 <= i < |order| ==> order[i] > lo + mem[lo].size
  {
    var end := lo + mem[lo].size;
    forall i | 2 <= i < |order| ensures order[i] > end {
      assert order[2] <= order[i];
    }
    forall u | u in home ensures u != end {
      assert Covers(mem, home[u], u);
      var i :| 1 <= i < |order| && order[i] == home[u];
    }
  }

  // ----- the two pools -----

  const HEADER := 8
  const HUGE_START := 0x1E00_0000 / HEADER
  const REQUEST_LIMIT := 0x8000_0000 - HEADER

  /** The least number of units for nbytes and a header. */
  function Units(nbytes: nat): (n: nat)
    ensures n > 0 && (n - 1) * HEADER >= nbytes && (n > 1 ==> (n - 2) * HEADER < nbytes)
  {
    (nbytes + HEADER - 1) / HEADER + 1
  }

  class Allocator {
    const small: Pool
    const huge: Pool

    constructor (base: int, hugebase: int)
      ensures Valid() && fresh(small) && fresh(huge) && small.live == huge.live == {}
    {
      small := new Pool(base, 4096);
      huge := new Pool(hugebase, 0x40_0000 / HEADER);
    }

    ghost predicate Valid()
      reads this, small, huge
    {
      && small != huge && small.Valid() && huge.Valid()
      && small.minimum == 4096 && huge.minimum == 0x40_0000 / HEADER
      && (forall u :: u in small.home ==> u < HUGE_START - 1)
      && (forall u :: u in huge.home ==> u >= HUGE_START)
    }

    /** vmalloc; `brk` is what sbrk or shugebrk would answer. Also malloc, which picks the huge pool
        for more than 1000000 bytes when transparent huge pages are on. */
    method Vmalloc(nbytes: nat, wantHuge: bool, brk: Option<int>) returns (ap: Option<int>, asked: bool)
      requires Valid() && nbytes < REQUEST_LIMIT
      requires var pool := if wantHuge then huge else small;
               brk.Some? ==> Granted(pool, brk.value, pool.Request(Units(nbytes)))
      modifies small, huge
      ensures Valid()
      ensures var pool := if wantHuge then huge else small;
              && unchanged(if wantHuge then small else huge)
              && (ap.None? <==> asked && brk.None?)
              && asked == !old(pool.started && Fits(pool.mem, pool.order, Units(nbytes)))
              && pool.live == old(pool.live) + (if ap.Some? then {ap.value - 1} else {})
              && (ap.Some? ==> ap.value - 1 !in old(pool.live) && ap.value - 1 in pool.mem
                               && (pool.mem[ap.value - 1].size - 1) * HEADER >= nbytes
                               && (pool.mem[ap.value - 1].size > 1 ==>
                                     (pool.mem[ap.value - 1].size - 2) * HEADER < nbytes))
              && pool.home.Keys == old(pool.home.Keys)
                                   + (if asked && brk.Some? then Range(brk.value, pool.Request(Units(nbytes))) else {})
              && (forall h :: h in old(pool.live) ==>
                    h in old(pool.mem) && h in pool.mem && pool.mem[h] == old(pool.mem)[h])
    {
      small.LiveUnits();
      huge.LiveUnits();
      var r;
      if wantHuge {
        r, asked := huge.Malloc(Units(nbytes), brk);
      } else {
        r, asked := small.Malloc(Units(nbytes), brk);
      }
      ap := if r.Some? then Some(r.value + 1) else None;
    }

    /** What the kernel may answer: fresh units, on the right side of the boundary. */
    ghost predicate Granted(pool: Pool, h: int, n: nat)
      reads this, pool
    {
      && pool.base < h && Range(h, n) !! pool.home.Keys
      && (if pool == huge then HUGE_START <= h else h + n < HUGE_START)
    }

    /** The address test finds the pool the block came from. */
    method Vfree(ap: int)
      requires Valid() && (ap - 1 in small.live || ap - 1 in huge.live)
      modifies small, huge
      ensures Valid() && small.live == old(small.live) - {ap - 1} && huge.live == old(huge.live) - {ap - 1}
      ensures small.home.Keys == old(small.home.Keys) && huge.home.Keys == old(huge.home.Keys)
      ensures if old(ap - 1 in small.live) then unchanged(huge) else unchanged(small)
      ensures var pool := if old(ap - 1 in small.live) then small else huge;
              && ap - 1 in old(pool.mem) && FreeAt(pool.mem, pool.order, ap - 1, old(pool.mem)[ap - 1].size)
              && (forall h :: h in old(pool.live) && h != ap - 1 ==>
                    h in old(pool.mem) && h in pool.mem && pool.mem[h] == old(pool.mem)[h])
    {
      small.LiveUnits();
      huge.LiveUnits();
      if ap >= HUGE_START {
        huge.Vfree(ap - 1);
      } else {
        small.Vfree(ap - 1);
      }
    }
  }
}
