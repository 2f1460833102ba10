/** Pipes (pipe.c) as an interleaved machine: any number of processes write, read and close under
    p->lock, sleep on the two counters and are killed at any moment. `stored` and `delivered` record
    every byte ever put into and taken out of the ring; the counters themselves wrap at 32 bits. */
module Pipe {
  import opened Blocks

  const PIPESIZE := 512

  /** Where a process is inside pipewrite or piperead. */
  datatype Task =
    | Idle
    | WantWrite(buf: seq<byte>, i: nat)
    | Writing(buf: seq<byte>, i: nat)
    | WriteAsleep(buf: seq<byte>, i: nat)
    | WantRead(n: int)
    | Testing(n: int)
    | ReadAsleep(n: int)
    | Copying(n: int, got: seq<byte>)

  datatype State = State(
    data: seq<byte>, nread: uint32, nwrite: uint32, readopen: bool, writeopen: bool,
    lock: Option<nat>, tasks: seq<Task>, killed: set<nat>, freed: bool,
    stored: seq<byte>, delivered: seq<byte>)
  {
    predicate Full() {
      nwrite == (nread + PIPESIZE) % WORD_LIMIT
    }

    predicate Empty() {
      nread == nwrite
    }

    /** wakeup(&p->nread) */
    function WakeReaders(): (s: State)
      ensures |s.tasks| == |tasks| && s == this.(tasks := s.tasks)
      ensures forall p :: 0 <= p < |tasks| ==>
                s.tasks[p] == if tasks[p].ReadAsleep? then WantRead(tasks[p].n) else tasks[p]
    {
      this.(tasks := seq(|tasks|, p requires 0 <= p < |tasks| =>
        if tasks[p].ReadAsleep? then WantRead(tasks[p].n) else tasks[p]))
    }

    /** wakeup(&p->nwrite) */
    function WakeWriters(): (s: State)
      ensures |s.tasks| == |tasks| && s == this.(tasks := s.tasks)
      ensures forall p :: 0 <= p < |tasks| ==>
                s.tasks[p] == if tasks[p].WriteAsleep? then WantWrite(tasks[p].buf, tasks[p].i) else tasks[p]
    {
      this.(tasks := seq(|tasks|, p requires 0 <= p < |tasks| =>
        if tasks[p].WriteAsleep? then WantWrite(tasks[p].buf, tasks[p].i) else tasks[p]))
    }

    /** Process p goes on as `t`, releasing the lock. */
    function Release(p: nat, t: Task): (s: State)
      requires p < |tasks|
    {
      this.(tasks := tasks[p := t], lock := None)
    }
  }

  datatype Step =
    | StartWrite(p: nat, buf: seq<byte>)
    | StartRead(p: nat, n: int)
    | Acquire(p: nat)
    | Store(p: nat)
    | SleepWrite(p: nat)
    | AbortWrite(p: nat)
    | EndWrite(p: nat)
    | SleepRead(p: nat)
    | AbortRead(p: nat)
    | StartCopy(p: nat)
    | Copy(p: nat)
    | EndCopy(p: nat)
    | Close(writable: bool)
    | Kill(p: nat)

  /** The guards. The killed flag is read without ptable.lock, so a process killed just after its
      test may still go to sleep. */
  predicate Enabled(s: State, x: Step) {
    && !s.freed && |s.data| == PIPESIZE
    && (x.Close? || x.p < |s.tasks|)
    && match x {
      case StartWrite(p, _) => s.tasks[p].Idle?
      case StartRead(p, _) => s.tasks[p].Idle?
      case Acquire(p) => s.lock.None? && (s.tasks[p].WantWrite? || s.tasks[p].WantRead?)
      case Store(p) => s.tasks[p].Writing? && s.tasks[p].i < |s.tasks[p].buf| && !s.Full()
      case SleepWrite(p) => s.tasks[p].Writing? && s.tasks[p].i < |s.tasks[p].buf| && s.Full() && s.readopen
      case AbortWrite(p) => s.tasks[p].Writing? && s.tasks[p].i < |s.tasks[p].buf| && s.Full()
                            && (!s.readopen || p in s.killed)
      case EndWrite(p) => s.tasks[p].Writing? && s.tasks[p].i >= |s.tasks[p].buf|
      case SleepRead(p) => s.tasks[p].Testing? && s.Empty() && s.writeopen
      case AbortRead(p) => s.tasks[p].Testing? && s.Empty() && s.writeopen && p in s.killed
      case StartCopy(p) => s.tasks[p].Testing? && !(s.Empty() && s.writeopen)
      case Copy(p) => s.tasks[p].Copying? && |s.tasks[p].got| < s.tasks[p].n && !s.Empty()
      case EndCopy(p) => s.tasks[p].Copying? && (|s.tasks[p].got| >= s.tasks[p].n || s.Empty())
      case Close(_) => s.lock.None?
      case Kill(_) => true
    }
  }

  function Next(s: State, x: Step): (t: State)
    requires Enabled(s, x)
  {
    match x
    case StartWrite(p, buf) => s.(tasks := s.tasks[p := WantWrite(buf, 0)])
    case StartRead(p, n) => s.(tasks := s.tasks[p := WantRead(n)])
    case Acquire(p) =>
      var t := if s.tasks[p].WantWrite? then Writing(s.tasks[p].buf, s.tasks[p].i) else Testing(s.tasks[p].n);
      s.(tasks := s.tasks[p := t], lock := Some(p))
    case Store(p) =>
      var b := s.tasks[p].buf[s.tasks[p].i];
      s.(data := s.data[s.nwrite % PIPESIZE := b], nwrite := (s.nwrite + 1) % WORD_LIMIT,
         tasks := s.tasks[p := Writing(s.tasks[p].buf, s.tasks[p].i + 1)], stored := s.stored + [b])
    case SleepWrite(p) => s.WakeReaders().Release(p, WriteAsleep(s.tasks[p].buf, s.tasks[p].i))
    case AbortWrite(p) => s.Release(p, Idle)
    case EndWrite(p) => s.WakeReaders().Release(p, Idle)
    case SleepRead(p) => s.Release(p, ReadAsleep(s.tasks[p].n))
    case AbortRead(p) => s.Release(p, Idle)
    case StartCopy(p) => s.(tasks := s.tasks[p := Copying(s.tasks[p].n, [])])
    case Copy(p) =>
      var b := s.data[s.nread % PIPESIZE];
      s.(nread := (s.nread + 1) % WORD_LIMIT, delivered := s.delivered + [b],
         tasks := s.tasks[p := Copying(s.tasks[p].n, s.tasks[p].got + [b])])
    case EndCopy(p) => s.WakeWriters().Release(p, Idle)
    case Close(writable) =>
      var t := if writable then s.(writeopen := false).WakeReaders() else s.(readopen := false).WakeWriters();
      t.(freed := !t.readopen && !t.writeopen)
    case Kill(p) =>
      var t := match s.tasks[p]
               case WriteAsleep(buf, i) => WantWrite(buf, i)
               case ReadAsleep(n) => WantRead(n)
               case other => other;
      s.(killed := s.killed + {p}, tasks := s.tasks[p := t])
  }

  ghost predicate Init(s: State) {
    && |s.data| == PIPESIZE && s.nread == 0 && s.nwrite == 0 && s.readopen && s.writeopen && !s.freed
    && s.lock.None? && s.stored == [] && s.delivered == [] && s.killed == {}
    && (forall p :: 0 <= p < |s.tasks| ==> s.tasks[p].Idle?)
  }

  // ----- wrapping counters -----

  lemma WrapMod(x: nat)
    ensures (x % WORD_LIMIT) % PIPESIZE == x % PIPESIZE
  {
    var q, r := x / WORD_LIMIT, x % WORD_LIMIT;
    assert x == (q * 8388608) * PIPESIZE + r;
    ModShift(q * 8388608, r);
  }

  lemma {:induction false} ModShift(k: nat, r: nat)
    ensures (k * PIPESIZE + r) % PIPESIZE == r % PIPESIZE
  {
    if k > 0 {
      ModShift(k - 1, r);
      assert (k * PIPESIZE + r) == ((k - 1) * PIPESIZE + r) + PIPESIZE;
    }
  }

  lemma WrapNext(x: nat)
    ensures (x % WORD_LIMIT + 1) % WORD_LIMIT == (x + 1) % WORD_LIMIT
  {
  }

  /** Within one ring's length of each other, wrapped counters compare as the true ones do. */
  lemma WrapCompare(a: nat, b: nat)
    requires a <= b <= a + PIPESIZE
    ensures b % WORD_LIMIT == a % WORD_LIMIT <==> b == a
    ensures b % WORD_LIMIT == (a % WORD_LIMIT + PIPESIZE) % WORD_LIMIT <==> b == a + PIPESIZE
  {
  }

  lemma RingSlots(a: nat, b: nat)
    requires a < b < a + PIPESIZE
    ensures a % PIPESIZE != b % PIPESIZE
  {
  }

  // ----- what every step keeps -----

  /** The ring holds exactly the bytes stored and not yet delivered. */
  ghost predicate Ring(s: State) {
    && |s.data| == PIPESIZE
    && |s.delivered| <= |s.stored| <= |s.delivered| + PIPESIZE
    && s.delivered == s.stored[..|s.delivered|]
    && s.nread == |s.delivered| % WORD_LIMIT && s.nwrite == |s.stored| % WORD_LIMIT
    && (forall k :: |s.delivered| <= k < |s.stored| ==> s.data[k % PIPESIZE] == s.stored[k])
  }

  predicate Holding(t: Task) {
    t.Writing? || t.Testing? || t.Copying?
  }

  ghost predicate Locked(s: State) {
    forall p: nat :: p < |s.tasks| ==> (Holding(s.tasks[p]) <==> s.lock == Some(p))
  }

  predicate Copier(s: State) {
    s.lock.Some? && s.lock.value < |s.tasks| && s.tasks[s.lock.value].Copying?
  }

  predicate Storer(s: State) {
    s.lock.Some? && s.lock.value < |s.tasks| && s.tasks[s.lock.value].Writing?
  }

  /** A writer sleeps on a full pipe with a reader left, unless a reader is just taking bytes out. */
  ghost predicate WritersSound(s: State) {
    forall p :: 0 <= p < |s.tasks| && s.tasks[p].WriteAsleep? ==> (s.Full() && s.readopen) || Copier(s)
  }

  /** A reader sleeps on an empty pipe with a writer left, unless a writer is just putting bytes in. */
  ghost predicate ReadersSound(s: State) {
    forall p :: 0 <= p < |s.tasks| && s.tasks[p].ReadAsleep? ==> (s.Empty() && s.writeopen) || Storer(s)
  }

  /** What a read has copied so far is the end of what was delivered; nothing only at end of file. */
  ghost predicate CopiesSound(s: State) {
    forall p :: 0 <= p < |s.tasks| && s.tasks[p].Copying? ==> CopySound(s, s.tasks[p].got)
  }

  predicate CopySound(s: State, got: seq<byte>) {
    && |got| <= |s.delivered| && s.delivered[|s.delivered| - |got|..] == got
    && (got == [] && s.Empty() ==> !s.writeopen)
  }

  ghost predicate Inv(s: State) {
    Ring(s) && Locked(s) && WritersSound(s) && CopiesSound(s)
  }

  /** Full and empty, as the code tests them, mean what they say. */
  lemma Tests(s: State)
    requires Ring(s)
    ensures s.Full() <==> |s.stored| == |s.delivered| + PIPESIZE
    ensures s.Empty() <==> s.stored == s.delivered
  {
    WrapCompare(|s.delivered|, |s.stored|);
  }

  lemma StoreKeepsRing(s: State, x: Step)
    requires Ring(s) && x.Store? && Enabled(s, x)
    ensures Ring(Next(s, x))
  {
    Tests(s);
    var t := Next(s, x);
    WrapMod(|s.stored|);
    WrapNext(|s.stored|);
    forall k | |t.delivered| <= k < |t.stored| ensures t.data[k % PIPESIZE] == t.stored[k] {
      if k < |s.stored| {
        RingSlots(k, |s.stored|);
      }
    }
  }

  lemma CopyKeepsRing(s: State, x: Step)
    requires Ring(s) && x.Copy? && Enabled(s, x)
    ensures Ring(Next(s, x))
  {
    Tests(s);
    WrapMod(|s.delivered|);
    WrapNext(|s.delivered|);
    assert s.stored[..|s.delivered| + 1] == s.delivered + [s.stored[|s.delivered|]];
  }

  lemma StepKeepsRing(s: State, x: Step)
    requires Ring(s) && Enabled(s, x)
    ensures Ring(Next(s, x))
  {
    if x.Store? {
      StoreKeepsRing(s, x);
    } else if x.Copy? {
      CopyKeepsRing(s, x);
    }
  }

  lemma StepKeepsLock(s: State, x: Step)
    requires Locked(s) && Enabled(s, x)
    ensures Locked(Next(s, x))
  {
  }

  lemma StepKeepsWriters(s: State, x: Step)
    requires Ring(s) && Locked(s) && WritersSound(s) && Enabled(s, x)
    ensures WritersSound(Next(s, x))
  {
  }

  lemma CopyKeepsCopies(s: State, x: Step)
    requires Locked(s) && CopiesSound(s) && x.Copy? && Enabled(s, x)
    ensures CopiesSound(Next(s, x))
  {
    var t := Next(s, x);
    var got, got' := s.tasks[x.p].got, t.tasks[x.p].got;
    assert CopySound(s, got);
    assert t.delivered[|t.delivered| - |got'|..] == s.delivered[|s.delivered| - |got|..] + [got'[|got|]];
    assert CopySound(t, got');
  }

  lemma StepKeepsCopies(s: State, x: Step)
    requires Locked(s) && CopiesSound(s) && Enabled(s, x)
    ensures CopiesSound(Next(s, x))
  {
    if x.Copy? {
      CopyKeepsCopies(s, x);
    } else {
      var t := Next(s, x);
      forall p | 0 <= p < |t.tasks| && t.tasks[p].Copying? ensures CopySound(t, t.tasks[p].got) {
        if x.StartCopy? && p == x.p {
          assert t.tasks[p].got == [];
        } else {
          assert s.tasks[p] == t.tasks[p];
          assert CopySound(s, s.tasks[p].got);
        }
      }
    }
  }

  lemma StepKeeps(s: State, x: Step)
    requires Inv(s) && Enabled(s, x)
    ensures Inv(Next(s, x))
  {
    StepKeepsRing(s, x);
    StepKeepsLock(s, x);
    StepKeepsWriters(s, x);
    StepKeepsCopies(s, x);
  }

  // ----- whole runs -----

  /** xs takes the machine from an initial state through ss. */
  ghost predicate Run(ss: seq<State>, xs: seq<Step>) {
    && |ss| == |xs| + 1 && Init(ss[0])
    && (forall i :: 0 <= i < |xs| ==> Enabled(ss[i], xs[i]) && ss[i + 1] == Next(ss[i], xs[i]))
  }

  lemma {:induction false} RunKeeps(ss: seq<State>, xs: seq<Step>, i: nat)
    requires Run(ss, xs) && i < |ss|
    ensures Inv(ss[i])
  {
    if i > 0 {
      RunKeeps(ss, xs, i - 1);
      StepKeeps(ss[i - 1], xs[i - 1]);
      assert ss[i - 1 + 1] == Next(ss[i - 1], xs[i - 1]);
    }
  }

  /** Bytes come out in the order they went in, with at most PIPESIZE between, however often the
      32-bit counters wrap; and while the lock is free a sleeping writer faces a full pipe that
      still has a reader. */
  lemma PipeOrder(ss: seq<State>, xs: seq<Step>, i: nat)
    requires Run(ss, xs) && i < |ss|
    ensures ss[i].delivered <= ss[i].stored && |ss[i].stored| - |ss[i].delivered| <= PIPESIZE
    ensures ss[i].nwrite == |ss[i].stored| % WORD_LIMIT && ss[i].nread == |ss[i].delivered| % WORD_LIMIT
    ensures ss[i].lock.None? ==> forall p :: 0 <= p < |ss[i].tasks| && ss[i].tasks[p].WriteAsleep? ==>
              |ss[i].stored| == |ss[i].delivered| + PIPESIZE && ss[i].readopen
  {
    RunKeeps(ss, xs, i);
    Tests(ss[i]);
  }

  /** Whoever holds p->lock can go on: no run gets stuck with the lock held. */
  lemma HolderGoesOn(ss: seq<State>, xs: seq<Step>, i: nat) returns (x: Step)
    requires Run(ss, xs) && i < |ss| && ss[i].lock.Some?
    ensures !x.Close? && x.p == ss[i].lock.value && !x.Kill? && Enabled(ss[i], x)
  {
    RunKeeps(ss, xs, i);
    var s := ss[i];
    var p := s.lock.value;
    HolderIsThere(ss, xs, i);
    match s.tasks[p]
    case Writing(buf, n) =>
      x := if n >= |buf| then EndWrite(p) else if !s.Full() then Store(p)
           else if s.readopen then SleepWrite(p) else AbortWrite(p);
    case Testing(n) => x := if s.Empty() && s.writeopen then SleepRead(p) else StartCopy(p);
    case Copying(n, got) => x := if |got| < n && !s.Empty() then Copy(p) else EndCopy(p);
  }

  /** A lock that is held is held by a process, on a pipe that is not freed. */
  lemma {:induction false} HolderIsThere(ss: seq<State>, xs: seq<Step>, i: nat)
    requires Run(ss, xs) && i < |ss|
    ensures ss[i].lock.Some? ==>
              ss[i].lock.value < |ss[i].tasks| && Holding(ss[i].tasks[ss[i].lock.value]) && !ss[i].freed
    ensures |ss[i].data| == PIPESIZE
  {
    RunKeeps(ss, xs, i);
    if i > 0 {
      HolderIsThere(ss, xs, i - 1);
      assert ss[i - 1 + 1] == Next(ss[i - 1], xs[i - 1]);
      EndsStep(ss[i - 1], xs[i - 1]);
    }
  }

  /** Each end is open until somebody closes it, closing one leaves the other, and the pipe is freed when
      both are closed. */
  lemma {:induction false} EndsAre(ss: seq<State>, xs: seq<Step>, i: nat)
    requires Run(ss, xs) && i < |ss|
    ensures ss[i].writeopen <==> Close(true) !in xs[..i]
    ensures ss[i].readopen <==> Close(false) !in xs[..i]
    ensures ss[i].freed <==> Close(true) in xs[..i] && Close(false) in xs[..i]
  {
    if i > 0 {
      EndsAre(ss, xs, i - 1);
      assert xs[..i] == xs[..i - 1] + [xs[i - 1]];
      assert ss[i - 1 + 1] == Next(ss[i - 1], xs[i - 1]);
      EndsStep(ss[i - 1], xs[i - 1]);
    }
  }

  lemma EndsStep(s: State, x: Step)
    requires Enabled(s, x)
    ensures var t := Next(s, x);
            && t.writeopen == (s.writeopen && x != Close(true)) && t.readopen == (s.readopen && x != Close(false))
            && t.freed == if x.Close? then !t.writeopen && !t.readopen else s.freed
  {
  }

  /** Closing an end wakes everybody who sleeps at the other. */
  lemma CloseWakes(s: State, writable: bool)
    requires Enabled(s, Close(writable))
    ensures var t := Next(s, Close(writable));
            |t.tasks| == |s.tasks| && forall p :: 0 <= p < |t.tasks| ==>
              && !(if writable then t.tasks[p].ReadAsleep? else t.tasks[p].WriteAsleep?)
              && (!s.tasks[p].ReadAsleep? && !s.tasks[p].WriteAsleep? ==> t.tasks[p] == s.tasks[p])
  {
  }

  /** A read that ends returns the last bytes delivered; it ends with none, though it asked for some,
      only when everything ever stored was delivered and no writer is left. */
  lemma ReadReturns(ss: seq<State>, xs: seq<Step>, i: nat)
    requires Run(ss, xs) && i < |xs| && xs[i].EndCopy? && xs[i].p < |ss[i].tasks| && ss[i].tasks[xs[i].p].Copying?
    ensures var t := ss[i].tasks[xs[i].p];
            && |t.got| <= |ss[i].delivered| && ss[i].delivered[|ss[i].delivered| - |t.got|..] == t.got
            && (t.n > 0 && t.got == [] ==> !ss[i].writeopen && ss[i].delivered == ss[i].stored)
            && (|t.got| < t.n ==> ss[i].delivered == ss[i].stored)
  {
    RunKeeps(ss, xs, i);
    Tests(ss[i]);
    assert Enabled(ss[i], xs[i]);
    assert CopySound(ss[i], ss[i].tasks[xs[i].p].got);
  }

  // ----- whose bytes are stored -----

  predicate InWrite(t: Task) {
    t.WantWrite? || t.Writing? || t.WriteAsleep?
  }

  predicate Writer(t: Task) {
    InWrite(t) && t.i <= |t.buf|
  }

  /** The bytes lie in `stored` in order, at the positions `at`, none before `from`. */
  ghost predicate Placed(stored: seq<byte>, bytes: seq<byte>, from: nat, at: seq<nat>) {
    && |at| == |bytes|
    && (forall j :: 0 <= j < |at| ==> from <= at[j] < |stored| && stored[at[j]] == bytes[j])
    && (forall j, k :: 0 <= j < k < |at| ==> at[j] < at[k])
  }

  /** How often two bytes that follow each other are not stored side by side. */
  function Gaps(at: seq<nat>): (n: nat) {
    if |at| < 2 then 0
    else Gaps(at[..|at| - 1]) + if at[|at| - 1] == at[|at| - 2] + 1 then 0 else 1
  }

  function Sleeps(xs: seq<Step>, p: nat): (n: nat) {
    if xs == [] then 0 else Sleeps(xs[..|xs| - 1], p) + if xs[|xs| - 1] == SleepWrite(p) then 1 else 0
  }

  /** The writer holds the lock and its last byte is the last one stored. */
  ghost predicate Tight(s: State, p: nat, at: seq<nat>)
    requires p < |s.tasks|
  {
    at == [] || (s.tasks[p].Writing? && at[|at| - 1] == |s.stored| - 1)
  }

  /** Where the write of process p stands: its bytes so far, cut apart no more often than it slept. */
  ghost predicate InPlace(s: State, p: nat, from: nat, at: seq<nat>, sleeps: nat) {
    && p < |s.tasks| && Writer(s.tasks[p])
    && Placed(s.stored, s.tasks[p].buf[..s.tasks[p].i], from, at)
    && Gaps(at) + (if Tight(s, p, at) then 0 else 1) <= sleeps
  }

  lemma PlacedMore(stored: seq<byte>, bytes: seq<byte>, from: nat, at: seq<nat>, b: byte)
    requires Placed(stored, bytes, from, at) && from <= |stored|
    ensures Placed(stored + [b], bytes + [b], from, at + [|stored|])
  {
  }

  lemma GapsMore(at: seq<nat>, x: nat)
    ensures Gaps(at + [x]) == Gaps(at) + if at == [] || x == at[|at| - 1] + 1 then 0 else 1
  {
    assert (at + [x])[..|at|] == at;
  }

  lemma StorePlaced(s: State, p: nat, from: nat, at: seq<nat>, sleeps: nat)
    requires Enabled(s, Store(p)) && InPlace(s, p, from, at, sleeps) && from <= |s.stored|
    ensures InPlace(Next(s, Store(p)), p, from, at + [|s.stored|], sleeps)
  {
    hide Placed, Gaps;
    var buf, i := s.tasks[p].buf, s.tasks[p].i;
    assert buf[..i + 1] == buf[..i] + [buf[i]];
    PlacedMore(s.stored, buf[..i], from, at, buf[i]);
    GapsMore(at, |s.stored|);
  }

  /** A step other than the writer's own stores leaves its bytes where they are. */
  lemma OtherPlaced(s: State, x: Step, p: nat, from: nat, at: seq<nat>, sleeps: nat)
    requires Locked(s) && Enabled(s, x) && InPlace(s, p, from, at, sleeps) && x != Store(p)
    requires Writer(Next(s, x).tasks[p]) && !(x.StartWrite? && x.p == p)
    ensures InPlace(Next(s, x), p, from, at, sleeps + if x == SleepWrite(p) then 1 else 0)
    ensures Next(s, x).tasks[p].buf == s.tasks[p].buf
  {
    OtherTask(s, x, p);
    hide Next, Enabled, Gaps;
  }

  lemma OtherTask(s: State, x: Step, p: nat)
    requires Locked(s) && Enabled(s, x) && p < |s.tasks| && Writer(s.tasks[p]) && x != Store(p)
    requires Writer(Next(s, x).tasks[p]) && !(x.StartWrite? && x.p == p)
    ensures var t := Next(s, x);
            && |t.tasks| == |s.tasks| && s.stored <= t.stored
            && t.tasks[p].buf == s.tasks[p].buf && t.tasks[p].i == s.tasks[p].i
            && (s.tasks[p].Writing? && x != SleepWrite(p) ==> t.tasks[p] == s.tasks[p] && t.stored == s.stored)
  {
    assert s.tasks[p].Writing? ==> s.lock == Some(p);
  }

  lemma WriterBefore(s: State, x: Step, p: nat)
    requires Enabled(s, x) && p < |s.tasks| && Writer(Next(s, x).tasks[p]) && !(x.StartWrite? && x.p == p)
    ensures Writer(s.tasks[p]) && |Next(s, x).tasks| == |s.tasks|
  {
  }

  lemma StartPlaced(s: State, p: nat, buf: seq<byte>, sleeps: nat)
    requires Enabled(s, StartWrite(p, buf))
    ensures InPlace(Next(s, StartWrite(p, buf)), p, |s.stored|, [], sleeps)
    ensures Next(s, StartWrite(p, buf)).tasks[p].buf == buf
  {
  }

  /** Step i of a run. */
  lemma RunAt(ss: seq<State>, xs: seq<Step>, i: nat)
    requires Run(ss, xs) && i < |xs|
    ensures i + 1 < |ss| && Enabled(ss[i], xs[i]) && ss[i + 1] == Next(ss[i], xs[i])
    ensures |ss[i + 1].tasks| == |ss[i].tasks| && ss[i].stored <= ss[i + 1].stored
  {
  }

  lemma LockHere(ss: seq<State>, xs: seq<Step>, i: nat)
    requires Run(ss, xs) && i < |ss|
    ensures Locked(ss[i])
  {
    RunKeeps(ss, xs, i);
  }

  lemma SleepsNext(xs: seq<Step>, a: nat, e: nat, p: nat)
    requires a <= e < |xs|
    ensures Sleeps(xs[a..e + 1], p) == Sleeps(xs[a..e], p) + if xs[e] == SleepWrite(p) then 1 else 0
  {
    assert xs[a..e + 1][..e - a] == xs[a..e];
  }

  lemma NotAtStart(ss: seq<State>, xs: seq<Step>, e: nat, p: nat)
    requires Run(ss, xs) && e < |ss| && p < |ss[e].tasks| && Writer(ss[e].tasks[p])
    ensures 0 < e <= |xs| && |ss| == |xs| + 1 && p < |ss[e - 1].tasks|
  {
    if e > 0 {
      RunAt(ss, xs, e - 1);
    }
  }

  lemma CallPlaced(ss: seq<State>, xs: seq<Step>, a: nat, p: nat)
    requires Run(ss, xs) && a < |xs| && xs[a].StartWrite? && xs[a].p == p && p < |ss[a].tasks|
    ensures var e := a + 1;
            && p < |ss[e].tasks| && InPlace(ss[e], p, |ss[a].stored|, [], Sleeps(xs[a..e], p))
            && Writer(ss[e].tasks[p]) && xs[a] == StartWrite(p, ss[e].tasks[p].buf) && |ss[a].stored| <= |ss[e].stored|
  {
    RunAt(ss, xs, a);
    hide Run, Next, Enabled, InPlace, Sleeps;
    StartPlaced(ss[a], p, xs[a].buf, Sleeps(xs[a..a + 1], p));
    PlacedWriter(ss[a + 1], p, |ss[a].stored|, [], Sleeps(xs[a..a + 1], p));
  }

  lemma PlacedWriter(s: State, p: nat, from: nat, at: seq<nat>, sleeps: nat)
    requires InPlace(s, p, from, at, sleeps)
    ensures p < |s.tasks| && Writer(s.tasks[p])
  {
  }

  /** One step further. */
  lemma StepPlaced(ss: seq<State>, xs: seq<Step>, e: nat, p: nat, a: nat, at: seq<nat>) returns (at': seq<nat>)
    requires Run(ss, xs) && a < e < |xs| && p < |ss[e].tasks| && p < |ss[e + 1].tasks|
    requires Writer(ss[e].tasks[p]) && Writer(ss[e + 1].tasks[p]) && !(xs[e].StartWrite? && xs[e].p == p)
    requires |ss[a].stored| <= |ss[e].stored| && InPlace(ss[e], p, |ss[a].stored|, at, Sleeps(xs[a..e], p))
    ensures InPlace(ss[e + 1], p, |ss[a].stored|, at', Sleeps(xs[a..e + 1], p))
    ensures ss[e + 1].tasks[p].buf == ss[e].tasks[p].buf && |ss[a].stored| <= |ss[e + 1].stored|
  {
    hide Run, InPlace, Sleeps;
    RunAt(ss, xs, e);
    LockHere(ss, xs, e);
    SleepsNext(xs, a, e, p);
    if xs[e] == Store(p) {
      StorePlaced(ss[e], p, |ss[a].stored|, at, Sleeps(xs[a..e], p));
      at' := at + [|ss[e].stored|];
    } else {
      OtherPlaced(ss[e], xs[e], p, |ss[a].stored|, at, Sleeps(xs[a..e], p));
      at' := at;
    }
  }

  lemma WriterThen(ss: seq<State>, xs: seq<Step>, e: nat, p: nat)
    requires Run(ss, xs) && e < |xs| && p < |ss[e].tasks| && p < |ss[e + 1].tasks|
    requires Writer(ss[e + 1].tasks[p]) && !(xs[e].StartWrite? && xs[e].p == p)
    ensures Writer(ss[e].tasks[p])
  {
    hide Run;
    RunAt(ss, xs, e);
    WriterBefore(ss[e], xs[e], p);
  }

  /** Every unfinished write goes back to a call, and its bytes so far are in the pipe. */
  lemma {:induction false} BytesInPlace(ss: seq<State>, xs: seq<Step>, e: nat, p: nat) returns (a: nat, at: seq<nat>)
    requires Run(ss, xs) && e < |ss| && p < |ss[e].tasks| && Writer(ss[e].tasks[p])
    ensures a < e && xs[a] == StartWrite(p, ss[e].tasks[p].buf) && |ss[a].stored| <= |ss[e].stored|
    ensures forall j :: a < j <= e ==> p < |ss[j].tasks| && Writer(ss[j].tasks[p])
    ensures InPlace(ss[e], p, |ss[a].stored|, at, Sleeps(xs[a..e], p))
  {
    hide *;
    NotAtStart(ss, xs, e, p);
    if xs[e - 1].StartWrite? && xs[e - 1].p == p {
      a, at := e - 1, [];
      CallPlaced(ss, xs, a, p);
    } else {
      WriterThen(ss, xs, e - 1, p);
      a, at := BytesInPlace(ss, xs, e - 1, p);
      at := StepPlaced(ss, xs, e - 1, p, a, at);
    }
  }

  /** When a write ends, gives up or goes to sleep, the bytes that it counts as written, all of its
      buffer if it ends, have been stored since its call, in order, and cut apart by other writers'
      bytes no more often than it slept. */
  lemma WriteReturns(ss: seq<State>, xs: seq<Step>, e: nat) returns (a: nat, at: seq<nat>)
    requires Run(ss, xs) && e < |xs| && (xs[e].EndWrite? || xs[e].AbortWrite? || xs[e].SleepWrite?)
    ensures var p := xs[e].p;
            && p < |ss[e].tasks| && ss[e].tasks[p].Writing? && ss[e].tasks[p].i <= |ss[e].tasks[p].buf|
            && var buf, i := ss[e].tasks[p].buf, ss[e].tasks[p].i;
            && a < e && xs[a] == StartWrite(p, buf) && (xs[e].EndWrite? ==> buf[..i] == buf)
            && Placed(ss[e].stored, buf[..i], |ss[a].stored|, at) && Gaps(at) <= Sleeps(xs[a..e], p)
  {
    var p := xs[e].p;
    assert Enabled(ss[e], xs[e]);
    WritersOk(ss, xs, e, p);
    a, at := BytesInPlace(ss, xs, e, p);
  }

  lemma WriterStep(s: State, x: Step, p: nat)
    requires Enabled(s, x) && p < |s.tasks| && InWrite(Next(s, x).tasks[p])
    requires InWrite(s.tasks[p]) ==> Writer(s.tasks[p])
    ensures Writer(Next(s, x).tasks[p])
  {
  }

  lemma {:induction false} WritersOk(ss: seq<State>, xs: seq<Step>, e: nat, p: nat)
    requires Run(ss, xs) && e < |ss| && p < |ss[e].tasks| && InWrite(ss[e].tasks[p])
    ensures Writer(ss[e].tasks[p])
  {
    assert e > 0;
    hide Run, Next, Enabled;
    RunAt(ss, xs, e - 1);
    if InWrite(ss[e - 1].tasks[p]) {
      WritersOk(ss, xs, e - 1, p);
    }
    WriterStep(ss[e - 1], xs[e - 1], p);
  }

  /** And nothing else is ever stored: byte k came from the step of a writer that had k bytes before it. */
  lemma {:induction false} ByteOrigin(ss: seq<State>, xs: seq<Step>, e: nat, k: nat) returns (j: nat)
    requires Run(ss, xs) && e < |ss| && k < |ss[e].stored|
    ensures j < e && xs[j].Store? && |ss[j].stored| == k && xs[j].p < |ss[j].tasks|
    ensures var t := ss[j].tasks[xs[j].p];
            t.Writing? && t.i < |t.buf| && ss[e].stored[k] == t.buf[t.i]
  {
    assert e > 0;
    hide Run, Next, Enabled;
    RunAt(ss, xs, e - 1);
    if k < |ss[e - 1].stored| {
      j := ByteOrigin(ss, xs, e - 1, k);
    } else {
      j := e - 1;
      StoreAdds(ss[j], xs[j]);
    }
  }

  lemma StoreAdds(s: State, x: Step)
    requires Enabled(s, x) && |Next(s, x).stored| > |s.stored|
    ensures x.Store? && x.p < |s.tasks| && s.tasks[x.p].Writing? && s.tasks[x.p].i < |s.tasks[x.p].buf|
    ensures Next(s, x).stored == s.stored + [s.tasks[x.p].buf[s.tasks[x.p].i]]
  {
  }

  // ----- sleeping readers -----

  predicate Stranding(s: State, x: Step) {
    x.AbortWrite? && exists p :: 0 <= p < |s.tasks| && s.tasks[p].ReadAsleep?
  }

  lemma StepKeepsReaders(s: State, x: Step)
    requires Inv(s) && ReadersSound(s) && Enabled(s, x) && !Stranding(s, x)
    ensures ReadersSound(Next(s, x))
  {
  }

  /** While the lock is free, a sleeping reader faces an empty pipe that still has a writer. */
  predicate ReadersRight(s: State) {
    s.lock.None? ==> forall p :: 0 <= p < |s.tasks| && s.tasks[p].ReadAsleep? ==> s.Empty() && s.writeopen
  }

  lemma {:induction false} RunKeepsReaders(ss: seq<State>, xs: seq<Step>, i: nat)
    requires Run(ss, xs) && i < |ss| && forall j :: 0 <= j < |xs| ==> !Stranding(ss[j], xs[j])
    ensures ReadersSound(ss[i])
  {
    if i > 0 {
      RunKeepsReaders(ss, xs, i - 1);
      RunKeeps(ss, xs, i - 1);
      StepKeepsReaders(ss[i - 1], xs[i - 1]);
      assert ss[i - 1 + 1] == Next(ss[i - 1], xs[i - 1]);
    }
  }

  lemma StrandingBreaks(ss: seq<State>, xs: seq<Step>, i: nat)
    requires Run(ss, xs) && i < |xs| && Stranding(ss[i], xs[i])
    ensures !ReadersRight(ss[i + 1])
  {
    RunKeeps(ss, xs, i);
    Tests(ss[i]);
    var s, t := ss[i], ss[i + 1];
    assert Enabled(s, xs[i]) && t == Next(s, xs[i]);
    var p :| 0 <= p < |s.tasks| && s.tasks[p].ReadAsleep?;
    assert t.tasks[p].ReadAsleep?;
  }

  /** Sleeping readers are right in every state of a run exactly when no write gives up on a full
      pipe (its reader gone, or itself killed) while a reader sleeps: that return path wakes nobody. */
  lemma ReadersRightIff(ss: seq<State>, xs: seq<Step>)
    requires Run(ss, xs)
    ensures (forall i :: 0 <= i < |ss| ==> ReadersRight(ss[i]))
       <==> (forall i :: 0 <= i < |xs| ==> !Stranding(ss[i], xs[i]))
  {
    if forall i :: 0 <= i < |xs| ==> !Stranding(ss[i], xs[i]) {
      forall i | 0 <= i < |ss| ensures ReadersRight(ss[i]) {
        RunKeepsReaders(ss, xs, i);
      }
    } else {
      var i :| 0 <= i < |xs| && Stranding(ss[i], xs[i]);
      StrandingBreaks(ss, xs, i);
    }
  }

  lemma Extend(ss: seq<State>, xs: seq<Step>, x: Step) returns (ss': seq<State>, xs': seq<Step>)
    requires Run(ss, xs) && Enabled(ss[|xs|], x)
    ensures Run(ss', xs') && |xs'| == |xs| + 1 && ss'[|xs'|] == Next(ss[|xs|], x) && xs' == xs + [x]
            && ss' == ss + [Next(ss[|xs|], x)]
  {
    ss', xs' := ss + [Next(ss[|xs|], x)], xs + [x];
  }

  /** Process 0 sleeps in a read while process 1 has put k of its bytes in. */
  ghost predicate Filling(s: State, k: nat) {
    && |s.data| == PIPESIZE && s.nread == 0 && s.nwrite == k && !s.freed && s.lock == Some(1)
    && |s.tasks| == 2 && s.tasks[0] == ReadAsleep(1)
    && s.tasks[1].Writing? && |s.tasks[1].buf| > PIPESIZE && s.tasks[1].i == k
  }

  lemma {:induction false} Fill(k: nat) returns (ss: seq<State>, xs: seq<Step>)
    requires k <= PIPESIZE
    ensures Run(ss, xs) && Filling(ss[|xs|], k)
  {
    if k == 0 {
      var z: seq<byte> := ZeroBlock();
      var s := State(z, 0, 0, true, true, None, [Idle, Idle], {}, false, [], []);
      ss, xs := [s], [];
      ss, xs := Extend(ss, xs, StartRead(0, 1));
      ss, xs := Extend(ss, xs, Acquire(0));
      ss, xs := Extend(ss, xs, SleepRead(0));
      ss, xs := Extend(ss, xs, StartWrite(1, z + z));
      ss, xs := Extend(ss, xs, Acquire(1));
    } else {
      ss, xs := Fill(k - 1);
      ss, xs := Extend(ss, xs, Store(1));
    }
  }

  /** Such a run exists: the writer fills the pipe and is killed, and the reader sleeps on. */
  lemma StrandedReader() returns (ss: seq<State>, xs: seq<Step>)
    ensures Run(ss, xs) && !ReadersRight(ss[|xs|])
  {
    ss, xs := Fill(PIPESIZE);
    ss, xs := Extend(ss, xs, Kill(1));
    ss, xs := Extend(ss, xs, AbortWrite(1));
    assert ss[|xs|].tasks[0].ReadAsleep?;
  }
}
