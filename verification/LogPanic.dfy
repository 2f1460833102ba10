/** When the log's own tests stop an operation or a commit: the capacity test of
    log_write, and the search for a buffer in commit(). */
module LogPanic {
  import opened Blocks
  import opened LogFormat
  import opened LogMachine
  import Cache

  // ----- log_write's capacity test -----

  lemma RoomLeft(l: Layout, s: State, p: nat)
    requires Space(l, s.procs, s.lh) && p < |s.procs| && s.procs[p].Dirtied?
    ensures s.procs[p].held !in s.lh ==> |s.lh| < LOGSIZE
    ensures |s.lh| <= LOGSIZE
  {
    SpareBound(l, s.procs, s.lh);
    assert WithinBounds(l, s.procs[p], s.lh);
    if s.procs[p].held !in s.lh {
      assert s.procs[p].held !in s.procs[p].touched;
      assert |s.procs[p].touched + {s.procs[p].held}| == |s.procs[p].touched| + 1;
    }
  }

  /** In every reachable state, a process that has changed a block passes log_write's tests
      exactly if the log holds fewer than LOGSIZE and fewer than log.size - 1 blocks: being
      inside an operation is never what fails. A block that is not logged yet passes exactly
      under the second condition. With a log longer than LOGSIZE the panic remains exactly
      when the log is full, and then the block is one that is already logged. */
  lemma PanicExactly(l: Layout, s0: State, steps: seq<Step>, p: nat)
    requires PowerOn(l, s0) && Legal(l, s0, steps)
    requires var s := Exec(l, s0, steps); p < |s.procs| && s.procs[p].Dirtied?
    ensures var s := Exec(l, s0, steps);
            && Sane(l, s)
            && (Enabled(l, s, Check(p)) <==> |s.lh| < LOGSIZE && |s.lh| < l.size - 1)
            && (s.procs[p].held !in s.lh ==> (Enabled(l, s, Check(p)) <==> |s.lh| < l.size - 1))
            && (l.size > LOGSIZE ==> (!Enabled(l, s, Check(p)) <==> |s.lh| == LOGSIZE))
            && (l.size > LOGSIZE && !Enabled(l, s, Check(p)) ==> s.procs[p].held in s.lh)
  {
    PowerOnInv(l, s0);
    RunKeeps(l, s0, steps);
    var s := Exec(l, s0, steps);
    RoomLeft(l, s, p);
    ActiveMeansNoCommit(s, p);
  }

  // ----- commit's search for buffers -----

  predicate CanGoOn(l: Layout, s: State, p: nat)
    requires Sane(l, s)
  {
    Enabled(l, s, Commit(p)) || Enabled(l, s, Publish(p))
  }

  lemma CopyPlace(l: Layout, s: State, ph: Phase)
    requires Sane(l, s) && PhaseOk(l, s, ph) && (ph.WritingLog? || ph.Installing?)
    ensures ph.tail < |s.lh| && ph.tail + 1 < l.size && AllPending(s, ph.tail)
  {
    hide HeadOk, HeaderOf, View, Copied, SlotsFilled;
  }

  lemma CopyReads(l: Layout, s: State, tail: nat)
    requires l.Wf() && Space(l, s.procs, s.lh) && tail < |s.lh| && tail + 1 < l.size && AllPending(s, tail)
    requires forall c :: c in s.pending ==> c in s.lh
    requires forall c :: c in s.lent ==> l.IsHome(c)
    ensures Cache.CanRead(Busy(s), [l.start + 1 + tail, s.lh[tail]]) <==> |Busy(s)| < Cache.NBUF
  {
    hide Space, Cache.CanRead;
    LogAreaNotBusy(l, s, l.start + 1 + tail);
    assert s.lh[tail] in s.pending;
    Cache.OneBufferIsEnough(Busy(s), l.start + 1 + tail, s.lh[tail]);
  }

  lemma PhaseStuckExactly(l: Layout, s: State, p: nat)
    requires Inv(l, s) && InPhase(s, p)
    ensures CanGoOn(l, s, p) <==> s.procs[p].phase.Finishing? || |Busy(s)| < Cache.NBUF
  {
    hide Protocol, Space, Pinned, Phases, HeadOk, Cache.CanRead, PhaseOk;
    PhaseHere(l, s, p);
    CommitterAlone(l, s, p);
    var ph := s.procs[p].phase;
    if ph.WritingLog? || ph.Installing? {
      CopyPlace(l, s, ph);
      CopyReads(l, s, ph.tail);
    } else {
      LogAreaNotBusy(l, s, l.start);
      Cache.CanReadOne(Busy(s), l.start);
    }
  }

  /** In every reachable state a commit can take its next step exactly if some buffer is
      neither pinned nor referred to, or if only the end of commit() is left. */
  lemma CommitStuckExactly(l: Layout, s0: State, steps: seq<Step>, p: nat)
    requires PowerOn(l, s0) && Legal(l, s0, steps)
    requires InPhase(Exec(l, s0, steps), p)
    ensures var s := Exec(l, s0, steps);
            Sane(l, s) && (CanGoOn(l, s, p) <==> s.procs[p].phase.Finishing? || |Busy(s)| < Cache.NBUF)
  {
    PowerOnInv(l, s0);
    RunKeeps(l, s0, steps);
    PhaseStuckExactly(l, Exec(l, s0, steps), p);
  }

  lemma CountKeys(lh: seq<nat>, keys: set<nat>)
    requires Distinct(lh) && forall b :: b in keys <==> b in lh
    ensures |keys| == |lh|
    decreases |lh|
  {
    if lh == [] {
      assert keys == {};
    } else {
      var n := |lh| - 1;
      assert lh == lh[..n] + [lh[n]];
      CountKeys(lh[..n], keys - {lh[n]});
    }
  }

  lemma PendingIsLogged(l: Layout, s: State, p: nat)
    requires Inv(l, s) && InPhase(s, p) && s.procs[p].phase.WritingLog?
    ensures |s.pending.Keys| == |s.lh|
  {
    PhaseHere(l, s, p);
    CommitterAlone(l, s, p);
    CountKeys(s.lh, s.pending.Keys);
  }

  lemma {:induction false} AtMostAsMany(lh: seq<nat>, keys: set<nat>)
    requires forall b :: b in keys ==> b in lh
    ensures |keys| <= |lh|
  {
    if lh == [] {
      assert keys == {};
    } else {
      var n := |lh| - 1;
      assert lh == lh[..n] + [lh[n]];
      AtMostAsMany(lh[..n], keys - {lh[n]});
    }
  }

  /** While nobody else refers to a buffer, a commit is stuck in one case only: before its
      first write, with as many blocks logged as there are buffers. */
  lemma AloneStuckOnlyWhenFull(l: Layout, s0: State, steps: seq<Step>, p: nat)
    requires PowerOn(l, s0) && Legal(l, s0, steps)
    requires var s := Exec(l, s0, steps); InPhase(s, p) && s.lent == {}
    ensures var s := Exec(l, s0, steps);
            Sane(l, s) && (!CanGoOn(l, s, p) <==> s.procs[p].phase == WritingLog(0) && |s.lh| == Cache.NBUF)
  {
    PowerOnInv(l, s0);
    RunKeeps(l, s0, steps);
    var s := Exec(l, s0, steps);
    hide Legal, Exec;
    PhaseStuckExactly(l, s, p);
    PhaseHere(l, s, p);
    CommitterAlone(l, s, p);
    AtMostAsMany(s.lh, s.pending.Keys);
    assert Busy(s) == s.pending.Keys;
    if s.procs[p].phase.WritingLog? {
      PendingIsLogged(l, s, p);
    }
  }

  // ----- runs that meet these panics -----

  const FIRST := 40

  function Plan(size: nat): (l: Layout) {
    Layout(2, size, 100)
  }

  function Blank(): (s: State) {
    State(Booting(ReadingHead), seq(100, _ => ZeroBlock()), map[], [], 0, false, [Outside, Outside, Outside], {})
  }

  /** The run `steps` is legal and leads to s. */
  ghost predicate At(l: Layout, steps: seq<Step>, s: State) {
    PowerOn(l, Blank()) && Legal(l, Blank(), steps) && Exec(l, Blank(), steps) == s && Sane(l, s)
  }

  lemma Go(l: Layout, steps: seq<Step>, s: State, x: Step) returns (more: seq<Step>)
    requires At(l, steps, s) && Enabled(l, s, x)
    ensures more == steps + [x] && At(l, more, Do(l, s, x))
  {
    more := steps + [x];
    OneMore(l, Blank(), steps, x);
    PowerOnInv(l, Blank());
    RunKeeps(l, Blank(), more);
  }

  /** How many of the first k blocks are logged by process p, the three taking turns. */
  function Share(k: nat, p: nat): (n: nat)
    requires p < 3
  {
    (k + 2 - p) / 3
  }

  predicate Carries(pc: Pc, k: nat, p: nat)
    requires p < 3
  {
    pc.InOp? && |pc.touched| == Share(k, p) && forall b :: b in pc.touched ==> FIRST <= b < FIRST + k
  }

  /** Three open operations have logged the blocks FIRST to FIRST + k in turn. */
  ghost predicate Loaded(s: State, k: nat) {
    && s.mode.Running? && !s.committing && s.outstanding == 3 && |s.procs| == 3 && s.lent == {}
    && |s.lh| == k && (forall i :: 0 <= i < k ==> s.lh[i] == FIRST + i)
    && (forall b :: b in s.pending <==> FIRST <= b < FIRST + k)
    && (forall p :: 0 <= p < 3 ==> Carries(s.procs[p], k, p))
  }

  lemma Boot(l: Layout) returns (steps: seq<Step>, s: State)
    requires l == Plan(l.size) && LOGSIZE <= l.size < 38
    ensures At(l, steps, s) && Loaded(s, 0)
  {
    ZeroWord(0);
    HeadClear(l, Blank().disk);
    steps, s := [], Blank();
    Cache.CanReadOne(Busy(s), l.start);
    steps := Go(l, steps, s, Recover);
    s := Do(l, s, Recover);
    Cache.CanReadOne(Busy(s), l.start);
    steps := Go(l, steps, s, Recover);
    s := Do(l, s, Recover);
    steps, s := Open(l, steps, s);
  }

  lemma Open(l: Layout, before: seq<Step>, s0: State) returns (steps: seq<Step>, s: State)
    requires At(l, before, s0) && s0.mode.Running? && s0.lh == [] && s0.outstanding == 0 && !s0.committing
    requires s0.procs == [Outside, Outside, Outside] && s0.pending == map[] && s0.lent == {}
    ensures At(l, steps, s) && Loaded(s, 0)
  {
    hide HeadOk, Legal, Exec;
    steps, s := before, s0;
    steps := Go(l, steps, s, Begin(0));
    s := Do(l, s, Begin(0));
    steps := Go(l, steps, s, Begin(1));
    s := Do(l, s, Begin(1));
    steps := Go(l, steps, s, Begin(2));
    s := Do(l, s, Begin(2));
  }

  lemma BusyCount(s: State, k: nat)
    requires Loaded(s, k)
    ensures |Busy(s)| == k && s.pending.Keys == Busy(s)
  {
    assert s.pending.Keys == Busy(s);
    assert Distinct(s.lh);
    forall b ensures b in s.pending.Keys <==> b in s.lh {
      if b in s.pending {
        assert s.lh[b - FIRST] == b;
      }
    }
    CountKeys(s.lh, s.pending.Keys);
  }

  /** The state once process k % 3 has changed block FIRST + k. */
  function Changed(s: State, k: nat): (t: State)
    requires |s.procs| == 3 && s.procs[k % 3].InOp?
  {
    s.(procs := s.procs[k % 3 := Dirtied(s.procs[k % 3].touched, FIRST + k)],
       pending := s.pending[FIRST + k := ZeroBlock()])
  }

  lemma CarriesNext(pc: Pc, k: nat)
    requires Carries(pc, k, k % 3) && k < LOGSIZE
    ensures FIRST + k !in pc.touched && |pc.touched + {FIRST + k}| == Share(k, k % 3) + 1 <= MAXOPBLOCKS
  {
    assert FIRST + k !in pc.touched;
    assert |pc.touched + {FIRST + k}| == |pc.touched| + 1;
  }

  /** A free buffer and room in the reservation let a process change a block nobody holds. */
  lemma MayModify(l: Layout, s: State, p: nat, b: nat)
    requires Sane(l, s) && s.mode.Running? && p < |s.procs| && s.procs[p].InOp? && l.IsHome(b)
    requires b !in Busy(s) && |Busy(s)| < Cache.NBUF && |s.procs[p].touched + {b}| <= MAXOPBLOCKS
    requires forall q :: 0 <= q < |s.procs| && s.procs[q].HoldsBuffer() ==> s.procs[q].held != b
    ensures Enabled(l, s, Modify(p, b, ZeroBlock()))
  {
    hide HeadOk, Cache.CanRead;
    Cache.CanReadOne(Busy(s), b);
  }

  lemma ModifyNext(l: Layout, s: State, k: nat)
    requires l == Plan(l.size) && LOGSIZE <= l.size < 38 && Sane(l, s) && Loaded(s, k) && k < LOGSIZE
    ensures Carries(s.procs[k % 3], k, k % 3)
    ensures Enabled(l, s, Modify(k % 3, FIRST + k, ZeroBlock()))
    ensures Do(l, s, Modify(k % 3, FIRST + k, ZeroBlock())) == Changed(s, k)
  {
    hide HeadOk;
    var p := k % 3;
    assert Carries(s.procs[p], k, p);
    CarriesNext(s.procs[p], k);
    BusyCount(s, k);
    assert FIRST + k !in Busy(s);
    forall q | 0 <= q < |s.procs| ensures !s.procs[q].HoldsBuffer() {
      NotHolding(s, k, q);
    }
    hide Carries, Cache.CanRead, Loaded, Sane, Share;
    MayModify(l, s, p, FIRST + k);
  }

  lemma NotHolding(s: State, k: nat, q: nat)
    requires Loaded(s, k) && q < 3
    ensures !s.procs[q].HoldsBuffer()
  {
    assert Carries(s.procs[q], k, q);
  }

  /** The state once that block has been logged. */
  function Logged(s: State, k: nat): (t: State)
    requires |s.procs| == 3 && s.procs[k % 3].InOp?
  {
    s.(procs := s.procs[k % 3 := InOp(s.procs[k % 3].touched + {FIRST + k})],
       pending := s.pending[FIRST + k := ZeroBlock()], lh := s.lh + [FIRST + k])
  }

  lemma LoadedMore(s: State, k: nat)
    requires Loaded(s, k) && k < LOGSIZE
    ensures |s.procs| == 3 && s.procs[k % 3].InOp? && Loaded(Logged(s, k), k + 1)
  {
    var p := k % 3;
    assert Carries(s.procs[p], k, p);
    CarriesNext(s.procs[p], k);
    var v := Logged(s, k);
    forall q | 0 <= q < 3 ensures Carries(v.procs[q], k + 1, q) {
      assert Carries(s.procs[q], k, q);
    }
  }

  lemma LogNext(l: Layout, s: State, k: nat, t: State)
    requires l == Plan(l.size) && LOGSIZE <= l.size < 38 && Loaded(s, k) && k < LOGSIZE && k < l.size - 1
    requires s.procs[k % 3].InOp? && t == Changed(s, k) && Sane(l, t)
    ensures Enabled(l, t, Check(k % 3))
    ensures var u := Do(l, t, Check(k % 3));
            Sane(l, u) && Enabled(l, u, Append(k % 3)) && Do(l, u, Append(k % 3)) == Logged(s, k)
  {
    hide HeadOk, Carries;
    assert FIRST + k !in s.lh;
  }

  /** The next block is changed, checked and appended. */
  lemma LogOne(l: Layout, before: seq<Step>, s: State, k: nat) returns (steps: seq<Step>)
    requires l == Plan(l.size) && LOGSIZE <= l.size < 38 && At(l, before, s) && Loaded(s, k)
    requires k < LOGSIZE && k < l.size - 1
    ensures |s.procs| == 3 && s.procs[k % 3].InOp? && At(l, steps, Logged(s, k)) && Loaded(Logged(s, k), k + 1)
  {
    hide Loaded, Legal, Exec, HeadOk, Enabled, Do;
    AtSane(l, before, s);
    LoadedMore(s, k);
    ModifyNext(l, s, k);
    steps := Go(l, before, s, Modify(k % 3, FIRST + k, ZeroBlock()));
    var t := Changed(s, k);
    AtSane(l, steps, t);
    LogNext(l, s, k, t);
    steps := Go(l, steps, t, Check(k % 3));
    steps := Go(l, steps, Do(l, t, Check(k % 3)), Append(k % 3));
  }

  lemma AtSane(l: Layout, steps: seq<Step>, s: State)
    requires At(l, steps, s)
    ensures Sane(l, s) && Inv(l, s)
  {
    PowerOnInv(l, Blank());
    RunKeeps(l, Blank(), steps);
  }

  lemma {:induction false} Fill(l: Layout, k: nat) returns (steps: seq<Step>, s: State)
    requires l == Plan(l.size) && LOGSIZE <= l.size < 38 && k <= LOGSIZE && k < l.size
    ensures At(l, steps, s) && Loaded(s, k)
  {
    hide At, Loaded, Plan;
    if k == 0 {
      steps, s := Boot(l);
    } else {
      var before, was := Fill(l, k - 1);
      steps := LogOne(l, before, was, k - 1);
      s := Logged(was, k - 1);
    }
  }

  /** A legal run in which an operation that has logged nine blocks cannot log its tenth. */
  lemma PanicWithinReservation() returns (steps: seq<Step>, p: nat)
    ensures PowerOn(Plan(LOGSIZE), Blank()) && Legal(Plan(LOGSIZE), Blank(), steps)
    ensures var s := Exec(Plan(LOGSIZE), Blank(), steps);
            && p < |s.procs| && s.procs[p].Dirtied? && |s.procs[p].touched| == 9
            && s.procs[p].held !in s.procs[p].touched
            && Sane(Plan(LOGSIZE), s) && !Enabled(Plan(LOGSIZE), s, Check(p))
  {
    var l, k := Plan(LOGSIZE), LOGSIZE - 1;
    var s;
    steps, s := Fill(l, k);
    p := k % 3;
    AtSane(l, steps, s);
    ModifyNext(l, s, k);
    CarriesNext(s.procs[p], k);
    steps := Go(l, steps, s, Modify(p, FIRST + k, ZeroBlock()));
    hide Legal, Exec;
  }

  /** A legal run, with a log two blocks longer than LOGSIZE, in which an operation cannot log
      again a block that it has logged before. */
  lemma PanicOnLoggedBlock() returns (steps: seq<Step>, p: nat)
    ensures PowerOn(Plan(LOGSIZE + 2), Blank()) && Legal(Plan(LOGSIZE + 2), Blank(), steps)
    ensures var s := Exec(Plan(LOGSIZE + 2), Blank(), steps);
            && p < |s.procs| && s.procs[p].Dirtied? && s.procs[p].held in s.procs[p].touched && s.procs[p].held in s.lh
            && Sane(Plan(LOGSIZE + 2), s) && |s.lh| < Plan(LOGSIZE + 2).size - 1
            && !Enabled(Plan(LOGSIZE + 2), s, Check(p))
  {
    var l := Plan(LOGSIZE + 2);
    var s;
    steps, s := Fill(l, LOGSIZE);
    AtSane(l, steps, s);
    p := 0;
    var b := LoggedByFirst(s);
    steps := Go(l, steps, s, Modify(0, b, ZeroBlock()));
    hide Legal, Exec;
  }

  lemma LoggedByFirst(s: State) returns (b: nat)
    requires Sane(Plan(LOGSIZE + 2), s) && Loaded(s, LOGSIZE)
    ensures Enabled(Plan(LOGSIZE + 2), s, Modify(0, b, ZeroBlock())) && b in s.procs[0].touched && b in s.lh
  {
    hide HeadOk;
    assert Carries(s.procs[0], LOGSIZE, 0);
    assert s.procs[0].touched != {};
    b :| b in s.procs[0].touched;
    assert s.lh[b - FIRST] == b;
    assert s.procs[0].touched + {b} == s.procs[0].touched;
    assert b in Busy(s) && Cache.CanRead(Busy(s) + {b}, [b][1..]);
    forall q | 0 <= q < |s.procs| ensures !s.procs[q].HoldsBuffer() {
      NotHolding(s, LOGSIZE, q);
    }
  }

  /** The three operations end, and the last one starts the commit. */
  lemma EndAll(l: Layout, before: seq<Step>, s: State) returns (steps: seq<Step>, t: State)
    requires At(l, before, s) && s.mode.Running? && !s.committing && s.outstanding == 3 && |s.procs| == 3 && s.lh != []
    requires s.procs[0].InOp? && s.procs[1].InOp? && s.procs[2].InOp?
    ensures At(l, steps, t) && InPhase(t, 2) && t.procs[2].phase == WritingLog(0)
    ensures t.lh == s.lh && t.pending == s.pending && t.lent == s.lent
  {
    hide HeadOk, Legal, Exec;
    steps, t := before, s;
    steps := Go(l, steps, t, End(0));
    t := Do(l, t, End(0));
    steps := Go(l, steps, t, End(1));
    t := Do(l, t, End(1));
    steps := Go(l, steps, t, End(2));
    t := Do(l, t, End(2));
  }

  lemma AllInOp(s: State, k: nat)
    requires Loaded(s, k)
    ensures s.procs[0].InOp? && s.procs[1].InOp? && s.procs[2].InOp?
  {
    assert Carries(s.procs[0], k, 0) && Carries(s.procs[1], k, 1) && Carries(s.procs[2], k, 2);
  }

  /** A legal run in which a commit of fewer than NBUF blocks is stuck, because somebody reads a
      block that is not logged. */
  lemma ReaderStopsCommit() returns (steps: seq<Step>, p: nat)
    ensures PowerOn(Plan(LOGSIZE), Blank()) && Legal(Plan(LOGSIZE), Blank(), steps)
    ensures var s := Exec(Plan(LOGSIZE), Blank(), steps);
            InPhase(s, p) && |s.lh| == Cache.NBUF - 1 && |s.lent| == 1
            && Sane(Plan(LOGSIZE), s) && !CanGoOn(Plan(LOGSIZE), s, p)
  {
    var l, k := Plan(LOGSIZE), LOGSIZE - 1;
    var s;
    steps, s := Fill(l, k);
    steps, s := TakeOne(l, steps, s, k);
    steps, s := EndAll(l, steps, s);
    AtSane(l, steps, s);
    hide Legal, Exec, Inv, CanGoOn, HeadOk;
    PhaseStuckExactly(l, s, 2);
    p := 2;
  }

  /** Somebody starts to read block 1. */
  lemma TakeOne(l: Layout, before: seq<Step>, s: State, k: nat) returns (steps: seq<Step>, t: State)
    requires l == Plan(LOGSIZE) && k == LOGSIZE - 1 && At(l, before, s) && Loaded(s, k)
    ensures t == s.(lent := {1}) && |Busy(t)| == Cache.NBUF && At(l, steps, t)
    ensures t.mode.Running? && !t.committing && t.outstanding == 3 && |t.procs| == 3 && |t.lh| == k
    ensures t.procs[0].InOp? && t.procs[1].InOp? && t.procs[2].InOp?
  {
    hide HeadOk, Legal, Exec;
    BusyCount(s, k);
    AllInOp(s, k);
    Cache.CanReadOne(Busy(s), 1);
    t := s.(lent := {1});
    assert s.lent + {1} == {1};
    assert Busy(t) == Busy(s) + {1};
    steps := Go(l, before, s, Take(1));
  }

  /** The second and third operation change a block each; both pass the test before either appends. */
  lemma RaceTo(l: Layout, before: seq<Step>, s: State, k: nat) returns (steps: seq<Step>, t: State)
    requires l == Plan(LOGSIZE) && k == LOGSIZE - 2 && At(l, before, s) && Loaded(s, k)
    ensures At(l, steps, t) && t.mode.Running? && !t.committing && t.outstanding == 3 && |t.procs| == 3
    ensures t.procs[0].InOp? && t.procs[1].InOp? && t.procs[2].InOp?
    ensures t.lh == s.lh + [FIRST + k] + [FIRST + k + 1] && t.lent == {}
  {
    hide HeadOk, Legal, Exec, Loaded;
    Carried(s, k);
    AllInOp(s, k);
    steps, t := BothChange(l, before, s, k);
    steps := Go(l, steps, t, Check(1));
    t := Do(l, t, Check(1));
    steps := Go(l, steps, t, Check(2));
    t := Do(l, t, Check(2));
    AtSane(l, steps, t);
    steps, t := BothAppend(l, steps, t, FIRST + k, FIRST + k + 1);
  }

  lemma BothChange(l: Layout, before: seq<Step>, s: State, k: nat) returns (steps: seq<Step>, t: State)
    requires l == Plan(LOGSIZE) && k == LOGSIZE - 2 && At(l, before, s) && Loaded(s, k)
    ensures At(l, steps, t) && |s.procs| == 3 && s.procs[1].InOp? && s.procs[2].InOp?
    ensures t == s.(procs := [s.procs[0], Dirtied(s.procs[1].touched, FIRST + k),
                              Dirtied(s.procs[2].touched, FIRST + k + 1)], pending := t.pending)
  {
    hide HeadOk, Legal, Exec, Cache.CanRead, Loaded;
    var x, y := FIRST + k, FIRST + k + 1;
    BusyCount(s, k);
    Carried(s, k);
    MayModify(l, s, 1, x);
    steps := Go(l, before, s, Modify(1, x, ZeroBlock()));
    t := Do(l, s, Modify(1, x, ZeroBlock()));
    assert Busy(t) == Busy(s) + {x};
    MayModify(l, t, 2, y);
    steps := Go(l, steps, t, Modify(2, y, ZeroBlock()));
    t := Do(l, t, Modify(2, y, ZeroBlock()));
  }

  lemma BothAppend(l: Layout, before: seq<Step>, s: State, x: nat, y: nat) returns (steps: seq<Step>, t: State)
    requires At(l, before, s) && s.mode.Running? && |s.procs| == 3 && |s.lh| <= LOGSIZE - 2 && Inv(l, s)
    requires s.procs[0].InOp? && s.procs[1].Checked? && s.procs[1].held == x && s.procs[2].Checked?
             && s.procs[2].held == y
    requires x != y && x !in s.lh && y !in s.lh && x < l.nblocks && y < l.nblocks
    ensures At(l, steps, t) && |t.procs| == 3
    ensures t == s.(procs := t.procs, lh := s.lh + [x] + [y])
    ensures t.procs[0].InOp? && t.procs[1].InOp? && t.procs[2].InOp?
  {
    hide HeadOk, Legal, Exec, Inv;
    steps := Go(l, before, s, Append(1));
    t := Do(l, s, Append(1));
    assert t.lh == s.lh + [x] && y !in t.lh;
    steps := Go(l, steps, t, Append(2));
    t := Do(l, t, Append(2));
  }

  lemma Carried(s: State, k: nat)
    requires Loaded(s, k) && k == LOGSIZE - 2
    ensures s.procs[1].InOp? && |s.procs[1].touched + {FIRST + k}| <= MAXOPBLOCKS
    ensures s.procs[2].InOp? && |s.procs[2].touched + {FIRST + k + 1}| <= MAXOPBLOCKS
    ensures !s.procs[0].HoldsBuffer() && !s.procs[1].HoldsBuffer() && !s.procs[2].HoldsBuffer()
    ensures FIRST + k !in Busy(s) && FIRST + k + 1 !in Busy(s) && FIRST + k !in s.lh && FIRST + k + 1 !in s.lh
    ensures s.outstanding == 3 && s.mode.Running? && !s.committing && |s.procs| == 3 && |s.lh| == k && s.lent == {}
  {
    assert Carries(s.procs[0], k, 0) && Carries(s.procs[1], k, 1) && Carries(s.procs[2], k, 2);
  }

  /** A legal run in which a commit is stuck with nobody else about: two processes pass
      log_write's test together, and the log fills the cache. */
  lemma RaceFillsCache() returns (steps: seq<Step>, p: nat)
    ensures PowerOn(Plan(LOGSIZE), Blank()) && Legal(Plan(LOGSIZE), Blank(), steps)
    ensures var s := Exec(Plan(LOGSIZE), Blank(), steps);
            InPhase(s, p) && s.lent == {} && |s.lh| == LOGSIZE
            && Sane(Plan(LOGSIZE), s) && !CanGoOn(Plan(LOGSIZE), s, p)
  {
    var l, k := Plan(LOGSIZE), LOGSIZE - 2;
    var s, t;
    steps, s := Fill(l, k);
    assert |s.lh| == k;
    hide Loaded;
    steps, t := RaceTo(l, steps, s, k);
    steps, t := EndAll(l, steps, t);
    p := 2;
    AloneStuckOnlyWhenFull(l, Blank(), steps, 2);
  }
}
