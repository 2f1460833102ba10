/** The committer's steps in the machine of interleaved operations perform, one by one, the
    block writes that commit() makes through the buffer cache. */
module LogCommit {
  import opened Blocks
  import opened LogFormat
  import opened LogMachine
  import Cache
  import Log

  /** What bread returns, block by block. */
  function ViewAll(s: State): (v: seq<Block>)
    ensures |v| == |s.disk| && forall b :: 0 <= b < |v| ==> v[b] == View(s, b)
  {
    seq(|s.disk|, (b: nat) requires b < |s.disk| => View(s, b))
  }

  /** Where a commit of n blocks stands after k block writes. */
  function PhaseAt(n: nat, k: nat): (ph: Phase) {
    if k < n then WritingLog(k) else if k == n then WritingHead
    else if k <= 2 * n then Installing(k - n - 1) else if k == 2 * n + 1 then ClearingHead else Finishing
  }

  function NextStep(p: nat, n: nat, k: nat): (x: Step) {
    if k == n then Publish(p) else Commit(p)
  }

  /** The first k steps of a commit of n blocks. */
  function CommitSteps(p: nat, n: nat, k: nat): (steps: seq<Step>)
    ensures |steps| == k
  {
    if k == 0 then [] else CommitSteps(p, n, k - 1) + [NextStep(p, n, k - 1)]
  }

  lemma {:induction false} FirstStep(p: nat, n: nat, k: nat)
    requires k > 0
    ensures CommitSteps(p, n, k)[0] == NextStep(p, n, 0)
  {
    if k > 1 {
      FirstStep(p, n, k - 1);
    }
  }

  ghost predicate Group(l: Layout, lh: seq<nat>, v: seq<Block>, d: seq<Block>) {
    && HeadOk(l, d) && HeaderOf(l, d) == [] && LoggedBlocks(l, lh) && Entries(lh) && lh != []
    && |v| == |d| && v[l.start] == d[l.start]
  }

  /** The k-th write of a commit, said in terms of the disk that the writes before it leave. */
  function WriteOn(l: Layout, lh: seq<nat>, v: seq<Block>, dk: seq<Block>, k: nat): (w: Write)
    requires l.Wf() && |v| == |dk| == l.nblocks && Entries(lh) && LoggedBlocks(l, lh) && k < 2 * |lh| + 2
  {
    var n := |lh|;
    if k < n then Write(l.start + 1 + k, v[lh[k]])
    else if k == n then Write(l.start, PutHeader(dk[l.start], lh))
    else if k <= 2 * n then Write(lh[k - n - 1], dk[l.start + 1 + (k - n - 1)])
    else Write(l.start, PutHeader(dk[l.start], []))
  }

  lemma CommitRange(l: Layout, lh: seq<nat>, v: seq<Block>, d: seq<Block>)
    requires Group(l, lh, v, d)
    ensures var ws := CommitWrites(l, lh, v, d);
            |ws| == 2 * |lh| + 2 && forall i :: 0 <= i < |ws| ==> ws[i].blockno < |d|
  {
    hide PutHeader, HeaderOf;
  }

  lemma BeforeMark(l: Layout, lh: seq<nat>, v: seq<Block>, d: seq<Block>, k: nat)
    requires Group(l, lh, v, d) && k <= |lh|
    ensures var ws := CommitWrites(l, lh, v, d);
            k < |ws| && (forall i :: 0 <= i < |ws| ==> ws[i].blockno < |d|)
            && ws[k] == WriteOn(l, lh, v, Apply(d, ws[..k]), k)
  {
    CommitRange(l, lh, v, d);
    var ws, a := CommitWrites(l, lh, v, d), LogWrites(l, lh, v);
    assert ws[..k] == a[..k];
    hide PutHeader, HeaderOf;
    Log.LogStage(l, lh, v, d, k);
  }

  lemma AfterMark(l: Layout, lh: seq<nat>, v: seq<Block>, d: seq<Block>, k: nat)
    requires Group(l, lh, v, d) && |lh| < k < 2 * |lh| + 2
    ensures var ws := CommitWrites(l, lh, v, d);
            k < |ws| && (forall i :: 0 <= i < |ws| ==> ws[i].blockno < |d|)
            && ws[k] == WriteOn(l, lh, v, Apply(d, ws[..k]), k)
  {
    hide PutHeader, HeaderOf, RecoveredAt, HeadOk;
    CommitRange(l, lh, v, d);
    Installed(l, lh, v, d, k - |lh| - 1);
    CommitTail(l, lh, v, d, k);
  }

  lemma CommitTail(l: Layout, lh: seq<nat>, v: seq<Block>, d: seq<Block>, k: nat)
    requires Group(l, lh, v, d) && |lh| < k < 2 * |lh| + 2
    ensures var ws := CommitWrites(l, lh, v, d);
            |ws| == 2 * |lh| + 2
            && ws[k] == if k <= 2 * |lh| then Write(lh[k - |lh| - 1], v[lh[k - |lh| - 1]])
                        else Write(l.start, PutHeader(PutHeader(d[l.start], lh), []))
  {
    hide PutHeader, HeadFits, Header;
    var a := LogWrites(l, lh, v) + [HeadWrite(l, d[l.start], lh)];
    var b := HomeWrites(lh, v);
    assert CommitWrites(l, lh, v, d) == a + b + [HeadWrite(l, PutHeader(d[l.start], lh), [])];
  }

  /** After the header and m home blocks are written, the slots still hold the group and the header its list. */
  lemma Installed(l: Layout, lh: seq<nat>, v: seq<Block>, d: seq<Block>, m: nat)
    requires Group(l, lh, v, d) && m <= |lh|
    ensures var ws := CommitWrites(l, lh, v, d);
            |ws| == 2 * |lh| + 2 && (forall i :: 0 <= i < |ws| ==> ws[i].blockno < |d|)
            && var dk := Apply(d, ws[..|lh| + 1 + m]);
            dk[l.start] == PutHeader(d[l.start], lh) && forall i :: 0 <= i < |lh| ==> dk[l.start + 1 + i] == v[lh[i]]
  {
    hide PutHeader, HeadFits, Header, RecoveredAt, Apply;
    CommitRange(l, lh, v, d);
    Log.LogRange(l, lh, v, d);
    Log.MarkStage(l, lh, v, d);
    Log.CommitSecondHalf(l, lh, v, d, m);
    var a := LogWrites(l, lh, v) + [HeadWrite(l, v[l.start], lh)];
    var h := HomeWrites(lh, v);
    var b := h + [HeadWrite(l, PutHeader(v[l.start], lh), [])];
    assert b[..m] == h[..m];
    Log.HomeStage(l, lh, v, d, Apply(d, a), m);
  }

  // ----- the machine's steps -----

  /** State t is k block writes into the commit that s is about to start. */
  ghost predicate Reached(l: Layout, s: State, t: State, p: nat, k: nat)
    requires Inv(l, s) && Group(l, s.lh, ViewAll(s), s.disk) && k <= 2 * |s.lh| + 2
  {
    && Inv(l, t) && InPhase(t, p) && t.procs[p].phase == PhaseAt(|s.lh|, k)
    && (k <= 2 * |s.lh| + 1 ==> t.lh == s.lh) && (k <= |s.lh| ==> t.pending == s.pending)
    && Applied(s.disk, CommitWrites(l, s.lh, ViewAll(s), s.disk), k, t.disk)
  }

  lemma StartGroup(l: Layout, s: State, p: nat)
    requires Inv(l, s) && InPhase(s, p) && s.procs[p].phase == WritingLog(0) && |s.lh| < l.size
    ensures Group(l, s.lh, ViewAll(s), s.disk) && AllPending(s, 0)
    ensures Reached(l, s, s, p, 0)
  {
    PhaseHere(l, s, p);
    CommitterAlone(l, s, p);
    assert l.start !in s.lh;
    hide Protocol, Pinned, Phases;
    CommitRange(l, s.lh, ViewAll(s), s.disk);
    hide CommitWrites;
    assert CommitWrites(l, s.lh, ViewAll(s), s.disk)[..0] == [];
  }

  /** The step that is taken writes the block that WriteOn names. */
  lemma StepWrites(l: Layout, t: State, p: nat, n: nat, v: seq<Block>, k: nat)
    requires Inv(l, t) && InPhase(t, p) && n == |t.lh| && t.procs[p].phase == PhaseAt(n, k) && k < 2 * n + 2
    requires |v| == l.nblocks && LoggedBlocks(l, t.lh)
    requires k < n ==> View(t, t.lh[k]) == v[t.lh[k]]
    requires Enabled(l, t, NextStep(p, n, k))
    ensures var u := Do(l, t, NextStep(p, n, k));
            var w := WriteOn(l, t.lh, v, t.disk, k);
            && u.disk == t.disk[w.blockno := w.data] && InPhase(u, p) && u.procs[p].phase == PhaseAt(n, k + 1)
            && (k < 2 * n + 1 ==> u.lh == t.lh) && (k < n ==> u.pending == t.pending)
  {
    hide Protocol, Space, Pinned, Phases, HeadOk, PutHeader, Cache.CanRead;
  }

  lemma ReachedNext(l: Layout, s: State, t: State, p: nat, k: nat)
    requires Inv(l, s) && Group(l, s.lh, ViewAll(s), s.disk) && AllPending(s, 0) && k < 2 * |s.lh| + 2
    requires Reached(l, s, t, p, k) && Enabled(l, t, NextStep(p, |s.lh|, k))
    ensures Reached(l, s, Do(l, t, NextStep(p, |s.lh|, k)), p, k + 1)
  {
    var n, v, x := |s.lh|, ViewAll(s), NextStep(p, |s.lh|, k);
    var ws := CommitWrites(l, s.lh, v, s.disk);
    hide Inv, HeadOk, HeaderOf, CommitWrites, Enabled, Do, InPhase, WriteOn, Applied, PhaseAt;
    ReachedSane(l, s, t, p, k);
    StepKeeps(l, t, x);
    NextWrite(l, s.lh, v, s.disk, k, t.disk);
    StepWrites(l, t, p, n, v, k);
    AppliedNext(s.disk, ws, k, t.disk);
  }

  lemma NextWrite(l: Layout, lh: seq<nat>, v: seq<Block>, d: seq<Block>, k: nat, dk: seq<Block>)
    requires Group(l, lh, v, d) && k < 2 * |lh| + 2 && Applied(d, CommitWrites(l, lh, v, d), k, dk)
    ensures |dk| == l.nblocks && k < |CommitWrites(l, lh, v, d)|
    ensures CommitWrites(l, lh, v, d)[k] == WriteOn(l, lh, v, dk, k)
  {
    hide CommitWrites, WriteOn;
    if k <= |lh| {
      BeforeMark(l, lh, v, d, k);
    } else {
      AfterMark(l, lh, v, d, k);
    }
  }

  lemma ReachedSane(l: Layout, s: State, t: State, p: nat, k: nat)
    requires Inv(l, s) && Group(l, s.lh, ViewAll(s), s.disk) && AllPending(s, 0) && k < 2 * |s.lh| + 2
    requires Reached(l, s, t, p, k)
    ensures Sane(l, s) && Sane(l, t) && |s.disk| == l.nblocks && t.lh == s.lh && LoggedBlocks(l, t.lh)
    ensures k < |s.lh| ==> View(t, t.lh[k]) == ViewAll(s)[t.lh[k]]
  {
    hide HeadOk, Apply, CommitWrites;
  }

  lemma {:induction false} CommitRuns(l: Layout, s: State, p: nat, k: nat)
    requires Inv(l, s) && Group(l, s.lh, ViewAll(s), s.disk) && AllPending(s, 0) && Reached(l, s, s, p, 0)
    requires k <= 2 * |s.lh| + 2 && Legal(l, s, CommitSteps(p, |s.lh|, k))
    ensures Reached(l, s, Exec(l, s, CommitSteps(p, |s.lh|, k)), p, k)
  {
    hide Inv, Group, Reached, HeadOk, Enabled, Do;
    if k > 0 {
      var steps := CommitSteps(p, |s.lh|, k);
      assert steps == CommitSteps(p, |s.lh|, k - 1) + [NextStep(p, |s.lh|, k - 1)];
      LegalPrefix(l, s, CommitSteps(p, |s.lh|, k - 1), NextStep(p, |s.lh|, k - 1));
      CommitRuns(l, s, p, k - 1);
      ReachedNext(l, s, Exec(l, s, CommitSteps(p, |s.lh|, k - 1)), p, k - 1);
    }
  }

  lemma {:induction false} LegalPrefix(l: Layout, s: State, steps: seq<Step>, x: Step)
    requires Legal(l, s, steps + [x])
    ensures Legal(l, s, steps)
    ensures var t := Exec(l, s, steps);
            Sane(l, t) && Enabled(l, t, x) && Exec(l, s, steps + [x]) == Do(l, t, x)
    decreases |steps|
  {
    hide Sane, Enabled, Do;
    if steps == [] {
      assert (steps + [x])[1..] == [];
    } else {
      assert (steps + [x])[1..] == steps[1..] + [x];
      LegalPrefix(l, Do(l, s, steps[0]), steps[1..], x);
    }
  }

  /** After any run that brings a process to the start of a commit, its first k steps leave the
      disk that the first k block writes of commit() leave. */
  lemma CommitIsItsWrites(l: Layout, s0: State, steps: seq<Step>, p: nat, k: nat)
    requires PowerOn(l, s0) && Legal(l, s0, steps)
    requires var s := Exec(l, s0, steps);
             && InPhase(s, p) && s.procs[p].phase == WritingLog(0)
             && 0 < k <= 2 * |s.lh| + 2 && Legal(l, s, CommitSteps(p, |s.lh|, k))
    ensures var s := Exec(l, s0, steps);
            && Group(l, s.lh, ViewAll(s), s.disk)
            && var ws := CommitWrites(l, s.lh, ViewAll(s), s.disk);
            && k <= |ws| && (forall i :: 0 <= i < |ws| ==> ws[i].blockno < |s.disk|)
            && Exec(l, s, CommitSteps(p, |s.lh|, k)).disk == Apply(s.disk, ws[..k])
  {
    PowerOnInv(l, s0);
    RunKeeps(l, s0, steps);
    var s := Exec(l, s0, steps);
    FirstStep(p, |s.lh|, k);
    PhaseHere(l, s, p);
    WriteLogKeeps(l, s, p);
    StartGroup(l, s, p);
    CommitRuns(l, s, p, k);
  }
}
