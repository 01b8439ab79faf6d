/** The metrics scrape flood (scripts/qualify-kubernetes-deployment.py): a pool of W worker
    threads runs N scrape tasks in waves through a W-party barrier, while a generation thread
    waits until W scrapes are active at once and then releases them.

    One step is one atomic action of one thread.  The barrier is the standard library's: it
    fills, then drains, and a thread that arrives while it drains waits until it is empty.
    Timeouts are the one thing left out: a thread waits as long as it has to. */
module MetricsFlood {

  /** Where a worker thread is.  Idle: between tasks.  AwaitStart: at start.wait.  Enter: before
      the locked increment.  AwaitBarrier: before the barrier.  InBarrier: counted by it.
      AwaitLaunch: at launch.wait.  Requesting: in the request.  Leaving: before the locked
      decrement. */
  datatype Pc = Idle | AwaitStart | Enter | AwaitBarrier | InBarrier | AwaitLaunch | Requesting | Leaving

  /** Where the generation thread is. */
  datatype Gen = GenStart | GenReady | GenLaunch | GenRequest | GenDone

  /** What the threads share: the task queue, the three events, the locked counters, and the
      barrier's count and phase. */
  datatype Shared = Shared(
    unsubmitted: nat,
    queue: nat,
    start: bool,
    ready: bool,
    launch: bool,
    active: int,
    peak: int,
    count: int,
    draining: bool)

  datatype State = State(workers: seq<Pc>, gen: Gen, m: Shared)

  datatype Step = Submit | SetStart | Work(i: nat) | Generate

  function Init(w: nat, n: nat): State {
    State(seq(w, _ => Idle), GenStart, Shared(n, 0, false, false, false, 0, 0, 0, false))
  }

  /** Whether a worker at `pc` can go on. */
  predicate CanMove(m: Shared, pc: Pc) {
    match pc
    case Idle => m.queue > 0
    case AwaitStart => m.start
    case AwaitBarrier => !m.draining
    case InBarrier => m.draining
    case AwaitLaunch => m.launch
    case Enter => true
    case Requesting => true
    case Leaving => true
  }

  /** One thread leaves the barrier; the last one to leave makes it ready to fill again. */
  function Leave(m: Shared, count: int): Shared {
    m.(count := count - 1, draining := count - 1 > 0)
  }

  /** One action of a worker at `pc`, in a pool of `w`. */
  function Move(m: Shared, pc: Pc, w: nat): (Shared, Pc)
    requires CanMove(m, pc)
  {
    match pc
    case Idle => (m.(queue := m.queue - 1), AwaitStart)
    case AwaitStart => (m, Enter)
    case Enter =>
      var active := m.active + 1;
      (m.(active := active, peak := if m.peak < active then active else m.peak,
          ready := m.ready || active == w), AwaitBarrier)
    case AwaitBarrier =>
      if m.count + 1 == w then (Leave(m, w), AwaitLaunch) else (m.(count := m.count + 1), InBarrier)
    case InBarrier => (Leave(m, m.count), AwaitLaunch)
    case AwaitLaunch => (m, Requesting)
    case Requesting => (m, Leaving)
    case Leaving => (m.(active := m.active - 1), Idle)
  }

  predicate GenCanMove(m: Shared, g: Gen) {
    match g
    case GenStart => m.start
    case GenReady => m.ready
    case GenLaunch => true
    case GenRequest => true
    case GenDone => false
  }

  function GenMove(m: Shared, g: Gen): (Shared, Gen) {
    match g
    case GenStart => (m, GenReady)
    case GenReady => (m, GenLaunch)
    case GenLaunch => (m.(launch := true), GenRequest)
    case GenRequest => (m, GenDone)
    case GenDone => (m, GenDone)
  }

  predicate Enabled(s: State, step: Step) {
    match step
    case Submit => s.m.unsubmitted > 0
    case SetStart => s.m.unsubmitted == 0 && !s.m.start
    case Generate => GenCanMove(s.m, s.gen)
    case Work(i) => i < |s.workers| && CanMove(s.m, s.workers[i])
  }

  function Do(s: State, step: Step): State
    requires Enabled(s, step)
  {
    match step
    case Submit => s.(m := s.m.(unsubmitted := s.m.unsubmitted - 1, queue := s.m.queue + 1))
    case SetStart => s.(m := s.m.(start := true))
    case Generate =>
      var (m, g) := GenMove(s.m, s.gen);
      State(s.workers, g, m)
    case Work(i) =>
      var (m, pc) := Move(s.m, s.workers[i], |s.workers|);
      State(s.workers[i := pc], s.gen, m)
  }

  /** Everything has run: all tasks are done and the generation thread is too. */
  predicate Finished(s: State) {
    && s.m.start && s.m.unsubmitted == 0 && s.m.queue == 0 && s.gen == GenDone
    && forall i :: 0 <= i < |s.workers| ==> s.workers[i] == Idle
  }

  function Count(ws: seq<Pc>, pc: Pc): nat {
    if ws == [] then 0 else (if ws[0] == pc then 1 else 0) + Count(ws[1..], pc)
  }

  lemma {:induction false} CountUpdate(ws: seq<Pc>, i: nat, to: Pc, pc: Pc)
    requires i < |ws|
    ensures Count(ws[i := to], pc) == Count(ws, pc) + Change(ws[i], to, pc)
  {
    if i == 0 {
      assert ws[0 := to][1..] == ws[1..];
    } else {
      assert ws[i := to][1..] == ws[1..][i - 1 := to];
      CountUpdate(ws[1..], i - 1, to, pc);
    }
  }

  lemma {:induction false} CountPositive(ws: seq<Pc>, i: nat)
    requires i < |ws|
    ensures Count(ws, ws[i]) > 0
  {
    if i > 0 { CountPositive(ws[1..], i - 1); }
  }

  lemma {:induction false} CountFinds(ws: seq<Pc>, pc: Pc) returns (i: nat)
    requires Count(ws, pc) > 0
    ensures i < |ws| && ws[i] == pc
  {
    if ws[0] == pc {
      i := 0;
    } else {
      var k := CountFinds(ws[1..], pc);
      i := k + 1;
    }
  }

  /** How many workers are at each point. */
  datatype Tally = Tally(idle: int, awaitStart: int, enter: int, awaitBarrier: int,
                         inBarrier: int, awaitLaunch: int, requesting: int, leaving: int)
  {
    function Total(): int {
      idle + awaitStart + enter + awaitBarrier + inBarrier + Inside()
    }

    /** The workers past the barrier. */
    function Inside(): int { awaitLaunch + requesting + leaving }

    predicate Natural() {
      && idle >= 0 && awaitStart >= 0 && enter >= 0 && awaitBarrier >= 0
      && inBarrier >= 0 && awaitLaunch >= 0 && requesting >= 0 && leaving >= 0
    }

    /** The tally after a worker has gone from one point to another. */
    function Shift(from: Pc, to: Pc): Tally {
      Tally(idle + Change(from, to, Idle), awaitStart + Change(from, to, AwaitStart),
            enter + Change(from, to, Enter), awaitBarrier + Change(from, to, AwaitBarrier),
            inBarrier + Change(from, to, InBarrier), awaitLaunch + Change(from, to, AwaitLaunch),
            requesting + Change(from, to, Requesting), leaving + Change(from, to, Leaving))
    }
  }

  function Change(from: Pc, to: Pc, pc: Pc): int {
    (if to == pc then 1 else 0) - (if from == pc then 1 else 0)
  }

  function TallyOf(ws: seq<Pc>): Tally {
    Tally(Count(ws, Idle), Count(ws, AwaitStart), Count(ws, Enter), Count(ws, AwaitBarrier),
          Count(ws, InBarrier), Count(ws, AwaitLaunch), Count(ws, Requesting), Count(ws, Leaving))
  }

  lemma {:induction false} CountTotal(ws: seq<Pc>)
    ensures Count(ws, Idle) + Count(ws, AwaitStart) + Count(ws, Enter) + Count(ws, AwaitBarrier)
      + Count(ws, InBarrier) + Count(ws, AwaitLaunch) + Count(ws, Requesting) + Count(ws, Leaving) == |ws|
  {
    if ws != [] { CountTotal(ws[1..]); }
  }

  lemma TallyTotal(ws: seq<Pc>)
    ensures TallyOf(ws).Total() == |ws| && TallyOf(ws).Natural()
  {
    CountTotal(ws);
  }

  lemma ShiftByCounts(a: Tally, b: Tally, from: Pc, to: Pc)
    requires b.idle == a.idle + Change(from, to, Idle) && b.awaitStart == a.awaitStart + Change(from, to, AwaitStart)
    requires b.enter == a.enter + Change(from, to, Enter)
    requires b.awaitBarrier == a.awaitBarrier + Change(from, to, AwaitBarrier)
    requires b.inBarrier == a.inBarrier + Change(from, to, InBarrier)
    requires b.awaitLaunch == a.awaitLaunch + Change(from, to, AwaitLaunch)
    requires b.requesting == a.requesting + Change(from, to, Requesting)
    requires b.leaving == a.leaving + Change(from, to, Leaving)
    ensures b == a.Shift(from, to)
  {}

  lemma TallyMoved(ws: seq<Pc>, i: nat, to: Pc)
    requires i < |ws|
    ensures TallyOf(ws[i := to]) == TallyOf(ws).Shift(ws[i], to)
  {
    forall pc ensures Count(ws[i := to], pc) == Count(ws, pc) + Change(ws[i], to, pc) {
      CountUpdate(ws, i, to, pc);
    }
    ShiftByCounts(TallyOf(ws), TallyOf(ws[i := to]), ws[i], to);
  }

  /** The tasks that have gone through the barrier so far. */
  function Passed(m: Shared, c: Tally, n: nat): int {
    n - m.unsubmitted - m.queue - c.awaitStart - c.enter - c.awaitBarrier - c.inBarrier
  }

  /** The tasks that have been released by the barrier, some of them perhaps still leaving it. */
  function Released(m: Shared, c: Tally, n: nat): int {
    Passed(m, c, n) + if m.draining then m.count else 0
  }

  /** The workers' part of the invariant: the barrier has released whole waves only. */
  ghost predicate PoolInv(m: Shared, c: Tally, w: nat, n: nat) {
    && c.Natural() && c.Total() == w > 0
    && m.active == c.awaitBarrier + c.inBarrier + c.Inside()
    && m.active <= m.peak <= w
    && (m.ready <==> m.peak == w)
    && m.count == c.inBarrier
    && 0 <= m.count < w && (m.draining ==> m.count > 0)
    && c.Inside() <= Passed(m, c, n)
    && Whole(Released(m, c, n), w)
    && (Released(m, c, n) > 0 ==> m.ready)
    && (m.start ==> m.unsubmitted == 0)
  }

  ghost predicate GenInv(m: Shared, g: Gen) {
    && (g in {GenLaunch, GenRequest, GenDone} ==> m.ready)
    && (m.launch <==> g in {GenRequest, GenDone})
  }

  ghost predicate Inv(s: State, w: nat, n: nat) {
    |s.workers| == w && PoolInv(s.m, TallyOf(s.workers), w, n) && GenInv(s.m, s.gen)
  }

  /** The tasks of so many waves of `w`. */
  ghost function Waves(k: nat, w: nat): nat {
    if k == 0 then 0 else Waves(k - 1, w) + w
  }

  /** A whole number of waves. */
  ghost predicate Whole(tasks: int, w: nat) {
    exists k: nat :: tasks == Waves(k, w)
  }

  lemma NextWave(tasks: int, w: nat)
    requires Whole(tasks, w)
    ensures Whole(tasks + w, w)
  {
    var k: nat :| tasks == Waves(k, w);
    assert Waves(k + 1, w) == tasks + w;
  }

  lemma {:induction false} WavesApart(j: nat, k: nat, more: int, w: nat)
    requires Waves(j, w) + more == Waves(k, w) && 0 <= more < w
    ensures more == 0
  {
    if j > 0 && k > 0 { WavesApart(j - 1, k - 1, more, w); }
  }

  lemma PartialWave(tasks: int, more: int, w: nat)
    requires Whole(tasks, w) && Whole(tasks + more, w) && 0 <= more < w
    ensures more == 0
  {
    var j: nat :| tasks == Waves(j, w);
    var k: nat :| tasks + more == Waves(k, w);
    WavesApart(j, k, more, w);
  }

  lemma {:induction false} CountInit(w: nat, pc: Pc)
    ensures Count(seq(w, _ => Idle), pc) == if pc == Idle then w else 0
  {
    var ws := seq(w, _ => Idle);
    if w > 0 {
      assert ws[1..] == seq(w - 1, _ => Idle);
      CountInit(w - 1, pc);
    }
  }

  lemma InitInv(w: nat, n: nat)
    requires w > 0
    ensures Inv(Init(w, n), w, n)
  {
    CountInit(w, Idle);
    CountInit(w, AwaitStart);
    CountInit(w, Enter);
    CountInit(w, AwaitBarrier);
    CountInit(w, InBarrier);
    CountInit(w, AwaitLaunch);
    CountInit(w, Requesting);
    CountInit(w, Leaving);
    assert Waves(0, w) == 0;
  }

  /** Entering the counted part and leaving it again. */
  lemma LockedInv(m: Shared, c: Tally, pc: Pc, w: nat, n: nat)
    requires PoolInv(m, c, w, n) && pc in {Enter, Leaving} && c.Shift(pc, Move(m, pc, w).1).Natural()
    ensures PoolInv(Move(m, pc, w).0, c.Shift(pc, Move(m, pc, w).1), w, n)
  {
  }

  lemma AwaitBarrierInv(m: Shared, c: Tally, w: nat, n: nat)
    requires PoolInv(m, c, w, n) && CanMove(m, AwaitBarrier)
    requires c.Shift(AwaitBarrier, Move(m, AwaitBarrier, w).1).Natural()
    ensures PoolInv(Move(m, AwaitBarrier, w).0, c.Shift(AwaitBarrier, Move(m, AwaitBarrier, w).1), w, n)
  {
    NextWave(Released(m, c, n), w);
  }

  lemma InBarrierInv(m: Shared, c: Tally, w: nat, n: nat)
    requires PoolInv(m, c, w, n) && CanMove(m, InBarrier)
    requires c.Shift(InBarrier, Move(m, InBarrier, w).1).Natural()
    ensures PoolInv(Move(m, InBarrier, w).0, c.Shift(InBarrier, Move(m, InBarrier, w).1), w, n)
  {
  }

  lemma OtherInv(m: Shared, c: Tally, pc: Pc, w: nat, n: nat)
    requires PoolInv(m, c, w, n) && CanMove(m, pc) && pc in {Idle, AwaitStart, AwaitLaunch, Requesting}
    requires c.Shift(pc, Move(m, pc, w).1).Natural()
    ensures PoolInv(Move(m, pc, w).0, c.Shift(pc, Move(m, pc, w).1), w, n)
  {
  }

  lemma MoveInv(m: Shared, c: Tally, pc: Pc, w: nat, n: nat)
    requires PoolInv(m, c, w, n) && CanMove(m, pc) && c.Shift(pc, Move(m, pc, w).1).Natural()
    ensures PoolInv(Move(m, pc, w).0, c.Shift(pc, Move(m, pc, w).1), w, n)
  {
    if pc in {Enter, Leaving} {
      LockedInv(m, c, pc, w, n);
    } else if pc == AwaitBarrier {
      AwaitBarrierInv(m, c, w, n);
    } else if pc == InBarrier {
      InBarrierInv(m, c, w, n);
    } else {
      OtherInv(m, c, pc, w, n);
    }
  }

  lemma MoveKeepsGen(m: Shared, g: Gen, pc: Pc, w: nat)
    requires GenInv(m, g) && CanMove(m, pc)
    ensures GenInv(Move(m, pc, w).0, g)
  {
  }

  lemma WorkerInv(s: State, i: nat, w: nat, n: nat)
    requires Inv(s, w, n) && Enabled(s, Work(i))
    ensures Inv(Do(s, Work(i)), w, n)
  {
    var pc := s.workers[i];
    var to := Move(s.m, pc, w).1;
    TallyMoved(s.workers, i, to);
    TallyTotal(s.workers[i := to]);
    MoveInv(s.m, TallyOf(s.workers), pc, w, n);
    MoveKeepsGen(s.m, s.gen, pc, w);
  }

  lemma StepInv(s: State, step: Step, w: nat, n: nat)
    requires Inv(s, w, n) && Enabled(s, step)
    ensures Inv(Do(s, step), w, n)
  {
    if step.Work? { WorkerInv(s, step.i, w, n); }
  }

  ghost predicate Stuck(s: State) {
    forall step :: !Enabled(s, step)
  }

  lemma StuckAt(s: State, i: nat)
    requires Stuck(s) && i < |s.workers|
    ensures !CanMove(s.m, s.workers[i])
  {
    assert !Enabled(s, Work(i));
  }

  lemma NobodyAt(s: State, pc: Pc)
    requires Stuck(s) && CanMove(s.m, pc)
    ensures Count(s.workers, pc) == 0
  {
    if Count(s.workers, pc) > 0 {
      var i := CountFinds(s.workers, pc);
      StuckAt(s, i);
    }
  }

  /** Whatever the interleaving, a pool that cannot take a step has finished, as long as the
      tasks fill whole waves. */
  lemma StuckIsFinished(s: State, w: nat, n: nat)
    requires Inv(s, w, n) && n > 0 && Whole(n, w) && Stuck(s)
    ensures Finished(s)
  {
    var c := TallyOf(s.workers);
    assert !Enabled(s, Submit) && !Enabled(s, SetStart) && !Enabled(s, Generate);
    NobodyAt(s, AwaitStart);
    NobodyAt(s, Enter);
    NobodyAt(s, Requesting);
    NobodyAt(s, Leaving);
    if s.m.draining { NobodyAt(s, InBarrier); }
    NobodyAt(s, AwaitBarrier);
    if s.m.launch { NobodyAt(s, AwaitLaunch); }
    if s.m.queue > 0 { NobodyAt(s, Idle); }
    // Whoever is left is idle, or in a barrier that is not full; nobody is past the barrier.
    assert s.m.queue == 0;
    PartialWave(Released(s.m, c, n), c.inBarrier, w);
    forall i | 0 <= i < |s.workers| ensures s.workers[i] == Idle { CountPositive(s.workers, i); }
  }

  function GenSupply(g: Gen): nat {
    match g
    case GenStart => 4
    case GenReady => 3
    case GenLaunch => 2
    case GenRequest => 1
    case GenDone => 0
  }

  function WorkSupply(c: Tally): int {
    8 * c.awaitStart + 7 * c.enter + 6 * c.awaitBarrier + 5 * c.inBarrier
      + 4 * c.awaitLaunch + 3 * c.requesting + 2 * c.leaving
  }

  /** Every step uses up some of a fixed supply, so no run goes on for ever. */
  function Supply(s: State): nat {
    10 * s.m.unsubmitted + 9 * s.m.queue + WorkSupply(TallyOf(s.workers)) + GenSupply(s.gen)
      + if s.m.start then 0 else 1
  }

  lemma MoveUsesSupply(m: Shared, c: Tally, pc: Pc, w: nat)
    requires CanMove(m, pc)
    ensures var (m', to) := Move(m, pc, w);
      && 9 * m'.queue + WorkSupply(c.Shift(pc, to)) < 9 * m.queue + WorkSupply(c)
      && m'.unsubmitted == m.unsubmitted && m'.start == m.start
  {
  }

  lemma StepUsesSupply(s: State, step: Step)
    requires Enabled(s, step)
    ensures Supply(Do(s, step)) < Supply(s)
  {
    if step.Work? {
      var pc, w := s.workers[step.i], |s.workers|;
      TallyMoved(s.workers, step.i, Move(s.m, pc, w).1);
      MoveUsesSupply(s.m, TallyOf(s.workers), pc, w);
    }
  }

  // Whole runs -----------------------------------------------------------------------------

  ghost predicate Next(s: State, s': State) {
    exists step :: Enabled(s, step) && s' == Do(s, step)
  }

  /** `run` lists the states of one interleaving from the start on. */
  ghost predicate Run(run: seq<State>, w: nat, n: nat) {
    && |run| > 0 && run[0] == Init(w, n)
    && forall i :: 0 < i < |run| ==> Next(run[i - 1], run[i])
  }

  lemma NextInv(s: State, s': State, w: nat, n: nat)
    requires Inv(s, w, n) && Next(s, s')
    ensures Inv(s', w, n) && Supply(s') < Supply(s)
  {
    var step :| Enabled(s, step) && s' == Do(s, step);
    StepInv(s, step, w, n);
    StepUsesSupply(s, step);
  }

  lemma {:induction false} RunInv(run: seq<State>, w: nat, n: nat, k: nat)
    requires w > 0 && Run(run, w, n) && k < |run|
    ensures Inv(run[k], w, n)
    ensures Supply(run[k]) + k <= Supply(Init(w, n))
    decreases k
  {
    if k == 0 {
      InitInv(w, n);
    } else {
      RunInv(run, w, n, k - 1);
      NextInv(run[k - 1], run[k], w, n);
    }
  }

  /** Nobody is ahead of the events: who is past the start has seen it, and so has the generation
      thread; scrapes and generation run only after the launch, and that only after the readiness. */
  ghost predicate Gated(s: State) {
    && (forall i :: 0 <= i < |s.workers| && s.workers[i] !in {Idle, AwaitStart} ==> s.m.start)
    && (forall i :: 0 <= i < |s.workers| && s.workers[i] in {Requesting, Leaving} ==> s.m.launch)
    && (s.gen != GenStart ==> s.m.start)
    && (s.gen in {GenLaunch, GenRequest, GenDone} ==> s.m.ready)
    && (s.m.launch <==> s.gen in {GenRequest, GenDone})
    && (s.m.start ==> s.m.unsubmitted == 0)
  }

  lemma StepGated(s: State, step: Step)
    requires Gated(s) && Enabled(s, step)
    ensures Gated(Do(s, step))
  {}

  lemma {:induction false} RunGated(run: seq<State>, w: nat, n: nat, k: nat)
    requires Run(run, w, n) && k < |run|
    ensures Gated(run[k])
    decreases k
  {
    if k > 0 {
      RunGated(run, w, n, k - 1);
      var step :| Enabled(run[k - 1], step) && run[k] == Do(run[k - 1], step);
      StepGated(run[k - 1], step);
    }
  }

  /** A worker between its locked increment and its locked decrement. */
  predicate Counted(pc: Pc) { pc !in {Idle, AwaitStart, Enter} }

  function CountedIn(ws: seq<Pc>): nat {
    if ws == [] then 0 else (if Counted(ws[0]) then 1 else 0) + CountedIn(ws[1..])
  }

  lemma {:induction false} CountedMeans(ws: seq<Pc>)
    ensures CountedIn(ws) == Count(ws, AwaitBarrier) + Count(ws, InBarrier) + Count(ws, AwaitLaunch)
      + Count(ws, Requesting) + Count(ws, Leaving)
  {
    if ws != [] { CountedMeans(ws[1..]); }
  }

  /** In every state of every run `active` is the number of workers in the counted part, and the peak
      is at most w; once a task is past the barrier, or the launch is set, it is exactly w. No worker
      and not the generation thread is ahead of the events that it waits for. */
  lemma FloodSafety(run: seq<State>, w: nat, n: nat, k: nat)
    requires w > 0 && Run(run, w, n) && k < |run|
    ensures run[k].m.active == CountedIn(run[k].workers) <= run[k].m.peak <= w
    ensures Passed(run[k].m, TallyOf(run[k].workers), n) > 0 ==> run[k].m.peak == w
    ensures run[k].m.launch ==> run[k].m.peak == w
    ensures Gated(run[k])
  {
    RunInv(run, w, n, k);
    RunGated(run, w, n, k);
    CountedMeans(run[k].workers);
  }

  lemma StepPeak(s: State, step: Step)
    requires Enabled(s, step) && s.m.active <= s.m.peak
    ensures var t := Do(s, step);
      t.m.active <= t.m.peak && s.m.peak <= t.m.peak && (t.m.peak == s.m.peak || t.m.peak == t.m.active)
  {}

  /** The recorded peak is the greatest number of workers that were active at once so far. */
  lemma {:induction false} PeakIsGreatest(run: seq<State>, w: nat, n: nat, k: nat)
    requires Run(run, w, n) && k < |run|
    ensures forall j :: 0 <= j <= k ==> run[j].m.active <= run[k].m.peak
    ensures exists j :: 0 <= j <= k && run[j].m.active == run[k].m.peak
    decreases k
  {
    if k > 0 {
      PeakIsGreatest(run, w, n, k - 1);
      var step :| Enabled(run[k - 1], step) && run[k] == Do(run[k - 1], step);
      StepPeak(run[k - 1], step);
      var j :| 0 <= j <= k - 1 && run[j].m.active == run[k - 1].m.peak;
      assert run[if run[k].m.peak == run[k - 1].m.peak then j else k].m.active == run[k].m.peak;
    }
  }

  /** A finished run has done every task, in whole waves, with the peak the tool asks for. */
  lemma FinishedRun(s: State, w: nat, n: nat)
    requires Inv(s, w, n) && Finished(s)
    ensures Whole(n, w) && s.m.active == 0 && Passed(s.m, TallyOf(s.workers), n) == n && s.m.peak == w
  {
    forall pc | pc != Idle ensures Count(s.workers, pc) == 0 {
      if Count(s.workers, pc) > 0 { var i := CountFinds(s.workers, pc); }
    }
  }

  /** The flood works exactly for the task counts that fill whole waves: then every run that
      cannot be continued has finished, and otherwise no run ever finishes. */
  lemma FloodFinishes(run: seq<State>, w: nat, n: nat)
    requires w > 0 && n > 0 && Run(run, w, n)
    ensures |run| <= Supply(Init(w, n)) + 1
    ensures var end := run[|run| - 1];
      && (Whole(n, w) && Stuck(end) ==>
            && end.m.start && end.m.unsubmitted == 0 && end.m.queue == 0 && end.gen == GenDone
            && forall i :: 0 <= i < |end.workers| ==> end.workers[i] == Idle)
      && (Finished(end) ==>
            Whole(n, w) && end.m.peak == w && end.m.active == 0 && Passed(end.m, TallyOf(end.workers), n) == n)
  {
    var end := run[|run| - 1];
    RunInv(run, w, n, |run| - 1);
    if Whole(n, w) && Stuck(end) { StuckIsFinished(end, w, n); }
    if Finished(end) { FinishedRun(end, w, n); }
  }
}
