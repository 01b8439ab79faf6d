/** The run of module FaultRun, for the four faults of module Deployment: what it may do to
    a shared Deployment, and when it brings the baseline back. */
module FaultRunTheorems {
  import opened Text
  import opened JsonPatch
  import opened ScriptFault
  import opened Deployment
  import opened DeploymentCells
  import opened DeploymentProofs
  import opened DeploymentRoundTrip
  import opened FaultRun

  /** The fault is in place exactly as the tool sent it, under a new version. */
  predicate Admitted(c: Contract, d: Json) {
    && Get(d, UID) == Some(Str(c.uid))
    && NonEmptyStr(Get(d, VERSION)) && Get(d, VERSION) != Some(Str(c.version))
    && match c.fault
       case Argument(_, k, _, args, faulty) =>
         k + 1 < |args| && ArgVector(d) == Some(args[k + 1 := faulty])
       case Secrets(_, missing) => SecretValue(d, 0) == SecretValue(d, 1) == Some(Str(missing))
       case Script(i, script, command) =>
         InitScript(d) == Some((i, Text.Replace(script, MARKER, Injection(command) + MARKER)))
       case Gate(i, env) => Env(d, i) == Some(env + [GATE])
  }

  function ProtocolOf(c: Contract): Protocol {
    Protocol(FaultOps(c), d => Admitted(c, d), d => PlanFor(c, d), d => Restored(c, d), c.version)
  }

  /** The cells that the tool may write for this fault. */
  ghost predicate Target(c: Contract, w: Path) {
    match c.fault
    case Argument(_, _, _, _, _) => exists i: nat :: i > 0 && w == ArgCell(i)
    case Secrets(_, _) => w in {SecretCell(0), SecretCell(1)}
    case Script(_, _, _) => exists i: nat :: w == ScriptCell(i)
    case Gate(i, _) => w == EnvCell(i)
  }

  /** A cell of somebody else's: apart from the version and from all targets. */
  ghost predicate Foreign(c: Contract, q: Path) {
    Apart(VERSION, q) && forall w :: Target(c, w) ==> Apart(w, q)
  }

  function Cell(d: Option<Json>, q: Path): Option<Json> {
    if d.None? then None else Get(d.value, q)
  }

  lemma StampFrame(d: Json, version: string, q: Path)
    requires Apart(VERSION, q)
    ensures Get(Stamp(d, version), q) == Get(d, q)
  {
    if Get(d, VERSION).Some? { PutFrame(d, VERSION, Str(version), q); }
  }

  /** The cell at `x` held what the write's author looks for before it writes: the guarded value
      for the injector, an injected one for the cleaner. */
  ghost predicate Held(c: Contract, w: Write, x: Path) {
    && w.before.Some?
    && match w.author
       case Injector => Guarded(c, w.before.value, x)
       case Cleaner => Injected(c, w.before.value, x)
       case Outside => false
  }

  /** A write of the tool that changes a cell, whatever document it meets, changes it because that
      cell, or one above or below it, held the guarded or the injected value. */
  lemma ToolWriteIsGuarded(c: Contract, w: Write, q: Path)
    requires Allowed(ProtocolOf(c), w) && !w.author.Outside? && Apart(VERSION, q)
    ensures Cell(w.after, q) == Cell(w.before, q) || exists x :: Held(c, w, x) && !Apart(x, q)
  {
    var d := w.before.value;
    var ops, v :| Patch(d, ops).Some? && w.after == Some(Stamp(Patch(d, ops).value, v))
      && (w.author.Injector? ==> ops == FaultOps(c))
      && (w.author.Cleaner? ==> exists read :: PlanFor(c, read).Undo? && PlanFor(c, read).ops == ops);
    StampFrame(Patch(d, ops).value, v, q);
    if w.author.Injector? {
      FaultTouchesOnlyBaseline(c, d, q);
    } else {
      var read :| PlanFor(c, read).Undo? && PlanFor(c, read).ops == ops;
      CleanupIsGuarded(c, read, d);
      CleanupTouchesOnlyInjected(c, d, Patch(d, ops).value, q);
    }
  }

  lemma HeldIsTarget(c: Contract, w: Write, x: Path)
    requires Held(c, w, x)
    ensures Target(c, x)
  {
    if w.author.Injector? {
      GuardedIsTarget(c, w.before.value, x);
    } else {
      InjectedIsTarget(c, w.before.value, x);
    }
  }

  /** In particular no write of the tool changes a foreign cell. */
  lemma ToolWriteKeepsForeign(c: Contract, w: Write, q: Path)
    requires Allowed(ProtocolOf(c), w) && !w.author.Outside? && Foreign(c, q)
    ensures Cell(w.after, q) == Cell(w.before, q)
  {
    ToolWriteIsGuarded(c, w, q);
    if x :| Held(c, w, x) && !Apart(x, q) { HeldIsTarget(c, w, x); }
  }

  lemma GuardedIsTarget(c: Contract, d: Json, w: Path)
    requires Guarded(c, d, w)
    ensures Target(c, w)
  {
  }

  lemma InjectedIsTarget(c: Contract, d: Json, w: Path)
    requires Injected(c, d, w)
    ensures Target(c, w)
  {
  }

  /** Write `i` changes the cell, by the hand of an outside writer or by the tool where the tool
      found its own value. */
  ghost predicate Accounted(c: Contract, log: seq<Write>, q: Path, i: int) {
    && 0 <= i < |log| && Cell(log[i].after, q) != Cell(log[i].before, q)
    && (log[i].author.Outside? || exists x :: Held(c, log[i], x) && !Apart(x, q))
  }

  /** Over a whole run and for every cell but the version: it ends as it began, or some write
      accounts for the change. */
  lemma {:induction false} RunChangesAreGuarded(c: Contract, start: Option<Json>, log: seq<Write>, end: Option<Json>,
                                                q: Path)
    requires Chain(start, log, end) && Disciplined(ProtocolOf(c), log) && Apart(VERSION, q)
    ensures Cell(end, q) == Cell(start, q) || exists i :: Accounted(c, log, q, i)
    decreases |log|
  {
    if log != [] {
      if Cell(log[0].after, q) != Cell(log[0].before, q) {
        if !log[0].author.Outside? { ToolWriteIsGuarded(c, log[0], q); }
        assert Accounted(c, log, q, 0);
      } else {
        RunChangesAreGuarded(c, log[0].after, log[1..], end, q);
        if i :| Accounted(c, log[1..], q, i) { assert Accounted(c, log, q, i + 1); }
      }
    }
  }

  /** Hence a foreign cell that no outside writer changes ends as it began, whatever the tool and
      the others do elsewhere. */
  lemma RunKeepsForeign(c: Contract, start: Option<Json>, log: seq<Write>, end: Option<Json>, q: Path)
    requires Chain(start, log, end) && Disciplined(ProtocolOf(c), log) && Foreign(c, q)
    requires forall i :: 0 <= i < |log| && log[i].author.Outside? ==> Cell(log[i].after, q) == Cell(log[i].before, q)
    ensures Cell(end, q) == Cell(start, q)
  {
    RunChangesAreGuarded(c, start, log, end, q);
    if i :| Accounted(c, log, q, i) {
      var x :| Held(c, log[i], x) && !Apart(x, q);
      HeldIsTarget(c, log[i], x);
    }
  }

  /** A new version changes none of the parts that the tool looks at. */
  lemma StampKeepsParts(d: Json, version: string)
    ensures Get(Stamp(d, version), UID) == Get(d, UID)
    ensures Get(Stamp(d, version), INITS) == Get(d, INITS)
    ensures forall i: nat :: Get(Stamp(d, version), Container(i)) == Get(d, Container(i))
    ensures forall i: nat :: Get(Stamp(d, version), EnvCell(i)) == Get(d, EnvCell(i))
  {
    UidApart([Key("initContainers")]);
    StampFrame(d, version, UID);
    StampFrame(d, version, INITS);
    forall i: nat
      ensures Get(Stamp(d, version), Container(i)) == Get(d, Container(i))
      ensures Get(Stamp(d, version), EnvCell(i)) == Get(d, EnvCell(i))
    {
      assert Container(i) == POD + [Key("containers"), Idx(i)];
      assert EnvCell(i) == POD + [Key("containers"), Idx(i), Key("env")];
      UidApart([Key("containers"), Idx(i)]);
      UidApart([Key("containers"), Idx(i), Key("env")]);
      StampFrame(d, version, Container(i));
      StampFrame(d, version, EnvCell(i));
    }
  }

  lemma StampKeepsRestored(c: Contract, d: Json, version: string)
    requires Restored(c, d)
    ensures Restored(c, Stamp(d, version))
  {
    StampKeepsParts(d, version);
  }

  lemma StampKeepsFaulted(c: Contract, d: Json, version: string)
    requires Faulted(c, d)
    ensures Faulted(c, Stamp(d, version))
  {
    StampKeepsParts(d, version);
  }

  /** A restored object needs no cleanup. */
  lemma RestoredIsKept(c: Contract, d: Json)
    requires Restored(c, d) && Recognisable(c.fault)
    ensures PlanFor(c, d).Keep?
  {
    if c.fault.Gate? {
      var env := c.fault.env;
      WhereNone(|env|, (j: nat) => j < |env| && IsGate(env[j]));
    }
  }

  /** Cleanup succeeds if the first read finds the baseline, as when the fault never landed. */
  lemma RecoversUntouched(c: Contract, stored: Option<Json>, events: seq<Event>)
    requires Recognisable(c.fault)
    requires Next(events).delivery.Answered?
    requires var d := Edited(stored, Next(events)); d.Some? && Restored(c, d.value)
    ensures Recoverable(ProtocolOf(c), stored, events)
  {
    RestoredIsKept(c, Edited(stored, Next(events)).value);
  }

  /** Cleanup succeeds if the fault is in place when it reads and when its patch arrives, no
      outside edit undoes the restored cells, both reads are answered and the patch reaches
      the server, even when the answer to the patch is lost. */
  lemma RecoversFaulted(c: Contract, stored: Option<Json>, events: seq<Event>)
    requires var e0, e1, e2 := Next(events), Next(Later(events)), Next(Later(Later(events)));
      var d0, d1 := Edited(stored, e0), Edited(Edited(stored, e0), e1);
      && e0.delivery.Answered? && d0.Some? && Faulted(c, d0.value)
      && !e1.delivery.Lost? && d1.Some? && Faulted(c, d1.value)
      && e2.delivery.Answered?
      && (e2.edit.Some? ==> e2.edit.value.Some? && Restored(c, e2.edit.value.value))
    ensures Recoverable(ProtocolOf(c), stored, events)
  {
    var e1 := Next(Later(events));
    var d0 := Edited(stored, Next(events));
    var d1 := Edited(d0, e1);
    CleanupRestores(c, d0.value, d1.value);
    StampKeepsRestored(c, Patch(d1.value, PlanFor(c, d0.value).ops).value, e1.version);
  }

  /** Without interference the run's two patches take each other back: the fault patch applies
      to the recorded object, and cleanup of what the server then holds restores it. */
  lemma UndisturbedRoundTrip(c: Contract, d: Json, v: string, w: string)
    requires Baseline(c, d)
    ensures Patch(d, FaultOps(c)).Some?
    ensures var faulted := Stamp(Patch(d, FaultOps(c)).value, v);
      && PlanFor(c, faulted).Undo? && Patch(faulted, PlanFor(c, faulted).ops).Some?
      && var last := Stamp(Patch(faulted, PlanFor(c, faulted).ops).value, w);
      Restored(c, last) && AtBaseline(c, last)
  {
    FaultTakes(c, d);
    StampKeepsFaulted(c, Patch(d, FaultOps(c)).value, v);
    var faulted := Stamp(Patch(d, FaultOps(c)).value, v);
    CleanupRestores(c, faulted, faulted);
    StampKeepsRestored(c, Patch(faulted, PlanFor(c, faulted).ops).value, w);
    RestoredMeans(c, Stamp(Patch(faulted, PlanFor(c, faulted).ops).value, w));
  }

  lemma TargetsBelowPod(c: Contract, w: Path)
    requires Target(c, w)
    ensures Apart(w, VERSION)
  {
    match c.fault {
      case Argument(_, _, _, _, _) =>
        var i: nat :| i > 0 && w == ArgCell(i);
        assert w == POD + [Key("containers"), Idx(0), Key("args"), Idx(i)];
        UidApart([Key("containers"), Idx(0), Key("args"), Idx(i)]);
      case Secrets(_, _) =>
        var i: nat := if w == SecretCell(0) then 0 else 1;
        var tail := [Key("env"), Idx(0), Key("valueFrom"), Key("secretKeyRef"), Key("name")];
        assert w == POD + ([Key("containers"), Idx(i)] + tail);
        UidApart([Key("containers"), Idx(i)] + tail);
      case Script(_, _, _) =>
        var i: nat :| w == ScriptCell(i);
        assert w == POD + [Key("initContainers"), Idx(i), Key("args"), Idx(0)];
        UidApart([Key("initContainers"), Idx(i), Key("args"), Idx(0)]);
      case Gate(i, _) =>
        assert w == POD + [Key("containers"), Idx(i), Key("env")];
        UidApart([Key("containers"), Idx(i), Key("env")]);
    }
  }

  /** Neither patch touches the version, so the server's stamp is what is read back. */
  lemma FaultStamped(c: Contract, d: Json, v: string)
    requires Patch(d, FaultOps(c)).Some?
    ensures Get(Stamp(Patch(d, FaultOps(c)).value, v), VERSION) == Some(Str(v))
  {
    FaultTouchesOnlyBaseline(c, d, VERSION);
    var d' := Patch(d, FaultOps(c)).value;
    if x :| Guarded(c, d, x) && !Apart(x, VERSION) {
      GuardedIsTarget(c, d, x);
      TargetsBelowPod(c, x);
    }
    PutThenGet(d', VERSION, Str(v));
  }

  lemma CleanupStamped(c: Contract, d: Json, v: string)
    requires PlanFor(c, d).Undo? && Patch(d, PlanFor(c, d).ops).Some? && Get(d, VERSION).Some?
    ensures Get(Stamp(Patch(d, PlanFor(c, d).ops).value, v), VERSION) == Some(Str(v))
  {
    var d' := Patch(d, PlanFor(c, d).ops).value;
    CleanupIsGuarded(c, d, d);
    CleanupTouchesOnlyInjected(c, d, d', VERSION);
    if x :| Injected(c, d, x) && !Apart(x, VERSION) {
      InjectedIsTarget(c, d, x);
      TargetsBelowPod(c, x);
    }
    PutThenGet(d', VERSION, Str(v));
  }

  lemma FaultedIsAdmitted(c: Contract, d: Json, v: string)
    requires Faulted(c, d) && Get(d, VERSION) == Some(Str(v)) && v != "" && v != c.version
    ensures Admitted(c, d)
  {
  }

  /** The run itself: started on the recorded object, with every request answered, nobody else
      writing, new versions issued and the failure observed, it returns normally. */
  lemma UndisturbedRunReturns(c: Contract, d: Json, events: seq<Event>)
    requires Baseline(c, d) && Quiet(events)
    requires events[0].version != "" && events[3].version != "" && events[0].version != events[3].version
    requires events[0].version != c.version && events[3].version != c.version
    ensures EndsWell(ProtocolOf(c), Some(d), events, true)
  {
    var v, w := events[0].version, events[3].version;
    var p := ProtocolOf(c);
    UndisturbedRoundTrip(c, d, v, w);
    var faulted := Stamp(Patch(d, FaultOps(c)).value, v);
    FaultTakes(c, d);
    StampKeepsFaulted(c, Patch(d, FaultOps(c)).value, v);
    FaultStamped(c, d, v);
    FaultedIsAdmitted(c, faulted, v);
    CleanupStamped(c, faulted, w);
    QuietRun(p, d, faulted, PlanFor(c, faulted).ops, events);
  }

  // The runs, cell by cell ------------------------------------------------------------------------

  /** The recorded cells with the fault in them. */
  ghost predicate FaultCells(c: Contract, d: Json) {
    match c.fault
    case Argument(_, k, _, args, faulty) => k + 1 < |args| && ArgCells(d, args[k + 1 := faulty])
    case Secrets(_, missing) => TokenCells(d, 0, Str(missing)) && TokenCells(d, 1, Str(missing))
    case Script(i, script, command) =>
      StagingCells(d, i, Text.Replace(script, MARKER, command + "; " + MARKER))
    case Gate(i, env) =>
      Get(d, EnvCell(i)) == Some(Arr(env + [Obj(map[
        "name" := Str("TRITIUM_DESTRUCTIVE_CUDA_LOSS_QUALIFICATION"), "value" := Str("1")])]))
  }

  /** The run goes on after its fault patch only when it finds the same object under another version,
      with exactly the fault in the recorded cells. */
  lemma AdmittedMeans(c: Contract, d: Json)
    ensures Admitted(c, d) <==>
      && Get(d, UID) == Some(Str(c.uid)) && FaultCells(c, d)
      && exists v :: v != "" && v != c.version && Get(d, VERSION) == Some(Str(v))
  {
    match c.fault
    case Argument(_, k, _, args, faulty) => if k + 1 < |args| { ArgVectorMeans(d, args[k + 1 := faulty]); }
    case Secrets(_, missing) =>
      SecretMeans(d, 0, Str(missing));
      SecretMeans(d, 1, Str(missing));
    case Script(i, script, command) =>
      StagingMeans(d, i, Text.Replace(script, MARKER, Injection(command) + MARKER));
    case Gate(_, _) =>
  }

  lemma RecoveredAtBaseline(c: Contract, stored: Option<Json>, events: seq<Event>)
    requires Recovered(ProtocolOf(c), stored, events).Some?
    ensures AtBaseline(c, Recovered(ProtocolOf(c), stored, events).value)
  {
    RestoredMeans(c, Recovered(ProtocolOf(c), stored, events).value);
  }

  /** Cleanup of one of the four faults: if it returns, the recorded cells and no others were in the
      object that it read last, whatever others did; foreign drift makes it raise. */
  method RestoreFault(cluster: Cluster, c: Contract) returns (r: Option<Json>, ghost added: seq<Write>)
    modifies cluster
    ensures Chain(old(cluster.stored), added, cluster.stored) && Story(ProtocolOf(c), added, 0, 1)
    ensures r == Recovered(ProtocolOf(c), old(cluster.stored), old(cluster.events))
    ensures r.Some? ==> cluster.lastRead == r && AtBaseline(c, r.value)
  {
    r, added := cluster.Restore(ProtocolOf(c));
    if r.Some? { RestoredMeans(c, r.value); }
  }

  /** Three versions, no two of them the same. */
  ghost predicate ThreeVersions(c: Contract, found: Json, last: Json) {
    && Get(found, VERSION) != Some(Str(c.version)) && Get(last, VERSION) != Some(Str(c.version))
    && Get(found, VERSION) != Get(last, VERSION)
  }

  /** A run that ends well found exactly its fault, and has read the baseline back under a third version. */
  lemma EndsWellMeans(c: Contract, stored: Option<Json>, events: seq<Event>, observed: bool)
    requires EndsWell(ProtocolOf(c), stored, events, observed)
    ensures observed
    ensures var found := FoundFault(ProtocolOf(c), stored, events);
      var (start, left) := AtCleanup(ProtocolOf(c), stored, events);
      var last := Recovered(ProtocolOf(c), start, left);
      && found.Some? && FaultCells(c, found.value) && last.Some? && AtBaseline(c, last.value)
      && ThreeVersions(c, found.value, last.value)
  {
    AdmittedMeans(c, FoundFault(ProtocolOf(c), stored, events).value);
    var (start, left) := AtCleanup(ProtocolOf(c), stored, events);
    RecoveredAtBaseline(c, start, left);
  }

  /** A whole run with one of the four faults: unless cleanup raises, the object that was read last has
      the recorded cells; and a run that comes through its version test found exactly its fault. */
  method QualifyFault(cluster: Cluster, c: Contract, observed: bool)
    returns (outcome: Outcome, ghost added: seq<Write>, ghost found: Option<Json>)
    modifies cluster
    ensures Chain(old(cluster.stored), added, cluster.stored) && Story(ProtocolOf(c), added, 1, 1)
    ensures !outcome.CleanupRaised? ==> cluster.lastRead.Some? && AtBaseline(c, cluster.lastRead.value)
    ensures outcome.Returned? ==>
      && observed && cluster.lastRead == Some(outcome.doc)
      && found.Some? && FaultCells(c, found.value) && ThreeVersions(c, found.value, outcome.doc)
  {
    ghost var p, stored, events := ProtocolOf(c), cluster.stored, cluster.events;
    found := FoundFault(p, stored, events);
    outcome, added := cluster.Qualify(ProtocolOf(c), observed);
    if outcome.Returned? { EndsWellMeans(c, stored, events, observed); }
    if !outcome.CleanupRaised? { RestoredMeans(c, cluster.lastRead.value); }
  }
}
