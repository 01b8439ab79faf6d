/** The fault patch applied to the recorded Deployment, and cleanup after it: what one does
    the other takes back. */
module DeploymentRoundTrip {
  import opened Text
  import opened JsonPatch
  import opened ScriptFault
  import opened Deployment
  import opened DeploymentCells
  import opened DeploymentProofs

  lemma {:induction false} WhereSame(n: nat, p: nat -> bool, q: nat -> bool)
    requires forall i: nat :: i < n ==> p(i) == q(i)
    ensures Where(n, p) == Where(n, q)
  {
    if n > 0 { WhereSame(n - 1, p, q); }
  }

  lemma {:induction false} WhereNone(n: nat, p: nat -> bool)
    requires forall i: nat :: i < n ==> !p(i)
    ensures Where(n, p) == []
  {
    if n > 0 { WhereNone(n - 1, p); }
  }

  /** Reading a part of a document after a write inside that part. */
  lemma PutInside(d: Json, p: Path, q: Path, v: Json)
    requires Get(d, p + q).Some?
    ensures Get(d, p).Some? && Get(Get(d, p).value, q).Some?
    ensures Get(Put(d, p + q, v), p) == Some(Put(Get(d, p).value, q, v))
  {
    PutAppend(d, p, q, v);
    PutThenGet(d, p, Put(Get(d, p).value, q, v));
  }

  lemma ArgWrite(d: Json, k: nat, v: string)
    requires ArgVector(d).Some? && k < |ArgVector(d).value|
    ensures Get(d, ArgCell(k)) == Some(Str(ArgVector(d).value[k]))
    ensures ArgVector(Put(d, ArgCell(k), Str(v))) == Some(ArgVector(d).value[k := v])
  {
    var tail := [Key("args"), Idx(k)];
    var c := Get(d, Container(0)).value;
    assert tail[1..] == [Idx(k)] && tail[1..][1..] == [];
    GetAppend(d, Container(0), tail);
    var args := Child(c, Key("args")).value;
    assert args.items[k] in args.items;
    assert Get(args, [Idx(k)]) == Some(args.items[k]);
    PutInside(d, Container(0), tail, Str(v));
    assert Put(args, [Idx(k)], Str(v)) == Arr(args.items[k := Str(v)]);
    var c' := Put(c, tail, Str(v));
    assert c' == Obj(c.fields["args" := Arr(args.items[k := Str(v)])]);
    assert VectorOf(c').value == VectorOf(c).value[k := v];
  }

  lemma UidApart(q: Path)
    ensures Apart(POD + q, UID) && Apart(POD + q, VERSION) && Apart(VERSION, UID)
    ensures Apart(UID, POD + q) && Apart(VERSION, POD + q)
  {
    assert POD + q == [] + [Key("spec")] + ([Key("template"), Key("spec")] + q);
    assert UID == [] + [Key("metadata")] + [Key("uid")];
    assert VERSION == [] + [Key("metadata")] + [Key("resourceVersion")];
    ApartAt([], Key("spec"), Key("metadata"), [Key("template"), Key("spec")] + q, [Key("uid")]);
    ApartAt([], Key("spec"), Key("metadata"), [Key("template"), Key("spec")] + q, [Key("resourceVersion")]);
    ApartPrefix(POD + q, UID, []);
    ApartPrefix(POD + q, VERSION, []);
    assert VERSION == [Key("metadata")] + [Key("resourceVersion")] + [];
    assert UID == [Key("metadata")] + [Key("uid")] + [];
    ApartAt([Key("metadata")], Key("resourceVersion"), Key("uid"), [], []);
  }

  lemma ContainersApart(i: nat, j: nat, r: Path)
    requires i != j
    ensures Apart(Container(i) + r, Container(j))
  {
    var base := POD + [Key("containers")];
    assert Container(i) + r == base + [Idx(i)] + r && Container(j) == base + [Idx(j)] + [];
    ApartAt(base, Idx(i), Idx(j), r, []);
  }

  lemma SecretWrite(d: Json, i: nat, j: nat, v: string)
    requires SecretValue(d, i).Some?
    ensures Get(d, SecretCell(i)) == SecretValue(d, i)
    ensures SecretValue(Put(d, SecretCell(i), Str(v)), j) == if i == j then Some(Str(v)) else SecretValue(d, j)
  {
    var tail := [Key("env"), Idx(0), Key("valueFrom"), Key("secretKeyRef"), Key("name")];
    var name := [Key("env"), Idx(0), Key("name")];
    var c := Get(d, Container(i)).value;
    GetAppend(d, Container(i), tail);
    if i == j {
      PutInside(d, Container(i), tail, Str(v));
      PutThenGet(c, tail, Str(v));
      assert tail == [Key("env"), Idx(0)] + [Key("valueFrom")] + [Key("secretKeyRef"), Key("name")];
      assert name == [Key("env"), Idx(0)] + [Key("name")] + [];
      ApartAt([Key("env"), Idx(0)], Key("valueFrom"), Key("name"), [Key("secretKeyRef"), Key("name")], []);
      PutFrame(c, tail, Str(v), name);
    } else {
      ContainersApart(i, j, tail);
      PutFrame(d, SecretCell(i), Str(v), Container(j));
    }
  }

  lemma ScriptWrite(d: Json, v: string)
    requires InitScript(d).Some?
    ensures Get(d, ScriptCell(InitScript(d).value.0)) == Some(Str(InitScript(d).value.1))
    ensures InitScript(Put(d, ScriptCell(InitScript(d).value.0), Str(v))) == Some((InitScript(d).value.0, v))
  {
    var i, inits := InitScript(d).value.0, Get(d, INITS).value;
    var tail := [Idx(i), Key("args"), Idx(0)];
    assert tail[1..] == [Key("args"), Idx(0)] && tail[1..][1..] == [Idx(0)] && tail[1..][1..][1..] == [];
    GetAppend(d, INITS, tail);
    var c := inits.items[i];
    var args := Child(c, Key("args")).value;
    assert Get(args, [Idx(0)]) == Some(args.items[0]);
    assert Get(c, tail[1..]) == Some(args.items[0]);
    PutInside(d, INITS, tail, Str(v));
    var c' := Obj(c.fields["args" := Arr([Str(v)])]);
    assert args.items[0 := Str(v)] == [Str(v)];
    assert Put(args, [Idx(0)], Str(v)) == Arr([Str(v)]);
    assert Put(c, tail[1..], Str(v)) == c';
    var items' := inits.items[i := c'];
    assert Put(inits, tail, Str(v)) == Arr(items');
    WhereSame(|inits.items|, (k: nat) => k < |inits.items| && IsStaging(inits.items[k]),
              (k: nat) => k < |items'| && IsStaging(items'[k]));
  }

  /** The recorded facts about the baseline that make the fault recognisable again. */
  ghost predicate Recognisable(f: Fault) {
    match f
    case Argument(flag, k, source, args, faulty) =>
      && k + 1 < |args| && args[k + 1] == source != faulty
      && forall i :: 0 <= i < |args| ==> (args[i] == flag <==> i == k)
    case Secrets(secret, missing) => secret != missing
    case Script(_, script, command) =>
      Count(script, MARKER) == 1 && Removable(command) && !Contains(script, command)
    case Gate(_, env) => forall i :: 0 <= i < |env| ==> !IsGate(env[i])
  }

  /** The original object, with exactly the fault in it. */
  ghost predicate Faulted(c: Contract, d: Json) {
    && Recognisable(c.fault)
    && Get(d, UID) == Some(Str(c.uid))
    && match c.fault
       case Argument(_, k, _, args, faulty) => ArgVector(d) == Some(args[k + 1 := faulty])
       case Secrets(_, missing) => SecretValue(d, 0) == SecretValue(d, 1) == Some(Str(missing))
       case Script(i, script, command) =>
         InitScript(d) == Some((i, Text.Replace(script, MARKER, Injection(command) + MARKER)))
       case Gate(i, env) => Env(d, i) == Some(env + [GATE])
  }

  /** The original object as it was recorded. */
  ghost predicate Baseline(c: Contract, d: Json) {
    && Recognisable(c.fault)
    && Get(d, UID) == Some(Str(c.uid)) && Get(d, VERSION) == Some(Str(c.version))
    && match c.fault
       case Argument(_, _, _, args, _) => ArgVector(d) == Some(args)
       case Secrets(secret, _) => SecretValue(d, 0) == SecretValue(d, 1) == Some(Str(secret))
       case Script(i, script, _) => InitScript(d) == Some((i, script))
       case Gate(i, env) => Env(d, i) == Some(env)
  }

  lemma {:induction false} TestPasses(d: Json, p: Path, v: Json, rest: seq<Op>)
    requires Get(d, p) == Some(v)
    ensures Patch(d, [Test(p, v)] + rest) == Patch(d, rest)
  {
    assert ([Test(p, v)] + rest)[1..] == rest;
  }

  lemma WritePasses(d: Json, p: Path, v: Json)
    requires Get(d, p).Some?
    ensures Patch(d, [Op.Replace(p, v)]) == Some(Put(d, p, v))
  {
  }

  lemma SwapPasses(d: Json, i: nat, from: string, to: string, rest: seq<Op>)
    requires SecretValue(d, i) == Some(Str(from))
    ensures Get(d, SecretCell(i)).Some?
    ensures Patch(d, SwapSecret(i, from, to) + rest) == Patch(Put(d, SecretCell(i), Str(to)), rest)
  {
    SecretWrite(d, i, i, to);
    var cell := SecretCell(i);
    PatchSplit(d, SwapSecret(i, from, to), rest);
    assert SwapSecret(i, from, to) == [Test(cell, Str(from))] + [Op.Replace(cell, Str(to))];
    TestPasses(d, cell, Str(from), [Op.Replace(cell, Str(to))]);
    WritePasses(d, cell, Str(to));
  }

  /** A write below the pod template changes neither the identity nor the version. */
  lemma PodWriteKeepsIdentity(d: Json, q: Path, v: Json)
    requires Get(d, POD + q).Some?
    ensures Get(Put(d, POD + q, v), UID) == Get(d, UID)
    ensures Get(Put(d, POD + q, v), VERSION) == Get(d, VERSION)
  {
    UidApart(q);
    PutFrame(d, POD + q, v, UID);
    PutFrame(d, POD + q, v, VERSION);
  }

  lemma ArgWriteKeepsIdentity(d: Json, k: nat, v: Json)
    requires Get(d, ArgCell(k)).Some?
    ensures Get(Put(d, ArgCell(k), v), UID) == Get(d, UID)
  {
    assert ArgCell(k) == POD + [Key("containers"), Idx(0), Key("args"), Idx(k)];
    PodWriteKeepsIdentity(d, [Key("containers"), Idx(0), Key("args"), Idx(k)], v);
  }

  lemma SecretWriteKeepsIdentity(d: Json, i: nat, v: Json)
    requires Get(d, SecretCell(i)).Some?
    ensures Get(Put(d, SecretCell(i), v), UID) == Get(d, UID)
  {
    var q := [Key("containers"), Idx(i), Key("env"), Idx(0), Key("valueFrom"), Key("secretKeyRef"), Key("name")];
    assert SecretCell(i) == POD + q;
    PodWriteKeepsIdentity(d, q, v);
  }

  lemma ScriptWriteKeepsIdentity(d: Json, i: nat, v: Json)
    requires Get(d, ScriptCell(i)).Some?
    ensures Get(Put(d, ScriptCell(i), v), UID) == Get(d, UID)
  {
    assert ScriptCell(i) == POD + [Key("initContainers"), Idx(i), Key("args"), Idx(0)];
    PodWriteKeepsIdentity(d, [Key("initContainers"), Idx(i), Key("args"), Idx(0)], v);
  }

  lemma EnvWriteKeepsIdentity(d: Json, i: nat, v: Json)
    requires Get(d, EnvCell(i)).Some?
    ensures Get(Put(d, EnvCell(i), v), UID) == Get(d, UID)
  {
    assert EnvCell(i) == POD + [Key("containers"), Idx(i), Key("env")];
    PodWriteKeepsIdentity(d, [Key("containers"), Idx(i), Key("env")], v);
  }

  lemma SecretsSwapped(d: Json, from: string, to: string)
    requires SecretValue(d, 0) == SecretValue(d, 1) == Some(Str(from))
    ensures var out := Patch(d, SwapSecret(0, from, to) + SwapSecret(1, from, to));
      && out.Some? && Get(out.value, UID) == Get(d, UID)
      && SecretValue(out.value, 0) == SecretValue(out.value, 1) == Some(Str(to))
  {
    SwapPasses(d, 0, from, to, SwapSecret(1, from, to));
    var mid := Put(d, SecretCell(0), Str(to));
    SecretWrite(d, 0, 0, to);
    SecretWrite(d, 0, 1, to);
    SecretWriteKeepsIdentity(d, 0, Str(to));
    SwapPasses(mid, 1, from, to, []);
    assert SwapSecret(1, from, to) + [] == SwapSecret(1, from, to);
    SecretWrite(mid, 1, 0, to);
    SecretWrite(mid, 1, 1, to);
    SecretWriteKeepsIdentity(mid, 1, Str(to));
  }

  lemma ArgumentSwapped(d: Json, k: nat, from: string, to: string)
    requires ArgVector(d).Some? && k + 1 < |ArgVector(d).value| && ArgVector(d).value[k + 1] == from
    ensures var flag := ArgVector(d).value[k];
      var out := Patch(d, [Test(ArgCell(k), Str(flag)), Test(ArgCell(k + 1), Str(from)),
                           Op.Replace(ArgCell(k + 1), Str(to))]);
      && out.Some? && Get(out.value, UID) == Get(d, UID)
      && ArgVector(out.value) == Some(ArgVector(d).value[k + 1 := to])
  {
    var flag := ArgVector(d).value[k];
    var write := [Op.Replace(ArgCell(k + 1), Str(to))];
    var tests := [Test(ArgCell(k + 1), Str(from))] + write;
    ArgWrite(d, k, flag);
    ArgWrite(d, k + 1, to);
    assert [Test(ArgCell(k), Str(flag)), Test(ArgCell(k + 1), Str(from)),
            Op.Replace(ArgCell(k + 1), Str(to))] == [Test(ArgCell(k), Str(flag))] + tests;
    TestPasses(d, ArgCell(k), Str(flag), tests);
    TestPasses(d, ArgCell(k + 1), Str(from), write);
    WritePasses(d, ArgCell(k + 1), Str(to));
    ArgWriteKeepsIdentity(d, k + 1, Str(to));
  }

  lemma ScriptTakes(c: Contract, d: Json)
    requires Baseline(c, d) && c.fault.Script?
    ensures Patch(d, InjectOps(c.fault)).Some? && Faulted(c, Patch(d, InjectOps(c.fault)).value)
  {
    var i := c.fault.index;
    var fault := Str(Text.Replace(c.fault.script, MARKER, Injection(c.fault.command) + MARKER));
    assert InjectOps(c.fault) == [Test(ScriptCell(i), Str(c.fault.script))] + [Op.Replace(ScriptCell(i), fault)];
    ScriptWrite(d, fault.s);
    TestPasses(d, ScriptCell(i), Str(c.fault.script), [Op.Replace(ScriptCell(i), fault)]);
    WritePasses(d, ScriptCell(i), fault);
    ScriptWriteKeepsIdentity(d, i, fault);
  }

  lemma GateTakes(c: Contract, d: Json)
    requires Baseline(c, d) && c.fault.Gate?
    ensures Patch(d, InjectOps(c.fault)).Some? && Faulted(c, Patch(d, InjectOps(c.fault)).value)
  {
    var cell, env := EnvCell(c.fault.container), Arr(c.fault.env + [GATE]);
    assert (cell + [Dash])[..|cell + [Dash]| - 1] == cell;
    PutThenGet(d, cell, env);
    EnvWriteKeepsIdentity(d, c.fault.container, env);
  }

  /** The patch that injects the fault applies to the recorded object and injects it. */
  lemma FaultTakes(c: Contract, d: Json)
    requires Baseline(c, d)
    ensures Patch(d, FaultOps(c)).Some? && Faulted(c, Patch(d, FaultOps(c)).value)
  {
    var ops := InjectOps(c.fault);
    assert FaultOps(c) == [Test(UID, Str(c.uid))] + ([Test(VERSION, Str(c.version))] + ops);
    TestPasses(d, UID, Str(c.uid), [Test(VERSION, Str(c.version))] + ops);
    TestPasses(d, VERSION, Str(c.version), ops);
    match c.fault {
      case Argument(_, k, source, _, faulty) => ArgumentSwapped(d, k, source, faulty);
      case Secrets(secret, missing) => SecretsSwapped(d, secret, missing);
      case Script(_, _, _) => ScriptTakes(c, d);
      case Gate(_, _) => GateTakes(c, d);
    }
  }

  // Cleanup of a faulted object.  `read` is what cleanup saw, `d` the object when its patch
  // arrives: they may differ, as long as the fault is in both.

  lemma ArgumentPlan(f: Fault)
    requires f.Argument? && Recognisable(f)
    ensures Pairs(f.args, f.flag, f.faulty) == []
    ensures Pairs(f.args[f.flagIndex + 1 := f.faulty], f.flag, f.faulty) == [f.flagIndex]
  {
    var args, flag, faulty := f.args, f.flag, f.faulty;
    var now := args[f.flagIndex + 1 := faulty];
    WhereNone(|args|, (i: nat) => i + 1 < |args| && args[i] == flag && args[i + 1] == faulty);
    WhereOnly(|now|, (i: nat) => i + 1 < |now| && now[i] == flag && now[i + 1] == faulty, f.flagIndex);
  }

  lemma ArgumentUndo(c: Contract, d: Json)
    requires Faulted(c, d) && c.fault.Argument?
    ensures var f := c.fault;
      var ops := [Test(UID, Str(c.uid)), Test(ArgCell(f.flagIndex), Str(f.flag)),
                  Test(ArgCell(f.flagIndex + 1), Str(f.faulty)), Op.Replace(ArgCell(f.flagIndex + 1), Str(f.source))];
      && Patch(d, ops).Some? && Get(Patch(d, ops).value, UID) == Some(Str(c.uid))
      && ArgVector(Patch(d, ops).value) == Some(f.args)
  {
    var f := c.fault;
    var k := f.flagIndex;
    var ops := [Test(ArgCell(k), Str(f.flag)), Test(ArgCell(k + 1), Str(f.faulty)),
                Op.Replace(ArgCell(k + 1), Str(f.source))];
    TestPasses(d, UID, Str(c.uid), ops);
    assert [Test(UID, Str(c.uid))] + ops == [Test(UID, Str(c.uid)), Test(ArgCell(k), Str(f.flag)),
                  Test(ArgCell(k + 1), Str(f.faulty)), Op.Replace(ArgCell(k + 1), Str(f.source))];
    ArgumentSwapped(d, k, f.faulty, f.source);
    assert f.args[k + 1 := f.faulty][k + 1 := f.source] == f.args;
  }

  lemma ArgumentRestores(c: Contract, read: Json, d: Json)
    requires Faulted(c, read) && Faulted(c, d) && c.fault.Argument?
    ensures PlanFor(c, read).Undo? && Patch(d, PlanFor(c, read).ops).Some?
    ensures Restored(c, Patch(d, PlanFor(c, read).ops).value)
  {
    ArgumentUndo(c, d);
    ArgumentDecision(c);
  }

  lemma ArgumentDecision(c: Contract)
    requires c.fault.Argument? && Recognisable(c.fault)
    ensures var f := c.fault;
      && Pairs(f.args, f.flag, f.faulty) == []
      && PlanArgument(c, f.args[f.flagIndex + 1 := f.faulty]) ==
         Undo([Test(UID, Str(c.uid)), Test(ArgCell(f.flagIndex), Str(f.flag)),
               Test(ArgCell(f.flagIndex + 1), Str(f.faulty)), Op.Replace(ArgCell(f.flagIndex + 1), Str(f.source))])
  {
    ArgumentPlan(c.fault);
  }

  lemma SecretsRestores(c: Contract, read: Json, d: Json)
    requires Faulted(c, read) && Faulted(c, d) && c.fault.Secrets?
    ensures PlanFor(c, read).Undo? && Patch(d, PlanFor(c, read).ops).Some?
    ensures Restored(c, Patch(d, PlanFor(c, read).ops).value)
  {
    var missing, secret := c.fault.missing, c.fault.secret;
    var ops := SwapSecret(0, missing, secret) + SwapSecret(1, missing, secret);
    assert PlanFor(c, read).ops == [Test(UID, Str(c.uid))] + ops;
    TestPasses(d, UID, Str(c.uid), ops);
    SecretsSwapped(d, missing, secret);
  }

  lemma ScriptRestores(c: Contract, read: Json, d: Json)
    requires Faulted(c, read) && Faulted(c, d) && c.fault.Script?
    ensures PlanFor(c, read).Undo? && Patch(d, PlanFor(c, read).ops).Some?
    ensures Restored(c, Patch(d, PlanFor(c, read).ops).value)
  {
    var i, script, command := c.fault.index, c.fault.script, c.fault.command;
    var fault := Text.Replace(script, MARKER, Injection(command) + MARKER);
    InjectionUndone(script, command);
    CountZero(fault, command, "");
    var write := [Op.Replace(ScriptCell(i), Str(script))];
    assert PlanFor(c, read).ops == [Test(UID, Str(c.uid))] + ([Test(ScriptCell(i), Str(fault))] + write);
    ScriptWrite(d, script);
    TestPasses(d, UID, Str(c.uid), [Test(ScriptCell(i), Str(fault))] + write);
    TestPasses(d, ScriptCell(i), Str(fault), write);
    WritePasses(d, ScriptCell(i), Str(script));
    ScriptWriteKeepsIdentity(d, i, Str(script));
  }

  lemma GatePlan(c: Contract)
    requires c.fault.Gate? && Recognisable(c.fault)
    ensures Gates(c.fault.env + [GATE]) == [|c.fault.env|]
  {
    var now := c.fault.env + [GATE];
    assert IsGate(GATE);
    WhereOnly(|now|, (j: nat) => j < |now| && IsGate(now[j]), |c.fault.env|);
  }

  lemma GateRemoved(d: Json, k: nat, env: seq<Json>)
    requires Env(d, k) == Some(env + [GATE])
    ensures var cell := EnvCell(k) + [Idx(|env|)];
      Patch(d, [Test(cell, GATE)] + [Remove(cell)]) == Some(Put(d, EnvCell(k), Arr(env)))
  {
    var cell, i, now := EnvCell(k) + [Idx(|env|)], |env|, env + [GATE];
    GetAppend(d, EnvCell(k), [Idx(i)]);
    assert cell[..|cell| - 1] == EnvCell(k);
    TestPasses(d, cell, GATE, [Remove(cell)]);
    assert now[..i] + now[i + 1..] == env;
  }

  lemma GateRestores(c: Contract, read: Json, d: Json)
    requires Faulted(c, read) && Faulted(c, d) && c.fault.Gate?
    ensures PlanFor(c, read).Undo? && Patch(d, PlanFor(c, read).ops).Some?
    ensures Restored(c, Patch(d, PlanFor(c, read).ops).value)
  {
    var k, env := c.fault.container, c.fault.env;
    var cell := EnvCell(k) + [Idx(|env|)];
    GatePlan(c);
    assert PlanFor(c, read).ops == [Test(UID, Str(c.uid))] + ([Test(cell, GATE)] + [Remove(cell)]);
    TestPasses(d, UID, Str(c.uid), [Test(cell, GATE)] + [Remove(cell)]);
    GateRemoved(d, k, env);
    PutThenGet(d, EnvCell(k), Arr(env));
    EnvWriteKeepsIdentity(d, k, Arr(env));
  }

  /** Cleanup recognises the fault, and its patch brings the baseline back. */
  lemma CleanupRestores(c: Contract, read: Json, d: Json)
    requires Faulted(c, read) && Faulted(c, d)
    ensures PlanFor(c, read).Undo? && Patch(d, PlanFor(c, read).ops).Some?
    ensures Restored(c, Patch(d, PlanFor(c, read).ops).value) && AtBaseline(c, Patch(d, PlanFor(c, read).ops).value)
  {
    match c.fault {
      case Argument(_, _, _, _, _) => ArgumentRestores(c, read, d);
      case Secrets(_, _) => SecretsRestores(c, read, d);
      case Script(_, _, _) => ScriptRestores(c, read, d);
      case Gate(_, _) => GateRestores(c, read, d);
    }
    RestoredMeans(c, Patch(d, PlanFor(c, read).ops).value);
  }

  // What the contract functions record -----------------------------------------------------

  lemma ArgumentRecorded(d: Json, flag: string, source: string, faulty: string)
    requires ArgumentContract(d, flag, source, faulty).Some? && source != faulty
    ensures Baseline(ArgumentContract(d, flag, source, faulty).value, d)
  {
    var args := ArgVector(d).value;
    var at := Flags(args, flag);
    forall i | 0 <= i < |args| ensures args[i] == flag <==> i == at[0] {
      assert i in at <==> args[i] == flag;
    }
  }

  lemma SecretBound(d: Json, i: nat)
    requires Binding(d, i).Some?
    ensures SecretValue(d, i) == Some(Str(Binding(d, i).value.0))
  {
    var env := Env(d, i).value;
    var tail := [Key("valueFrom"), Key("secretKeyRef"), Key("name")];
    GetAppend(d, Container(i), [Key("env")]);
    var c := Get(d, Container(i)).value;
    assert 0 in [0];
    assert Get(c, [Key("env")]) == Some(Arr(env));
    assert [Key("env"), Idx(0), Key("name")] == [Key("env")] + ([Idx(0)] + [Key("name")]);
    GetAppend(c, [Key("env")], [Idx(0)] + [Key("name")]);
    GetAppend(Arr(env), [Idx(0)], [Key("name")]);
    assert [Key("env"), Idx(0), Key("valueFrom"), Key("secretKeyRef"), Key("name")] == [Key("env")] + ([Idx(0)] + tail);
    GetAppend(c, [Key("env")], [Idx(0)] + tail);
    GetAppend(Arr(env), [Idx(0)], tail);
    assert tail == [Key("valueFrom"), Key("secretKeyRef")] + [Key("name")];
  }

  lemma SecretRecorded(d: Json, missing: string)
    requires SecretContract(d, missing).Some? && SecretContract(d, missing).value.fault.secret != missing
    ensures Baseline(SecretContract(d, missing).value, d)
  {
    SecretBound(d, 0);
    SecretBound(d, 1);
  }

  lemma ScriptRecorded(d: Json, scenario: Scenario, profile: Profile)
    requires ScriptContract(d, scenario, profile).Some?
    ensures Baseline(ScriptContract(d, scenario, profile).value, d)
  {
    CommandsRemovable(scenario, profile);
  }

  lemma GateRecorded(d: Json)
    requires GateContract(d).Some?
    ensures Baseline(GateContract(d).value, d)
  {
    var env := GateContract(d).value.fault.env;
    forall i | 0 <= i < |env| ensures !IsGate(env[i]) { assert i !in Gates(env); }
  }

  // The fault patch on an arbitrary object -------------------------------------------------

  /** The cell `w` holds the baseline value that the fault patch tests before replacing it;
      the gate is appended to the environment of an object of the recorded version. */
  ghost predicate Guarded(c: Contract, d: Json, w: Path) {
    match c.fault
    case Argument(flag, k, source, _, _) =>
      w == ArgCell(k + 1) && Get(d, ArgCell(k)) == Some(Str(flag)) && Get(d, w) == Some(Str(source))
    case Secrets(secret, _) => w in {SecretCell(0), SecretCell(1)} && Get(d, w) == Some(Str(secret))
    case Script(i, script, _) => w == ScriptCell(i) && Get(d, w) == Some(Str(script))
    case Gate(i, _) =>
      w == EnvCell(i) && Get(d, w).Some? && Get(d, w).value.Arr? && Get(d, VERSION) == Some(Str(c.version))
  }

  ghost predicate FaultOnlyOn(c: Contract, d: Json, d': Json, q: Path) {
    Get(d', q) == Get(d, q) || exists w :: Guarded(c, d, w) && !Apart(w, q)
  }

  lemma InjectTouchesOnlyGuarded(c: Contract, d: Json, q: Path)
    requires Patch(d, InjectOps(c.fault)).Some? && Get(d, VERSION) == Some(Str(c.version))
    ensures FaultOnlyOn(c, d, Patch(d, InjectOps(c.fault)).value, q)
  {
    var ops := InjectOps(c.fault);
    match c.fault {
      case Argument(flag, k, source, _, faulty) =>
        var write := [Op.Replace(ArgCell(k + 1), Str(faulty))];
        assert ops == [Test(ArgCell(k), Str(flag))] + ([Test(ArgCell(k + 1), Str(source))] + write);
        TestOp(d, ArgCell(k), Str(flag), [Test(ArgCell(k + 1), Str(source))] + write);
        TestOp(d, ArgCell(k + 1), Str(source), write);
        WritePasses(d, ArgCell(k + 1), Str(faulty));
        assert Guarded(c, d, ArgCell(k + 1));
        if Apart(ArgCell(k + 1), q) { PutFrame(d, ArgCell(k + 1), Str(faulty), q); }
      case Secrets(secret, missing) => SecretsTouchOnlyGuarded(c, d, q);
      case Script(i, script, command) =>
        var fault := Str(Text.Replace(script, MARKER, Injection(command) + MARKER));
        assert ops == [Test(ScriptCell(i), Str(script))] + [Op.Replace(ScriptCell(i), fault)];
        TestOp(d, ScriptCell(i), Str(script), [Op.Replace(ScriptCell(i), fault)]);
        WritePasses(d, ScriptCell(i), fault);
        assert Guarded(c, d, ScriptCell(i));
        if Apart(ScriptCell(i), q) { PutFrame(d, ScriptCell(i), fault, q); }
      case Gate(_, _) => GateTouchesOnlyGuarded(c, d, q);
    }
  }

  lemma GateTouchesOnlyGuarded(c: Contract, d: Json, q: Path)
    requires c.fault.Gate? && Patch(d, InjectOps(c.fault)).Some? && Get(d, VERSION) == Some(Str(c.version))
    ensures FaultOnlyOn(c, d, Patch(d, InjectOps(c.fault)).value, q)
  {
    var cell := EnvCell(c.fault.container);
    assert (cell + [Dash])[..|cell + [Dash]| - 1] == cell;
    assert Guarded(c, d, cell);
    if Apart(cell, q) { PutFrame(d, cell, Arr(Get(d, cell).value.items + [GATE]), q); }
  }

  lemma SecretsTouchOnlyGuarded(c: Contract, d: Json, q: Path)
    requires c.fault.Secrets? && Patch(d, InjectOps(c.fault)).Some?
    ensures FaultOnlyOn(c, d, Patch(d, InjectOps(c.fault)).value, q)
  {
    var secret, missing := c.fault.secret, c.fault.missing;
    assert SwapSecret(1, secret, missing) + [] == SwapSecret(1, secret, missing);
    var mid := SecretSwap(d, 0, secret, missing, true, SwapSecret(1, secret, missing));
    var last := SecretSwap(mid, 1, secret, missing, true, []);
    SecretCellsApart();
    PutFrame(d, SecretCell(0), Str(missing), SecretCell(1));
    assert Guarded(c, d, SecretCell(0)) && Guarded(c, d, SecretCell(1));
    if Apart(SecretCell(0), q) { PutFrame(d, SecretCell(0), Str(missing), q); }
    if Apart(SecretCell(1), q) { PutFrame(mid, SecretCell(1), Str(missing), q); }
  }

  /** Whatever object the fault patch meets, it is refused unless the object has the recorded
      identity and version, and then it touches only cells that hold the baseline. */
  lemma FaultTouchesOnlyBaseline(c: Contract, d: Json, q: Path)
    requires Patch(d, FaultOps(c)).Some?
    ensures Get(d, UID) == Some(Str(c.uid)) && Get(d, VERSION) == Some(Str(c.version))
    ensures FaultOnlyOn(c, d, Patch(d, FaultOps(c)).value, q)
  {
    var ops := InjectOps(c.fault);
    assert FaultOps(c) == [Test(UID, Str(c.uid))] + ([Test(VERSION, Str(c.version))] + ops);
    TestOp(d, UID, Str(c.uid), [Test(VERSION, Str(c.version))] + ops);
    TestOp(d, VERSION, Str(c.version), ops);
    InjectTouchesOnlyGuarded(c, d, q);
  }
}
