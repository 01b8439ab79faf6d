/** What the readers of module Deployment say, cell by cell: the recorded baseline, the last test of
    every cleanup and the decision that cleanup takes, each without the function that makes it. */
module DeploymentCells {
  import opened Text
  import opened JsonPatch
  import opened ScriptFault
  import opened Deployment

  const FIRST: Path := Container(0)

  /** The first container is the expected one and its arguments are these and no more. */
  ghost predicate ArgCells(d: Json, args: seq<string>) {
    && Get(d, FIRST + [Key("name")]) == Some(Str("tritium"))
    && (exists items :: Get(d, FIRST + [Key("args")]) == Some(Arr(items)))
    && (forall i :: 0 <= i < |args| ==> Get(d, ArgCell(i)) == Some(Str(args[i])))
    && Get(d, ArgCell(|args|)) == None
  }

  /** The first environment entry of a container is the token, and comes from this Secret. */
  ghost predicate TokenCells(d: Json, i: nat, secret: Json) {
    && Get(d, Container(i) + [Key("env"), Idx(0), Key("name")]) == Some(Str("TRITIUM_AUTH_TOKEN"))
    && Get(d, SecretCell(i)) == Some(secret)
  }

  /** Container `i` is the one staging container, and its one argument is the script. */
  ghost predicate StagingCells(d: Json, i: nat, script: string) {
    && (exists inits :: Get(d, INITS) == Some(Arr(inits)))
    && (forall k: nat :: Get(d, INITS + [Idx(k), Key("name")]) == Some(Str("stage-verified-artifact")) <==> k == i)
    && (exists args :: Get(d, INITS + [Idx(i), Key("args")]) == Some(Arr(args)))
    && Get(d, ScriptCell(i)) == Some(Str(script)) && Get(d, INITS + [Idx(i), Key("args"), Idx(1)]) == None
  }

  /** The original object with exactly the recorded cells and without the fault. */
  ghost predicate AtBaseline(c: Contract, d: Json) {
    && Get(d, UID) == Some(Str(c.uid))
    && match c.fault
       case Argument(flag, _, _, args, faulty) =>
         ArgCells(d, args) && forall i :: 0 < i < |args| && args[i - 1] == flag ==> args[i] != faulty
       case Secrets(secret, missing) =>
         TokenCells(d, 0, Str(secret)) && TokenCells(d, 1, Str(secret)) && secret != missing
       case Script(_, script, command) =>
         (exists i: nat :: StagingCells(d, i, script)) && !Contains(script, command)
       case Gate(i, env) => Get(d, EnvCell(i)) == Some(Arr(env))
  }

  lemma CellBelow(d: Json, p: Path, q: Path, r: Path)
    requires r == p + q
    ensures Get(d, r) == if Get(d, p).None? then None else Get(Get(d, p).value, q)
  {
    GetAppend(d, p, q);
  }

  lemma GetOne(d: Json, t: Token)
    ensures Get(d, [t]) == Child(d, t)
  {
    assert [t][1..] == [];
  }

  lemma GetTwo(d: Json, t: Token, u: Token)
    ensures Get(d, [t, u]) == if Child(d, t).None? then None else Child(Child(d, t).value, u)
  {
    assert [t, u][1..] == [u];
    if Child(d, t).Some? { GetOne(Child(d, t).value, u); }
  }

  lemma ArgumentCells(d: Json, i: nat)
    ensures var f := Get(d, FIRST);
      && Get(d, FIRST + [Key("name")]) == (if f.None? then None else Deployment.Field(f.value, "name"))
      && Get(d, FIRST + [Key("args")]) == (if f.None? then None else Deployment.Field(f.value, "args"))
      && var args := Get(d, FIRST + [Key("args")]);
      Get(d, ArgCell(i)) == if args.None? then None else Child(args.value, Idx(i))
  {
    CellBelow(d, FIRST, [Key("name")], FIRST + [Key("name")]);
    CellBelow(d, FIRST, [Key("args")], FIRST + [Key("args")]);
    CellBelow(d, FIRST + [Key("args")], [Idx(i)], ArgCell(i));
    if Get(d, FIRST).Some? {
      GetOne(Get(d, FIRST).value, Key("name"));
      GetOne(Get(d, FIRST).value, Key("args"));
    }
    if Get(d, FIRST + [Key("args")]).Some? { GetOne(Get(d, FIRST + [Key("args")]).value, Idx(i)); }
  }

  lemma ArgVectorMeans(d: Json, args: seq<string>)
    ensures ArgVector(d) == Some(args) <==> ArgCells(d, args)
  {
    forall i: nat ensures var cell := Get(d, FIRST + [Key("args")]);
      Get(d, ArgCell(i)) == if cell.None? then None else Child(cell.value, Idx(i))
    {
      ArgumentCells(d, i);
    }
    ArgumentCells(d, 0);
    var cell := Get(d, FIRST + [Key("args")]);
    if ArgVector(d) == Some(args) {
      assert cell == Some(Arr(cell.value.items)) && |cell.value.items| == |args|;
      forall i | 0 <= i < |args| ensures Get(d, ArgCell(i)) == Some(Str(args[i])) {
        assert cell.value.items[i].Str?;
      }
    }
    if ArgCells(d, args) {
      var items :| cell == Some(Arr(items));
      assert |items| <= |args| by { assert Get(d, ArgCell(|args|)) == Child(Arr(items), Idx(|args|)); }
      if |args| > 0 { assert Get(d, ArgCell(|args| - 1)) == Child(Arr(items), Idx(|args| - 1)); }
      forall i | 0 <= i < |args| ensures items[i] == Str(args[i]) {
        assert Get(d, ArgCell(i)) == Child(Arr(items), Idx(i));
      }
      assert |items| == |args|;
      assert ArgVector(d).value == args;
    }
  }

  lemma SecretMeans(d: Json, i: nat, secret: Json)
    ensures SecretValue(d, i) == Some(secret) <==> TokenCells(d, i, secret)
  {
    var tail := [Key("env"), Idx(0), Key("valueFrom"), Key("secretKeyRef"), Key("name")];
    CellBelow(d, Container(i), [Key("env"), Idx(0), Key("name")], Container(i) + [Key("env"), Idx(0), Key("name")]);
    CellBelow(d, Container(i), tail, SecretCell(i));
  }

  lemma StagingAt(d: Json, k: nat)
    ensures var inits := Get(d, INITS);
      Get(d, INITS + [Idx(k), Key("name")]) ==
        if inits.None? || Child(inits.value, Idx(k)).None? then None
        else Deployment.Field(Child(inits.value, Idx(k)).value, "name")
  {
    CellBelow(d, INITS, [Idx(k), Key("name")], INITS + [Idx(k), Key("name")]);
    if Get(d, INITS).Some? { GetTwo(Get(d, INITS).value, Idx(k), Key("name")); }
  }

  lemma StagingArgs(d: Json, k: nat, i: nat)
    ensures var inits := Get(d, INITS);
      var args := if inits.None? || Child(inits.value, Idx(k)).None? then None
                  else Deployment.Field(Child(inits.value, Idx(k)).value, "args");
      && Get(d, INITS + [Idx(k), Key("args")]) == args
      && Get(d, INITS + [Idx(k), Key("args"), Idx(i)]) == if args.None? then None else Child(args.value, Idx(i))
  {
    CellBelow(d, INITS, [Idx(k), Key("args")], INITS + [Idx(k), Key("args")]);
    CellBelow(d, INITS + [Idx(k), Key("args")], [Idx(i)], INITS + [Idx(k), Key("args"), Idx(i)]);
    if Get(d, INITS).Some? { GetTwo(Get(d, INITS).value, Idx(k), Key("args")); }
    var args := Get(d, INITS + [Idx(k), Key("args")]);
    if args.Some? { GetOne(args.value, Idx(i)); }
  }

  lemma {:induction false} WhereOnly(n: nat, p: nat -> bool, i: nat)
    requires forall k: nat :: k < n ==> (p(k) <==> k == i)
    ensures Where(n, p) == if i < n then [i] else []
  {
    if n > 0 { WhereOnly(n - 1, p, i); }
  }

  ghost predicate StagedAt(inits: seq<Json>, k: nat) { k < |inits| && IsStaging(inits[k]) }

  lemma OneStaging(inits: seq<Json>, i: nat)
    ensures Stagings(inits) == [i] <==> forall k: nat :: StagedAt(inits, k) <==> k == i
  {
    if Stagings(inits) == [i] {
      forall k: nat ensures StagedAt(inits, k) <==> k == i { assert k in Stagings(inits) <==> k in [i]; }
    }
    if forall k: nat :: StagedAt(inits, k) <==> k == i {
      assert StagedAt(inits, i);
      forall k: nat | k < |inits| ensures IsStaging(inits[k]) <==> k == i { assert StagedAt(inits, k) <==> k == i; }
      WhereOnly(|inits|, (k: nat) => k < |inits| && IsStaging(inits[k]), i);
    }
  }

  lemma StagingMeans(d: Json, i: nat, script: string)
    ensures InitScript(d) == Some((i, script)) <==> StagingCells(d, i, script)
  {
    if inits :| Get(d, INITS) == Some(Arr(inits)) {
      forall k: nat ensures StagedAt(inits, k) <==>
                            Get(d, INITS + [Idx(k), Key("name")]) == Some(Str("stage-verified-artifact"))
      {
        StagingAt(d, k);
      }
      OneStaging(inits, i);
      StagingArgs(d, i, 0);
      StagingArgs(d, i, 1);
      assert ScriptCell(i) == INITS + [Idx(i), Key("args"), Idx(0)];
    }
  }

  lemma EnvMeans(d: Json, i: nat, env: seq<Json>)
    ensures Env(d, i) == Some(env) <==> Get(d, EnvCell(i)) == Some(Arr(env))
  {}

  /** The last test of every cleanup holds exactly when the recorded cells are back. */
  lemma RestoredMeans(c: Contract, d: Json)
    ensures Restored(c, d) <==> AtBaseline(c, d)
  {
    match c.fault
    case Argument(flag, _, _, args, faulty) =>
      ArgVectorMeans(d, args);
      PairsNone(args, flag, faulty);
    case Secrets(secret, _) =>
      SecretMeans(d, 0, Str(secret));
      SecretMeans(d, 1, Str(secret));
    case Script(_, script, _) =>
      if InitScript(d).Some? { StagingMeans(d, InitScript(d).value.0, InitScript(d).value.1); }
      forall i: nat ensures InitScript(d) == Some((i, script)) <==> StagingCells(d, i, script) {
        StagingMeans(d, i, script);
      }
    case Gate(_, _) =>
  }

  lemma PairsNone(args: seq<string>, flag: string, value: string)
    ensures Pairs(args, flag, value) == [] <==> forall i :: 0 < i < |args| && args[i - 1] == flag ==> args[i] != value
  {
    var at := Pairs(args, flag, value);
    if at == [] {
      forall i | 0 < i < |args| && args[i - 1] == flag ensures args[i] != value { assert i - 1 !in at; }
    } else {
      var i := at[0] + 1;
      assert i < |args| && args[i - 1] == flag && args[i] == value;
    }
  }

  // The decision of cleanup -----------------------------------------------------------------------

  /** The flag is followed by the injected value. */
  ghost predicate PairAt(c: Contract, d: Json, i: nat)
    requires c.fault.Argument?
  {
    Get(d, ArgCell(i)) == Some(Str(c.fault.flag)) && Get(d, ArgCell(i + 1)) == Some(Str(c.fault.faulty))
  }

  /** That is so at one place only. */
  ghost predicate OnePair(c: Contract, d: Json)
    requires c.fault.Argument?
  {
    exists i: nat :: PairAt(c, d, i) && forall k: nat :: PairAt(c, d, k) ==> k == i
  }

  /** An environment entry has the name of the gate. */
  ghost predicate GateAt(c: Contract, d: Json, k: nat)
    requires c.fault.Gate?
  {
    Get(d, EnvCell(c.fault.container) + [Idx(k), Key("name")])
      == Some(Str("TRITIUM_DESTRUCTIVE_CUDA_LOSS_QUALIFICATION"))
  }

  /** One entry is the gate as it was injected, and no other has its name. */
  ghost predicate OneGate(c: Contract, d: Json)
    requires c.fault.Gate?
  {
    exists k: nat ::
      && Get(d, EnvCell(c.fault.container) + [Idx(k)]) ==
         Some(Obj(map["name" := Str("TRITIUM_DESTRUCTIVE_CUDA_LOSS_QUALIFICATION"), "value" := Str("1")]))
      && forall j: nat :: GateAt(c, d, j) ==> j == k
  }

  /** The parts that cleanup looks at are readable and the fault is not in them. */
  ghost predicate FaultAbsent(c: Contract, d: Json) {
    match c.fault
    case Argument(_, _, _, _, _) => (exists args :: ArgCells(d, args)) && forall i: nat :: !PairAt(c, d, i)
    case Secrets(_, missing) =>
      exists a, b :: TokenCells(d, 0, a) && TokenCells(d, 1, b) && a != Str(missing) && b != Str(missing)
    case Script(_, _, command) =>
      command != "" && exists i: nat, script :: StagingCells(d, i, script) && !Contains(script, command)
    case Gate(i, _) => (exists env :: Get(d, EnvCell(i)) == Some(Arr(env))) && forall k: nat :: !GateAt(c, d, k)
  }

  /** They are readable and the fault is in them just once, as it was injected; each of the two Secrets
      counts for itself. */
  ghost predicate FaultOnce(c: Contract, d: Json) {
    match c.fault
    case Argument(_, _, _, _, _) =>
      (exists args :: ArgCells(d, args)) && OnePair(c, d)
    case Secrets(_, missing) =>
      exists a, b :: TokenCells(d, 0, a) && TokenCells(d, 1, b) && (a == Str(missing) || b == Str(missing))
    case Script(_, _, command) =>
      command != "" && exists i: nat, script ::
        StagingCells(d, i, script) && Count(script, command) == 1 && Count(script, command + "; ") == 1
    case Gate(_, _) => OneGate(c, d)
  }

  lemma PairsMean(c: Contract, d: Json, args: seq<string>, i: nat)
    requires c.fault.Argument? && ArgCells(d, args)
    ensures PairAt(c, d, i) <==> i in Pairs(args, c.fault.flag, c.fault.faulty)
  {
    ArgumentCells(d, i);
    ArgumentCells(d, i + 1);
    ArgumentCells(d, |args|);
  }

  lemma {:induction false} WhereIncreases(n: nat, p: nat -> bool)
    ensures forall j, k :: 0 <= j < k < |Where(n, p)| ==> Where(n, p)[j] < Where(n, p)[k]
  {
    if n > 0 { WhereIncreases(n - 1, p); }
  }

  /** Some place has a property, and no other. */
  ghost predicate Once(at: seq<nat>) { exists i: nat :: i in at && forall k: nat :: k in at ==> k == i }

  lemma WhereCount(n: nat, p: nat -> bool)
    ensures |Where(n, p)| == 1 <==> Once(Where(n, p))
  {
    var at := Where(n, p);
    WhereIncreases(n, p);
    if |at| == 1 { assert at[0] in at; }
    if |at| > 1 { assert at[0] in at && at[1] in at; }
  }

  lemma NoPairs(c: Contract, d: Json, args: seq<string>)
    requires c.fault.Argument? && ArgCells(d, args)
    ensures Pairs(args, c.fault.flag, c.fault.faulty) == [] <==> forall i: nat :: !PairAt(c, d, i)
  {
    var at := Pairs(args, c.fault.flag, c.fault.faulty);
    forall i: nat ensures PairAt(c, d, i) <==> i in at { PairsMean(c, d, args, i); }
    if at != [] { assert PairAt(c, d, at[0]); }
  }

  lemma PairIsAlone(c: Contract, d: Json, args: seq<string>)
    requires c.fault.Argument? && ArgCells(d, args) && |Pairs(args, c.fault.flag, c.fault.faulty)| == 1
    ensures OnePair(c, d)
  {
    var i := Pairs(args, c.fault.flag, c.fault.faulty)[0];
    PairsMean(c, d, args, i);
    forall k: nat | PairAt(c, d, k) ensures k == i { PairsMean(c, d, args, k); }
  }

  lemma AloneIsPair(c: Contract, d: Json, args: seq<string>)
    requires c.fault.Argument? && ArgCells(d, args) && OnePair(c, d)
    ensures |Pairs(args, c.fault.flag, c.fault.faulty)| == 1
  {
    var flag, faulty := c.fault.flag, c.fault.faulty;
    var i: nat :| PairAt(c, d, i) && forall k: nat :: PairAt(c, d, k) ==> k == i;
    PairsMean(c, d, args, i);
    forall k: nat | k in Pairs(args, flag, faulty) ensures k == i { PairsMean(c, d, args, k); }
    WhereCount(|args|, (i: nat) => i + 1 < |args| && args[i] == flag && args[i + 1] == faulty);
    assert Once(Pairs(args, flag, faulty));
  }

  lemma PlanArgumentDecides(c: Contract, d: Json)
    requires c.fault.Argument? && Get(d, UID) == Some(Str(c.uid))
    ensures PlanFor(c, d).Keep? <==> FaultAbsent(c, d)
    ensures PlanFor(c, d).Undo? <==> FaultOnce(c, d)
  {
    if ArgVector(d).Some? {
      var args := ArgVector(d).value;
      ArgVectorMeans(d, args);
      NoPairs(c, d, args);
      if |Pairs(args, c.fault.flag, c.fault.faulty)| == 1 { PairIsAlone(c, d, args); }
      if OnePair(c, d) { AloneIsPair(c, d, args); }
    } else if args :| ArgCells(d, args) {
      ArgVectorMeans(d, args);
    }
  }

  lemma PlanSecretsDecides(c: Contract, d: Json)
    requires c.fault.Secrets? && Get(d, UID) == Some(Str(c.uid))
    ensures PlanFor(c, d).Keep? <==> FaultAbsent(c, d)
    ensures PlanFor(c, d).Undo? <==> FaultOnce(c, d)
  {
    forall a ensures SecretValue(d, 0) == Some(a) <==> TokenCells(d, 0, a) { SecretMeans(d, 0, a); }
    forall b ensures SecretValue(d, 1) == Some(b) <==> TokenCells(d, 1, b) { SecretMeans(d, 1, b); }
  }

  lemma PlanScriptDecides(c: Contract, d: Json)
    requires c.fault.Script? && Get(d, UID) == Some(Str(c.uid))
    ensures PlanFor(c, d).Keep? <==> FaultAbsent(c, d)
    ensures PlanFor(c, d).Undo? <==> FaultOnce(c, d)
  {
    forall i: nat, s ensures InitScript(d) == Some((i, s)) <==> StagingCells(d, i, s) { StagingMeans(d, i, s); }
    if InitScript(d).Some? && c.fault.command != "" {
      var (i, s) := InitScript(d).value;
      assert StagingCells(d, i, s);
      if !Contains(s, c.fault.command) { CountZero(s, c.fault.command, ""); }
    }
  }

  lemma GateCells(c: Contract, d: Json, k: nat)
    requires c.fault.Gate?
    ensures var env := Get(d, EnvCell(c.fault.container));
      && Get(d, EnvCell(c.fault.container) + [Idx(k)]) == (if env.None? then None else Child(env.value, Idx(k)))
      && (GateAt(c, d, k) <==> env.Some? && Child(env.value, Idx(k)).Some? && IsGate(Child(env.value, Idx(k)).value))
  {
    var cell := EnvCell(c.fault.container);
    CellBelow(d, cell, [Idx(k)], cell + [Idx(k)]);
    CellBelow(d, cell, [Idx(k), Key("name")], cell + [Idx(k), Key("name")]);
    if Get(d, cell).Some? {
      GetOne(Get(d, cell).value, Idx(k));
      GetTwo(Get(d, cell).value, Idx(k), Key("name"));
    }
  }

  lemma GatesMean(c: Contract, d: Json, env: seq<Json>, k: nat)
    requires c.fault.Gate? && Get(d, EnvCell(c.fault.container)) == Some(Arr(env))
    ensures GateAt(c, d, k) <==> k in Gates(env)
    ensures Get(d, EnvCell(c.fault.container) + [Idx(k)]) == if k < |env| then Some(env[k]) else None
  {
    GateCells(c, d, k);
  }

  lemma GatesNone(c: Contract, d: Json, env: seq<Json>)
    requires c.fault.Gate? && Get(d, EnvCell(c.fault.container)) == Some(Arr(env))
    ensures Gates(env) == [] <==> forall k: nat :: !GateAt(c, d, k)
  {
    forall k: nat ensures GateAt(c, d, k) <==> k in Gates(env) { GatesMean(c, d, env, k); }
    if Gates(env) != [] { assert GateAt(c, d, Gates(env)[0]); }
  }

  lemma GateIsAlone(c: Contract, d: Json, env: seq<Json>)
    requires c.fault.Gate? && Get(d, EnvCell(c.fault.container)) == Some(Arr(env))
    requires |Gates(env)| == 1 && env[Gates(env)[0]] == GATE
    ensures OneGate(c, d)
  {
    var k := Gates(env)[0];
    GatesMean(c, d, env, k);
    forall j: nat | GateAt(c, d, j) ensures j == k { GatesMean(c, d, env, j); }
  }

  lemma AloneIsGate(c: Contract, d: Json, env: seq<Json>)
    requires c.fault.Gate? && Get(d, EnvCell(c.fault.container)) == Some(Arr(env)) && OneGate(c, d)
    ensures |Gates(env)| == 1 && env[Gates(env)[0]] == GATE
  {
    var k: nat :|
      Get(d, EnvCell(c.fault.container) + [Idx(k)]) == Some(GATE) && forall j: nat :: GateAt(c, d, j) ==> j == k;
    GatesMean(c, d, env, k);
    assert IsGate(env[k]);
    assert k in Gates(env);
    forall j: nat | j in Gates(env) ensures j == k { GatesMean(c, d, env, j); }
    WhereCount(|env|, (i: nat) => i < |env| && IsGate(env[i]));
    assert Once(Gates(env));
  }

  lemma PlanGateDecides(c: Contract, d: Json)
    requires c.fault.Gate? && Get(d, UID) == Some(Str(c.uid))
    ensures PlanFor(c, d).Keep? <==> FaultAbsent(c, d)
    ensures PlanFor(c, d).Undo? <==> FaultOnce(c, d)
  {
    if Env(d, c.fault.container).Some? {
      var env := Env(d, c.fault.container).value;
      GatesNone(c, d, env);
      if |Gates(env)| == 1 && env[Gates(env)[0]] == GATE { GateIsAlone(c, d, env); }
      if OneGate(c, d) { AloneIsGate(c, d, env); }
    } else if OneGate(c, d) {
      GateHasEnv(c, d);
    }
  }

  lemma GateHasEnv(c: Contract, d: Json)
    requires c.fault.Gate? && OneGate(c, d)
    ensures Env(d, c.fault.container).Some?
  {
    var k: nat :|
      Get(d, EnvCell(c.fault.container) + [Idx(k)]) == Some(GATE) && forall j: nat :: GateAt(c, d, j) ==> j == k;
    GateCells(c, d, k);
  }

  /** After its first read cleanup leaves the object alone exactly when the fault is not in it, writes
      exactly when it is in it once, and refuses in every other case. */
  lemma PlanDecides(c: Contract, d: Json)
    ensures PlanFor(c, d).Keep? <==> Get(d, UID) == Some(Str(c.uid)) && FaultAbsent(c, d)
    ensures PlanFor(c, d).Undo? <==> Get(d, UID) == Some(Str(c.uid)) && FaultOnce(c, d)
  {
    if Get(d, UID) == Some(Str(c.uid)) {
      match c.fault
      case Argument(_, _, _, _, _) => PlanArgumentDecides(c, d);
      case Secrets(_, _) => PlanSecretsDecides(c, d);
      case Script(_, _, _) => PlanScriptDecides(c, d);
      case Gate(_, _) => PlanGateDecides(c, d);
    }
  }
}
