/** What the four contract functions record and when, cell by cell
    (scripts/qualify-kubernetes-deployment.py). */
module DeploymentRecords {
  import opened Text
  import opened JsonPatch
  import opened ScriptFault
  import opened Deployment
  import opened DeploymentCells
  import opened DeploymentRoundTrip

  const CONTAINERS: Path := POD + [Key("containers")]

  /** The identity and version in the record are those of the object, and not empty. */
  ghost predicate Identity(c: Contract, d: Json) {
    && c.uid != "" && Get(d, [Key("metadata"), Key("uid")]) == Some(Str(c.uid))
    && c.version != "" && Get(d, [Key("metadata"), Key("resourceVersion")]) == Some(Str(c.version))
  }

  /** The pod has the two expected containers and no other. */
  ghost predicate BothContainers(d: Json) {
    && (exists cs :: Get(d, CONTAINERS) == Some(Arr(cs)))
    && Get(d, Container(0) + [Key("name")]) == Some(Str("tritium"))
    && Get(d, Container(1) + [Key("name")]) == Some(Str("authenticated-probe")) && Get(d, Container(2)) == None
  }

  lemma IdentityMeans(d: Json, c: Contract)
    ensures Identified(d) && c == Record(d, c.fault) <==> Identity(c, d)
  {}

  lemma ContainerAt(d: Json, k: nat)
    ensures var cs := Get(d, CONTAINERS);
      Get(d, Container(k)) == if cs.None? then None else Child(cs.value, Idx(k))
    ensures Get(d, Container(k) + [Key("name")]) ==
      if Get(d, Container(k)).None? then None else Deployment.Field(Get(d, Container(k)).value, "name")
  {
    CellBelow(d, CONTAINERS, [Idx(k)], Container(k));
    if Get(d, CONTAINERS).Some? { GetOne(Get(d, CONTAINERS).value, Idx(k)); }
    CellBelow(d, Container(k), [Key("name")], Container(k) + [Key("name")]);
    if Get(d, Container(k)).Some? { GetOne(Get(d, Container(k)).value, Key("name")); }
  }

  lemma BothMeans(d: Json)
    ensures TwoContainers(d) <==> BothContainers(d)
  {
    ContainerAt(d, 0);
    ContainerAt(d, 1);
    ContainerAt(d, 2);
    assert POD + [Key("containers")] == CONTAINERS;
  }

  // Arguments ------------------------------------------------------------------------------------

  /** The flag is there once, at `i`, with the source value after it. */
  ghost predicate FlagAt(args: seq<string>, flag: string, source: string, i: nat) {
    && i + 1 < |args| && args[i + 1] == source
    && forall k :: 0 <= k < |args| ==> (args[k] == flag <==> k == i)
  }

  lemma FlagsMean(args: seq<string>, flag: string, i: nat)
    ensures Flags(args, flag) == [i] <==> i < |args| && forall k :: 0 <= k < |args| ==> (args[k] == flag <==> k == i)
  {
    if Flags(args, flag) == [i] {
      assert i in Flags(args, flag);
      forall k | 0 <= k < |args| ensures args[k] == flag <==> k == i { assert k in Flags(args, flag) <==> k in [i]; }
    }
    if i < |args| && forall k :: 0 <= k < |args| ==> (args[k] == flag <==> k == i) {
      WhereOnly(|args|, (k: nat) => k < |args| && args[k] == flag, i);
    }
  }

  ghost predicate Argued(d: Json, flag: string, source: string, faulty: string, fault: Fault, i: nat) {
    && fault.Argument? && ArgCells(d, fault.args) && FlagAt(fault.args, flag, source, i)
    && fault == Argument(flag, i, source, fault.args, faulty)
  }

  ghost predicate ArgumentRecord(d: Json, flag: string, source: string, faulty: string, c: Contract) {
    Identity(c, d) && BothContainers(d) && exists i: nat :: Argued(d, flag, source, faulty, c.fault, i)
  }

  lemma ArgumentNoted(d: Json, flag: string, source: string, faulty: string, c: Contract)
    requires ArgumentContract(d, flag, source, faulty) == Some(c)
    ensures ArgumentRecord(d, flag, source, faulty, c)
  {
    BothMeans(d);
    IdentityMeans(d, c);
    var args := ArgVector(d).value;
    ArgVectorMeans(d, args);
    var i := Flags(args, flag)[0];
    assert Flags(args, flag) == [i];
    FlagsMean(args, flag, i);
    assert Argued(d, flag, source, faulty, c.fault, i);
  }

  lemma ArgumentGiven(d: Json, flag: string, source: string, faulty: string, c: Contract, i: nat)
    requires Identity(c, d) && BothContainers(d) && Argued(d, flag, source, faulty, c.fault, i)
    ensures ArgumentContract(d, flag, source, faulty) == Some(c)
  {
    BothMeans(d);
    IdentityMeans(d, c);
    ArgVectorMeans(d, c.fault.args);
    FlagsMean(c.fault.args, flag, i);
  }

  lemma ArgumentRecords(d: Json, flag: string, source: string, faulty: string, c: Contract)
    ensures ArgumentContract(d, flag, source, faulty) == Some(c) <==> ArgumentRecord(d, flag, source, faulty, c)
  {
    if ArgumentContract(d, flag, source, faulty) == Some(c) { ArgumentNoted(d, flag, source, faulty, c); }
    if ArgumentRecord(d, flag, source, faulty, c) {
      var i: nat :| Argued(d, flag, source, faulty, c.fault, i);
      ArgumentGiven(d, flag, source, faulty, c, i);
    }
  }

  // Secrets --------------------------------------------------------------------------------------

  const TOKEN := "TRITIUM_AUTH_TOKEN"
  const REF := [Key("valueFrom"), Key("secretKeyRef")]

  /** The first environment entry of container `i`, and no other, is the token, with this reference. */
  ghost predicate TokenFirst(d: Json, i: nat, name: string, key: string) {
    && (exists env :: Get(d, EnvCell(i)) == Some(Arr(env)))
    && (forall j: nat :: Get(d, EnvCell(i) + [Idx(j), Key("name")]) == Some(Str(TOKEN)) <==> j == 0)
    && Get(d, EnvCell(i) + [Idx(0)] + REF + [Key("name")]) == Some(Str(name)) && name != ""
    && Get(d, EnvCell(i) + [Idx(0)] + REF + [Key("key")]) == Some(Str(key)) && key != ""
  }

  ghost predicate TokenAt(env: seq<Json>, j: nat) {
    j < |env| && IsToken(env[j])
  }

  lemma TokensMean(env: seq<Json>)
    ensures Tokens(env) == [0] <==> forall j: nat :: TokenAt(env, j) <==> j == 0
  {
    if Tokens(env) == [0] {
      forall j: nat ensures TokenAt(env, j) <==> j == 0 { assert j in Tokens(env) <==> j in [0]; }
    }
    if forall j: nat :: TokenAt(env, j) <==> j == 0 {
      assert TokenAt(env, 0);
      forall j: nat | j < |env| ensures IsToken(env[j]) <==> j == 0 {
        assert TokenAt(env, j) <==> j == 0;
      }
      WhereOnly(|env|, (j: nat) => j < |env| && IsToken(env[j]), 0);
    }
  }

  lemma TokenCell(d: Json, i: nat, env: seq<Json>, j: nat)
    requires Get(d, EnvCell(i)) == Some(Arr(env))
    ensures Get(d, EnvCell(i) + [Idx(j), Key("name")]) == Some(Str(TOKEN)) <==> TokenAt(env, j)
  {
    CellBelow(d, EnvCell(i), [Idx(j), Key("name")], EnvCell(i) + [Idx(j), Key("name")]);
    GetTwo(Arr(env), Idx(j), Key("name"));
  }

  lemma EntryCell(d: Json, i: nat, env: seq<Json>, last: string)
    requires Get(d, EnvCell(i)) == Some(Arr(env)) && env != []
    ensures Get(d, EnvCell(i) + [Idx(0)] + REF + [Key(last)]) == Get(env[0], REF + [Key(last)])
  {
    var cell := EnvCell(i) + [Idx(0)];
    CellBelow(d, EnvCell(i), [Idx(0)], cell);
    GetOne(Arr(env), Idx(0));
    CellBelow(d, cell, REF + [Key(last)], cell + REF + [Key(last)]);
  }

  lemma BindingMeans(d: Json, i: nat, name: string, key: string)
    ensures Binding(d, i) == Some((name, key)) <==> TokenFirst(d, i, name, key)
  {
    if Env(d, i).Some? {
      var env := Env(d, i).value;
      forall j: nat ensures Get(d, EnvCell(i) + [Idx(j), Key("name")]) == Some(Str(TOKEN)) <==> TokenAt(env, j) {
        TokenCell(d, i, env, j);
      }
      TokensMean(env);
      if env != [] {
        EntryCell(d, i, env, "name");
        EntryCell(d, i, env, "key");
      }
    }
  }

  ghost predicate SecretRecord(d: Json, missing: string, c: Contract) {
    && Identity(c, d) && BothContainers(d)
    && exists name, key ::
         TokenFirst(d, 0, name, key) && TokenFirst(d, 1, name, key) && c.fault == Secrets(name, missing)
  }

  lemma SecretRecords(d: Json, missing: string, c: Contract)
    ensures SecretContract(d, missing) == Some(c) <==> SecretRecord(d, missing, c)
  {
    BothMeans(d);
    IdentityMeans(d, c);
    if Binding(d, 0).Some? {
      BindingMeans(d, 0, Binding(d, 0).value.0, Binding(d, 0).value.1);
      BindingMeans(d, 1, Binding(d, 0).value.0, Binding(d, 0).value.1);
    }
    if name, key :| TokenFirst(d, 0, name, key) && TokenFirst(d, 1, name, key) && c.fault == Secrets(name, missing) {
      BindingMeans(d, 0, name, key);
      BindingMeans(d, 1, name, key);
    }
  }

  // The staging script ---------------------------------------------------------------------------

  ghost predicate ScriptRecord(d: Json, scenario: Scenario, profile: Profile, c: Contract) {
    && Identity(c, d)
    && exists i: nat, script ::
         && StagingCells(d, i, script) && BaselineScript(script, profile)
         && c.fault == Script(i, script, FaultCommand(scenario, profile))
  }

  lemma ScriptRecords(d: Json, scenario: Scenario, profile: Profile, c: Contract)
    ensures ScriptContract(d, scenario, profile) == Some(c) <==> ScriptRecord(d, scenario, profile, c)
  {
    IdentityMeans(d, c);
    if InitScript(d).Some? { StagingMeans(d, InitScript(d).value.0, InitScript(d).value.1); }
    if i: nat, script :| StagingCells(d, i, script) && BaselineScript(script, profile) {
      StagingMeans(d, i, script);
    }
  }

  // The device-loss gate -------------------------------------------------------------------------

  function TokenEntry(name: string, key: string): Json {
    Obj(map["name" := Str(TOKEN),
            "valueFrom" := Obj(map["secretKeyRef" := Obj(map["name" := Str(name), "key" := Str(key)])])])
  }

  lemma AuthEntryMeans(item: Json)
    ensures AuthEntry(item) <==> exists name, key :: name != "" && key != "" && item == TokenEntry(name, key)
  {
    if AuthEntry(item) {
      var from := item.fields["valueFrom"];
      var ref := from.fields["secretKeyRef"];
      var name, key := ref.fields["name"].s, ref.fields["key"].s;
      assert ref.fields == map["name" := Str(name), "key" := Str(key)];
      assert from.fields == map["secretKeyRef" := ref];
      assert item.fields == map["name" := Str(TOKEN), "valueFrom" := from];
      assert item == TokenEntry(name, key);
    }
  }

  /** Container `i`, and no other, is called "tritium". */
  ghost predicate OneTritium(d: Json, i: nat) {
    && (exists cs :: Get(d, CONTAINERS) == Some(Arr(cs)))
    && forall k: nat :: Get(d, Container(k) + [Key("name")]) == Some(Str("tritium")) <==> k == i
  }

  ghost predicate TritiumAt(cs: seq<Json>, k: nat) {
    k < |cs| && IsTritium(cs[k])
  }

  lemma TritiumsMean(cs: seq<Json>, i: nat)
    ensures Tritiums(cs) == [i] <==> forall k: nat :: TritiumAt(cs, k) <==> k == i
  {
    if Tritiums(cs) == [i] {
      forall k: nat ensures TritiumAt(cs, k) <==> k == i { assert k in Tritiums(cs) <==> k in [i]; }
    }
    if forall k: nat :: TritiumAt(cs, k) <==> k == i {
      assert TritiumAt(cs, i);
      forall k: nat | k < |cs| ensures IsTritium(cs[k]) <==> k == i {
        assert TritiumAt(cs, k) <==> k == i;
      }
      WhereOnly(|cs|, (k: nat) => k < |cs| && IsTritium(cs[k]), i);
    }
  }

  lemma OneTritiumMeans(d: Json, i: nat)
    ensures OneTritium(d, i) <==>
      exists cs :: Get(d, CONTAINERS) == Some(Arr(cs)) && Tritiums(cs) == [i]
  {
    if cs :| Get(d, CONTAINERS) == Some(Arr(cs)) {
      forall k: nat ensures Get(d, Container(k) + [Key("name")]) == Some(Str("tritium")) <==> TritiumAt(cs, k) {
        ContainerAt(d, k);
      }
      TritiumsMean(cs, i);
    }
  }

  /** The gate goes to container `i`, whose environment is the token alone. */
  ghost predicate Gated(d: Json, fault: Fault, i: nat, name: string, key: string) {
    && OneTritium(d, i) && name != "" && key != "" && Get(d, EnvCell(i)) == Some(Arr([TokenEntry(name, key)]))
    && fault == Gate(i, [TokenEntry(name, key)])
  }

  ghost predicate GateRecord(d: Json, c: Contract) {
    Identity(c, d) && exists i: nat, name, key :: Gated(d, c.fault, i, name, key)
  }

  lemma NoGateInToken(name: string, key: string)
    ensures Gates([TokenEntry(name, key)]) == []
  {
    var env := [TokenEntry(name, key)];
    assert !IsGate(env[0]) by { assert |TOKEN| != |GATE_NAME|; }
    WhereNone(1, (i: nat) => i < |env| && IsGate(env[i]));
  }

  lemma GateNoted(d: Json, c: Contract)
    requires GateContract(d) == Some(c)
    ensures GateRecord(d, c)
  {
    IdentityMeans(d, c);
    var i := Tritiums(Get(d, CONTAINERS).value.items)[0];
    OneTritiumMeans(d, i);
    var env := Env(d, i).value;
    AuthEntryMeans(env[0]);
    var name, key :| name != "" && key != "" && env[0] == TokenEntry(name, key);
    assert env == [env[0]];
    assert Gated(d, c.fault, i, name, key);
  }

  lemma GateGiven(d: Json, c: Contract, i: nat, name: string, key: string)
    requires Identity(c, d) && Gated(d, c.fault, i, name, key)
    ensures GateContract(d) == Some(c)
  {
    IdentityMeans(d, c);
    OneTritiumMeans(d, i);
    AuthEntryMeans(TokenEntry(name, key));
    NoGateInToken(name, key);
  }

  lemma GateRecords(d: Json, c: Contract)
    ensures GateContract(d) == Some(c) <==> GateRecord(d, c)
  {
    if GateContract(d) == Some(c) { GateNoted(d, c); }
    if GateRecord(d, c) {
      var i: nat, name, key :| Gated(d, c.fault, i, name, key);
      GateGiven(d, c, i, name, key);
    }
  }
}
