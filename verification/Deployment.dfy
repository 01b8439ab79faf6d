/** The four startup faults that the qualification tool injects into a live Deployment:
    what it records of the baseline, the patch that injects the fault, the patch that takes
    it out again, and the test that the Deployment is back to its baseline
    (scripts/qualify-kubernetes-deployment.py). */
module Deployment {
  import opened Text
  import opened JsonPatch
  import opened ScriptFault

  const UID: Path := [Key("metadata"), Key("uid")]
  const VERSION: Path := [Key("metadata"), Key("resourceVersion")]
  const POD: Path := [Key("spec"), Key("template"), Key("spec")]
  const INITS: Path := POD + [Key("initContainers")]

  const TOKEN_NAME := "TRITIUM_AUTH_TOKEN"
  const GATE_NAME := "TRITIUM_DESTRUCTIVE_CUDA_LOSS_QUALIFICATION"
  const GATE := Obj(map["name" := Str(GATE_NAME), "value" := Str("1")])

  function Container(i: nat): Path { POD + [Key("containers"), Idx(i)] }
  function ArgCell(i: nat): Path { Container(0) + [Key("args"), Idx(i)] }
  function SecretCell(i: nat): Path {
    Container(i) + [Key("env"), Idx(0), Key("valueFrom"), Key("secretKeyRef"), Key("name")]
  }
  function ScriptCell(i: nat): Path { INITS + [Idx(i), Key("args"), Idx(0)] }
  function EnvCell(i: nat): Path { Container(i) + [Key("env")] }

  datatype Fault =
    | Argument(flag: string, flagIndex: nat, source: string, args: seq<string>, faulty: string)
    | Secrets(secret: string, missing: string)
    | Script(index: nat, script: string, command: string)
    | Gate(container: nat, env: seq<Json>)

  /** The recorded baseline together with the fault to inject. */
  datatype Contract = Contract(uid: string, version: string, fault: Fault)

  // Reading a Deployment ---------------------------------------------------------------

  /** The positions below `n` with property `p`, in increasing order. */
  function Where(n: nat, p: nat -> bool): (at: seq<nat>)
    ensures forall i: nat :: i in at <==> i < n && p(i)
    ensures forall k :: 0 <= k < |at| ==> at[k] < n && p(at[k])
  {
    if n == 0 then [] else Where(n - 1, p) + if p(n - 1) then [n - 1] else []
  }

  function Field(d: Json, k: string): Option<Json> { Child(d, Key(k)) }

  /** The argument vector of a container called "tritium", all of it strings. */
  function VectorOf(container: Json): Option<seq<string>> {
    var args := Field(container, "args");
    if Field(container, "name") != Some(Str("tritium")) || args.None? || !args.value.Arr? then None
    else if forall x <- args.value.items :: x.Str?
    then Some(seq(|args.value.items|, i requires 0 <= i < |args.value.items| => args.value.items[i].s))
    else None
  }

  function ArgVector(d: Json): Option<seq<string>> {
    var c := Get(d, Container(0));
    if c.None? then None else VectorOf(c.value)
  }

  /** The Secret named by the first environment entry of a container. */
  function SecretOf(container: Json): Option<Json> {
    if Get(container, [Key("env"), Idx(0), Key("name")]) != Some(Str(TOKEN_NAME)) then None
    else Get(container, [Key("env"), Idx(0), Key("valueFrom"), Key("secretKeyRef"), Key("name")])
  }

  function SecretValue(d: Json, i: nat): Option<Json> {
    var c := Get(d, Container(i));
    if c.None? then None else SecretOf(c.value)
  }

  predicate IsStaging(container: Json) {
    Field(container, "name") == Some(Str("stage-verified-artifact"))
  }

  function Stagings(inits: seq<Json>): seq<nat> {
    Where(|inits|, (i: nat) => i < |inits| && IsStaging(inits[i]))
  }

  /** The one staging container in the list and its one-argument script. */
  function StagingOf(inits: Json): Option<(nat, string)> {
    if !inits.Arr? then None
    else
      var at := Stagings(inits.items);
      if |at| != 1 then None
      else match Field(inits.items[at[0]], "args")
        case Some(Arr(args)) => if |args| == 1 && args[0].Str? then Some((at[0], args[0].s)) else None
        case _ => None
  }

  function InitScript(d: Json): Option<(nat, string)> {
    var inits := Get(d, INITS);
    if inits.None? then None else StagingOf(inits.value)
  }

  function Env(d: Json, container: nat): Option<seq<Json>> {
    match Get(d, EnvCell(container))
    case Some(Arr(items)) => Some(items)
    case _ => None
  }

  /** The positions where the flag is followed by the injected value. */
  function Pairs(args: seq<string>, flag: string, value: string): seq<nat> {
    Where(|args|, (i: nat) => i + 1 < |args| && args[i] == flag && args[i + 1] == value)
  }

  predicate IsGate(item: Json) { Field(item, "name") == Some(Str(GATE_NAME)) }

  function Gates(env: seq<Json>): seq<nat> {
    Where(|env|, (i: nat) => i < |env| && IsGate(env[i]))
  }

  // Injecting and restoring ------------------------------------------------------------

  function SwapSecret(i: nat, from: string, to: string): seq<Op> {
    [Test(SecretCell(i), Str(from)), Op.Replace(SecretCell(i), Str(to))]
  }

  function InjectOps(f: Fault): seq<Op> {
    match f
    case Argument(flag, i, source, _, faulty) =>
      [Test(ArgCell(i), Str(flag)), Test(ArgCell(i + 1), Str(source)),
       Op.Replace(ArgCell(i + 1), Str(faulty))]
    case Secrets(secret, missing) => SwapSecret(0, secret, missing) + SwapSecret(1, secret, missing)
    case Script(i, script, command) =>
      [Test(ScriptCell(i), Str(script)),
       Op.Replace(ScriptCell(i), Str(Text.Replace(script, MARKER, Injection(command) + MARKER)))]
    case Gate(i, _) => [Add(EnvCell(i) + [Dash], GATE)]
  }

  function FaultOps(c: Contract): seq<Op> {
    [Test(UID, Str(c.uid)), Test(VERSION, Str(c.version))] + InjectOps(c.fault)
  }

  /** What cleanup decides to do after its first read. */
  datatype Plan = Refuse | Keep | Undo(ops: seq<Op>)

  function PlanArgument(c: Contract, args: seq<string>): Plan
    requires c.fault.Argument?
  {
    var at := Pairs(args, c.fault.flag, c.fault.faulty);
    if |at| > 1 then Refuse
    else if at == [] then Keep
    else
      var i := at[0];
      Undo([Test(UID, Str(c.uid)), Test(ArgCell(i), Str(c.fault.flag)),
            Test(ArgCell(i + 1), Str(c.fault.faulty)), Op.Replace(ArgCell(i + 1), Str(c.fault.source))])
  }

  function PlanSecrets(c: Contract, first: Json, second: Json): Plan
    requires c.fault.Secrets?
  {
    var missing := c.fault.missing;
    if first != Str(missing) && second != Str(missing) then Keep
    else Undo([Test(UID, Str(c.uid))]
              + (if first == Str(missing) then SwapSecret(0, missing, c.fault.secret) else [])
              + (if second == Str(missing) then SwapSecret(1, missing, c.fault.secret) else []))
  }

  function PlanScript(c: Contract, i: nat, script: string): Plan
    requires c.fault.Script? && c.fault.command != ""
  {
    if !Contains(script, c.fault.command) then Keep
    else match RestoredScript(script, c.fault.command)
      case None => Refuse
      case Some(restored) =>
        Undo([Test(UID, Str(c.uid)), Test(ScriptCell(i), Str(script)),
              Op.Replace(ScriptCell(i), Str(restored))])
  }

  function PlanGate(c: Contract, env: seq<Json>): Plan
    requires c.fault.Gate?
  {
    var at := Gates(env);
    if at == [] then Keep
    else if |at| != 1 then Refuse
    else
      var i := at[0];
      if env[i] != GATE then Refuse
      else
        var cell := EnvCell(c.fault.container) + [Idx(i)];
        Undo([Test(UID, Str(c.uid)), Test(cell, GATE), Remove(cell)])
  }

  function PlanFor(c: Contract, live: Json): Plan {
    if Get(live, UID) != Some(Str(c.uid)) then Refuse
    else match c.fault
      case Argument(_, _, _, _, _) =>
        (match ArgVector(live)
         case None => Refuse
         case Some(args) => PlanArgument(c, args))
      case Secrets(_, _) =>
        if SecretValue(live, 0).None? || SecretValue(live, 1).None? then Refuse
        else PlanSecrets(c, SecretValue(live, 0).value, SecretValue(live, 1).value)
      case Script(_, _, command) =>
        if InitScript(live).None? || command == "" then Refuse
        else PlanScript(c, InitScript(live).value.0, InitScript(live).value.1)
      case Gate(i, _) =>
        match Env(live, i)
        case None => Refuse
        case Some(env) => PlanGate(c, env)
  }

  /** The last test of every cleanup: the original object, with exactly the baseline cells. */
  predicate Restored(c: Contract, live: Json) {
    && Get(live, UID) == Some(Str(c.uid))
    && match c.fault
       case Argument(flag, _, _, args, faulty) => ArgVector(live) == Some(args) && Pairs(args, flag, faulty) == []
       case Secrets(secret, missing) =>
         secret != missing && SecretValue(live, 0) == SecretValue(live, 1) == Some(Str(secret))
       case Script(_, script, command) =>
         InitScript(live).Some? && InitScript(live).value.1 == script && !Contains(script, command)
       case Gate(i, env) => Env(live, i) == Some(env)
  }

  // Recording the baseline -------------------------------------------------------------

  predicate NonEmptyStr(v: Option<Json>) { v.Some? && v.value.Str? && v.value.s != "" }

  predicate Identified(d: Json) { NonEmptyStr(Get(d, UID)) && NonEmptyStr(Get(d, VERSION)) }

  /** The two containers, in the expected order. */
  predicate TwoContainers(d: Json) {
    match Get(d, POD + [Key("containers")])
    case Some(Arr(cs)) =>
      && |cs| == 2
      && Field(cs[0], "name") == Some(Str("tritium"))
      && Field(cs[1], "name") == Some(Str("authenticated-probe"))
    case _ => false
  }

  function Record(d: Json, f: Fault): Contract
    requires Identified(d)
  {
    Contract(Get(d, UID).value.s, Get(d, VERSION).value.s, f)
  }

  function Flags(args: seq<string>, flag: string): seq<nat> {
    Where(|args|, (i: nat) => i < |args| && args[i] == flag)
  }

  function ArgumentContract(d: Json, flag: string, source: string, faulty: string): Option<Contract> {
    if !Identified(d) || !TwoContainers(d) || ArgVector(d).None? then None
    else
      var args := ArgVector(d).value;
      var at := Flags(args, flag);
      if |at| != 1 || at[0] + 1 >= |args| || args[at[0] + 1] != source then None
      else Some(Record(d, Argument(flag, at[0], source, args, faulty)))
  }

  predicate IsToken(item: Json) { Field(item, "name") == Some(Str(TOKEN_NAME)) }

  function Tokens(env: seq<Json>): seq<nat> {
    Where(|env|, (j: nat) => j < |env| && IsToken(env[j]))
  }

  /** The (name, key) of a token reference that is the container's only and first one. */
  function Binding(d: Json, i: nat): Option<(string, string)> {
    match Env(d, i)
    case None => None
    case Some(env) =>
      if Tokens(env) != [0] then None
      else
        var ref := [Key("valueFrom"), Key("secretKeyRef")];
        var name, key := Get(env[0], ref + [Key("name")]), Get(env[0], ref + [Key("key")]);
        if NonEmptyStr(name) && NonEmptyStr(key) then Some((name.value.s, key.value.s)) else None
  }

  function SecretContract(d: Json, missing: string): Option<Contract> {
    if !Identified(d) || !TwoContainers(d) || Binding(d, 0).None? || Binding(d, 0) != Binding(d, 1) then None
    else Some(Record(d, Secrets(Binding(d, 0).value.0, missing)))
  }

  function ScriptContract(d: Json, scenario: Scenario, profile: Profile): Option<Contract> {
    if !Identified(d) || InitScript(d).None? || !BaselineScript(InitScript(d).value.1, profile) then None
    else
      var (i, script) := InitScript(d).value;
      Some(Record(d, Script(i, script, FaultCommand(scenario, profile))))
  }

  predicate AuthEntry(item: Json) {
    match item
    case Obj(f) =>
      && f.Keys == {"name", "valueFrom"} && f["name"] == Str(TOKEN_NAME)
      && (match f["valueFrom"]
          case Obj(from) =>
            && from.Keys == {"secretKeyRef"}
            && (match from["secretKeyRef"]
                case Obj(ref) =>
                  ref.Keys == {"name", "key"} && NonEmptyStr(Some(ref["name"])) && NonEmptyStr(Some(ref["key"]))
                case _ => false)
          case _ => false)
    case _ => false
  }

  predicate IsTritium(item: Json) { Field(item, "name") == Some(Str("tritium")) }

  function Tritiums(cs: seq<Json>): seq<nat> {
    Where(|cs|, (i: nat) => i < |cs| && IsTritium(cs[i]))
  }

  function GateContract(d: Json): Option<Contract> {
    match Get(d, POD + [Key("containers")])
    case Some(Arr(cs)) =>
      var at := Tritiums(cs);
      if !Identified(d) || |at| != 1 || Env(d, at[0]).None? then None
      else
        var env := Env(d, at[0]).value;
        if Gates(env) != [] || |env| != 1 || !AuthEntry(env[0]) then None
        else Some(Record(d, Gate(at[0], env)))
    case _ => None
  }
}
