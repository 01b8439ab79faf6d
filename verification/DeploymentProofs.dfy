/** What the fault and cleanup patches do to an arbitrary Deployment, not only to the one
    the tool has read: other writers may have changed it in between. */
module DeploymentProofs {
  import opened Text
  import opened JsonPatch
  import opened ScriptFault
  import opened Deployment

  // Cleanup ------------------------------------------------------------------------------

  ghost predicate ArgumentUndone(c: Contract, d: Json, d': Json, i: nat)
    requires c.fault.Argument?
  {
    && Get(d, ArgCell(i)) == Some(Str(c.fault.flag))
    && Get(d, ArgCell(i + 1)) == Some(Str(c.fault.faulty))
    && d' == Put(d, ArgCell(i + 1), Str(c.fault.source))
  }

  /** Cell `i` is changed from one value to another when `swap`, and left alone otherwise. */
  ghost predicate Swapped(d: Json, d': Json, i: nat, swap: bool, from: string, to: string) {
    if swap then Get(d, SecretCell(i)) == Some(Str(from)) && d' == Put(d, SecretCell(i), Str(to))
    else d' == d
  }

  ghost predicate SecretsUndone(c: Contract, d: Json, d': Json, mid: Json, first: bool, second: bool)
    requires c.fault.Secrets?
  {
    && Swapped(d, mid, 0, first, c.fault.missing, c.fault.secret)
    && Swapped(mid, d', 1, second, c.fault.missing, c.fault.secret)
  }

  ghost predicate ScriptUndone(c: Contract, d: Json, d': Json, i: nat, script: string)
    requires c.fault.Script?
  {
    && Get(d, ScriptCell(i)) == Some(Str(script))
    && c.fault.command != "" && Contains(script, c.fault.command)
    && RestoredScript(script, c.fault.command).Some?
    && d' == Put(d, ScriptCell(i), Str(RestoredScript(script, c.fault.command).value))
  }

  ghost predicate GateUndone(c: Contract, d: Json, d': Json, env: seq<Json>, i: nat)
    requires c.fault.Gate?
  {
    && Get(d, EnvCell(c.fault.container)) == Some(Arr(env))
    && i < |env| && env[i] == GATE
    && d' == Put(d, EnvCell(c.fault.container), Arr(env[..i] + env[i + 1..]))
  }

  /** `d'` is `d` with injected values, and only those, changed back. */
  ghost predicate Undone(c: Contract, d: Json, d': Json) {
    && Get(d, UID) == Some(Str(c.uid))
    && match c.fault
       case Argument(_, _, _, _, _) => exists i: nat :: ArgumentUndone(c, d, d', i)
       case Secrets(_, _) => exists mid, first, second :: SecretsUndone(c, d, d', mid, first, second)
       case Script(_, _, _) => exists i: nat, script :: ScriptUndone(c, d, d', i, script)
       case Gate(_, _) => exists env, i: nat :: GateUndone(c, d, d', env, i)
  }

  /** The value at `w` is one that the tool injected. */
  ghost predicate Injected(c: Contract, d: Json, w: Path) {
    match c.fault
    case Argument(flag, _, _, _, faulty) =>
      exists i: nat :: w == ArgCell(i + 1) && Get(d, ArgCell(i)) == Some(Str(flag)) && Get(d, w) == Some(Str(faulty))
    case Secrets(_, missing) => w in {SecretCell(0), SecretCell(1)} && Get(d, w) == Some(Str(missing))
    case Script(_, _, command) =>
      exists i: nat, script :: w == ScriptCell(i) && Get(d, w) == Some(Str(script)) && Contains(script, command)
    case Gate(i, _) =>
      w == EnvCell(i) && exists env :: Get(d, w) == Some(Arr(env)) && GATE in env
  }

  lemma {:induction false} TestOp(d: Json, p: Path, v: Json, rest: seq<Op>)
    requires Patch(d, [Test(p, v)] + rest).Some?
    ensures Get(d, p) == Some(v) && Patch(d, [Test(p, v)] + rest) == Patch(d, rest)
  {
    assert ([Test(p, v)] + rest)[1..] == rest;
  }

  lemma SecretSwap(d: Json, i: nat, from: string, to: string, swap: bool, rest: seq<Op>) returns (mid: Json)
    requires Patch(d, (if swap then SwapSecret(i, from, to) else []) + rest).Some?
    ensures Swapped(d, mid, i, swap, from, to)
    ensures Patch(mid, rest) == Patch(d, (if swap then SwapSecret(i, from, to) else []) + rest)
  {
    var ops := if swap then SwapSecret(i, from, to) else [];
    PatchSplit(d, ops, rest);
    mid := Patch(d, ops).value;
    if swap {
      assert ops == [Test(SecretCell(i), Str(from))] + [Op.Replace(SecretCell(i), Str(to))];
      TestOp(d, SecretCell(i), Str(from), [Op.Replace(SecretCell(i), Str(to))]);
    }
  }

  lemma RemoveAt(d: Json, p: Path, i: nat, v: Json)
    requires Get(d, p + [Idx(i)]) == Some(v) && Apply(d, Remove(p + [Idx(i)])).Some?
    ensures Get(d, p).Some? && Get(d, p).value.Arr?
    ensures var env := Get(d, p).value.items;
      i < |env| && env[i] == v && Apply(d, Remove(p + [Idx(i)])) == Some(Put(d, p, Arr(env[..i] + env[i + 1..])))
  {
    GetAppend(d, p, [Idx(i)]);
    assert (p + [Idx(i)])[..|p + [Idx(i)]| - 1] == p;
  }

  lemma ArgumentCleanup(c: Contract, args: seq<string>, d: Json)
    requires c.fault.Argument? && PlanArgument(c, args).Undo? && Patch(d, PlanArgument(c, args).ops).Some?
    ensures Undone(c, d, Patch(d, PlanArgument(c, args).ops).value)
  {
    var f := c.fault;
    var i := Pairs(args, f.flag, f.faulty)[0];
    var write := [Op.Replace(ArgCell(i + 1), Str(f.source))];
    var tests := [Test(ArgCell(i + 1), Str(f.faulty))] + write;
    var ops := [Test(ArgCell(i), Str(f.flag))] + tests;
    assert PlanArgument(c, args).ops == [Test(UID, Str(c.uid))] + ops;
    TestOp(d, UID, Str(c.uid), ops);
    TestOp(d, ArgCell(i), Str(f.flag), tests);
    TestOp(d, ArgCell(i + 1), Str(f.faulty), write);
    assert ArgumentUndone(c, d, Patch(d, PlanArgument(c, args).ops).value, i);
  }

  lemma SecretsCleanup(c: Contract, a: Json, b: Json, d: Json)
    requires c.fault.Secrets? && PlanSecrets(c, a, b).Undo? && Patch(d, PlanSecrets(c, a, b).ops).Some?
    ensures Undone(c, d, Patch(d, PlanSecrets(c, a, b).ops).value)
  {
    var missing, secret := c.fault.missing, c.fault.secret;
    var first, second := a == Str(missing), b == Str(missing);
    var rest := (if second then SwapSecret(1, missing, secret) else []) + [];
    var ops := (if first then SwapSecret(0, missing, secret) else []) + rest;
    assert PlanSecrets(c, a, b).ops == [Test(UID, Str(c.uid))] + ops;
    TestOp(d, UID, Str(c.uid), ops);
    var mid := SecretSwap(d, 0, missing, secret, first, rest);
    var last := SecretSwap(mid, 1, missing, secret, second, []);
    assert SecretsUndone(c, d, last, mid, first, second);
  }

  lemma ScriptCleanup(c: Contract, i: nat, script: string, d: Json)
    requires c.fault.Script? && c.fault.command != "" && PlanScript(c, i, script).Undo?
    requires Patch(d, PlanScript(c, i, script).ops).Some?
    ensures Undone(c, d, Patch(d, PlanScript(c, i, script).ops).value)
  {
    var restored := RestoredScript(script, c.fault.command).value;
    var write := [Op.Replace(ScriptCell(i), Str(restored))];
    var ops := [Test(ScriptCell(i), Str(script))] + write;
    assert PlanScript(c, i, script).ops == [Test(UID, Str(c.uid))] + ops;
    TestOp(d, UID, Str(c.uid), ops);
    TestOp(d, ScriptCell(i), Str(script), write);
    assert ScriptUndone(c, d, Put(d, ScriptCell(i), Str(restored)), i, script);
  }

  lemma GateCleanup(c: Contract, env: seq<Json>, d: Json)
    requires c.fault.Gate? && PlanGate(c, env).Undo? && Patch(d, PlanGate(c, env).ops).Some?
    ensures Undone(c, d, Patch(d, PlanGate(c, env).ops).value)
  {
    var i, k := Gates(env)[0], c.fault.container;
    var cell := EnvCell(k) + [Idx(i)];
    assert PlanGate(c, env).ops == [Test(UID, Str(c.uid))] + ([Test(cell, GATE)] + [Remove(cell)]);
    TestOp(d, UID, Str(c.uid), [Test(cell, GATE)] + [Remove(cell)]);
    TestOp(d, cell, GATE, [Remove(cell)]);
    RemoveAt(d, EnvCell(k), i, GATE);
    assert GateUndone(c, d, Apply(d, Remove(cell)).value, Get(d, EnvCell(k)).value.items, i);
  }

  /** Whatever the Deployment has become since cleanup read it, the cleanup patch either
      fails or changes back a value that the tool injected. */
  lemma CleanupIsGuarded(c: Contract, read: Json, d: Json)
    requires PlanFor(c, read).Undo? && Patch(d, PlanFor(c, read).ops).Some?
    ensures Undone(c, d, Patch(d, PlanFor(c, read).ops).value)
  {
    match c.fault {
      case Argument(_, _, _, _, _) => ArgumentCleanup(c, ArgVector(read).value, d);
      case Secrets(_, _) => SecretsCleanup(c, SecretValue(read, 0).value, SecretValue(read, 1).value, d);
      case Script(_, _, _) => ScriptCleanup(c, InitScript(read).value.0, InitScript(read).value.1, d);
      case Gate(k, _) => GateCleanup(c, Env(read, k).value, d);
    }
  }

  /** Cleanup touches nothing but cells that hold what the tool injected. */
  lemma CleanupTouchesOnlyInjected(c: Contract, d: Json, d': Json, q: Path)
    requires Undone(c, d, d')
    ensures Get(d', q) == Get(d, q) || exists w :: Injected(c, d, w) && !Apart(w, q)
  {
    match c.fault {
      case Argument(_, _, _, _, _) =>
        var i: nat :| ArgumentUndone(c, d, d', i);
        assert Injected(c, d, ArgCell(i + 1));
        if Apart(ArgCell(i + 1), q) { PutFrame(d, ArgCell(i + 1), Str(c.fault.source), q); }
      case Secrets(secret, missing) =>
        var mid, first, second :| SecretsUndone(c, d, d', mid, first, second);
        SecretCellsApart();
        if first {
          assert Injected(c, d, SecretCell(0));
          PutFrame(d, SecretCell(0), Str(secret), SecretCell(1));
          if Apart(SecretCell(0), q) { PutFrame(d, SecretCell(0), Str(secret), q); }
        }
        if second {
          assert Injected(c, d, SecretCell(1));
          if Apart(SecretCell(1), q) { PutFrame(mid, SecretCell(1), Str(secret), q); }
        }
      case Script(_, _, command) =>
        var i: nat, script :| ScriptUndone(c, d, d', i, script);
        assert Injected(c, d, ScriptCell(i));
        if Apart(ScriptCell(i), q) {
          PutFrame(d, ScriptCell(i), Str(RestoredScript(script, command).value), q);
        }
      case Gate(k, _) =>
        var env, i: nat :| GateUndone(c, d, d', env, i);
        assert Injected(c, d, EnvCell(k));
        if Apart(EnvCell(k), q) { PutFrame(d, EnvCell(k), Arr(env[..i] + env[i + 1..]), q); }
    }
  }

  lemma SecretCellsApart()
    ensures Apart(SecretCell(0), SecretCell(1)) && Apart(SecretCell(1), SecretCell(0))
  {
    var base := POD + [Key("containers")];
    var rest := [Key("env"), Idx(0), Key("valueFrom"), Key("secretKeyRef"), Key("name")];
    assert SecretCell(0) == base + [Idx(0)] + rest && SecretCell(1) == base + [Idx(1)] + rest;
    ApartAt(base, Idx(0), Idx(1), rest, rest);
    ApartAt(base, Idx(1), Idx(0), rest, rest);
  }
}
