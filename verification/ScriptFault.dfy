/** The artifact staging script: how a startup fault is injected into it and how
    the injection is taken out again (scripts/qualify-kubernetes-deployment.py). */
module ScriptFault {
  import opened Text

  datatype Scenario = MalformedManifest | TruncatedProfile | WrongIdentity
  datatype Profile = CompactV1 | NearLosslessV1

  const MARKER := "chmod -R a-w /staged/bundle"
  const STAGED := "/staged/bundle/"
  const CHECKSUM := "sha256sum -c -"

  function ProfileFile(profile: Profile): string {
    match profile
    case CompactV1 => "compact.tsalt2"
    case NearLosslessV1 => "near-lossless.tsalt2"
  }

  function FaultCommand(scenario: Scenario, profile: Profile): string {
    match scenario
    case MalformedManifest => "printf '{' > " + STAGED + "tritium.json"
    case TruncatedProfile => "printf '\\000' > " + STAGED + ProfileFile(profile)
    case WrongIdentity => "printf '\\n' >> " + STAGED + "config.json"
  }

  /** Position of the first occurrence, or -1. */
  function Find(s: string, p: string): int {
    match SplitOnce(s, p)
    case None => -1
    case Some((before, _)) => |before|
  }

  /** The scripts that the baseline contract accepts. */
  predicate BaselineScript(script: string, profile: Profile) {
    && Count(script, MARKER) == 1
    && 0 <= Find(script, CHECKSUM) <= Find(script, MARKER)
    && !Contains(script, FaultCommand(MalformedManifest, profile))
    && !Contains(script, FaultCommand(TruncatedProfile, profile))
    && !Contains(script, FaultCommand(WrongIdentity, profile))
  }

  function Injection(command: string): string {
    command + "; "
  }

  /** The faulted script; None when the marker is missing or repeated. */
  function FaultScript(script: string, command: string): Option<string> {
    if Count(script, MARKER) != 1 then None
    else Some(Replace(script, MARKER, Injection(command) + MARKER))
  }

  /** The script that cleanup writes back: unchanged when the command is absent,
      None when the injected command cannot be told from another use of it. */
  function RestoredScript(script: string, command: string): Option<string>
    requires command != ""
  {
    if !Contains(script, command) then Some(script)
    else if Count(script, command) != 1 || Count(script, Injection(command)) != 1 then None
    else Some(Replace(script, Injection(command), ""))
  }

  /** Nothing in `Injection(command)` but its start can begin an occurrence of the command. */
  ghost predicate Removable(command: string) {
    command != "" && Unbordered(command) && command[0] != ';' && command[0] != ' '
  }

  lemma AtSlice(s: string, a: string, b: string, p: string, i: int)
    requires s == a + b && At(s, p, i)
    ensures i + |p| <= |a| ==> At(a, p, i)
    ensures |a| <= i ==> At(b, p, i - |a|)
  {
    if i + |p| <= |a| {
      assert s[i..i + |p|] == a[i..i + |p|];
    }
    if |a| <= i {
      assert s[i..i + |p|] == b[i - |a|..i - |a| + |p|];
    }
  }

  lemma FirstOf(s: string, p: string, i: int)
    requires p != "" && At(s, p, i)
    ensures s[i] == p[0]
  {
    assert s[i..i + |p|][0] == s[i];
  }

  lemma ContainsJoin(a: string, b: string, p: string)
    requires Contains(a, p) || Contains(b, p)
    ensures Contains(a + b, p)
  {
    if i :| 0 <= i <= |a| && At(a, p, i) {
      assert (a + b)[i..i + |p|] == a[i..i + |p|];
      assert At(a + b, p, i);
    } else {
      var i :| 0 <= i <= |b| && At(b, p, i);
      assert (a + b)[i + |a|..i + |a| + |p|] == b[i..i + |p|];
      assert At(a + b, p, i + |a|);
    }
  }

  /** An occurrence of the command next to the injected one would overlap it. */
  lemma NoOtherCommand(a: string, b: string, command: string, i: int)
    requires Removable(command) && At(a + Injection(command) + b, command, i)
    requires At(a + Injection(command) + b, command, |a|)
    ensures i == |a| || i + |command| <= |a| || |a + Injection(command)| <= i
  {
    var s := a + Injection(command) + b;
    FirstOf(s, command, i);
    if |a| - |command| < i < |a| {
      OverlapIsBorder(s, command, i, |a|);
    } else if |a| < i < |a| + |command| {
      OverlapIsBorder(s, command, |a|, i);
    }
  }

  /** Wherever the injection is spliced in, the command occurs there and nowhere else. */
  lemma CommandOnlyAt(a: string, b: string, command: string)
    requires Removable(command) && !Contains(a, command) && !Contains(b, command)
    ensures OnlyAt(a + Injection(command) + b, command, |a|)
  {
    var inj := Injection(command);
    var s := a + inj + b;
    assert s[|a|..|a| + |command|] == command;
    forall i | At(s, command, i) ensures i == |a| {
      NoOtherCommand(a, b, command, i);
      assert s == a + (inj + b);
      AtSlice(s, a, inj + b, command, i);
      AtSlice(s, a + inj, b, command, i);
    }
  }

  lemma InjectedOnlyAt(a: string, b: string, command: string)
    requires Removable(command) && !Contains(a, command) && !Contains(b, command)
    ensures OnlyAt(a + Injection(command) + b, command, |a|)
    ensures OnlyAt(a + Injection(command) + b, Injection(command), |a|)
  {
    var inj := Injection(command);
    var s := a + inj + b;
    CommandOnlyAt(a, b, command);
    assert s[|a|..|a| + |inj|] == inj;
    forall i | At(s, inj, i) ensures i == |a| {
      assert s[i..i + |command|] == s[i..i + |inj|][..|command|] == command;
      assert At(s, command, i);
    }
  }

  /** Cleanup removes the injection and leaves every other edit of the script alone. */
  lemma RestoreKeepsForeignEdits(a: string, b: string, command: string)
    requires Removable(command) && !Contains(a, command) && !Contains(b, command)
    ensures RestoredScript(a + Injection(command) + b, command) == Some(a + b)
  {
    var inj := Injection(command);
    var s := a + inj + b;
    InjectedOnlyAt(a, b, command);
    OnlyAtScan(s, command, |a|, "");
    OnlyAtScan(s, inj, |a|, "");
    assert s[..|a|] == a && s[|a| + |inj|..] == b;
    assert a + "" + b == a + b;
  }

  lemma MarkerUnbordered()
    ensures Unbordered(MARKER)
  {
    FirstCharOnceIsUnbordered(MARKER);
  }

  /** Injecting and then cleaning up gives back the baseline script. */
  lemma InjectionUndone(script: string, command: string)
    requires Removable(command) && !Contains(script, command) && Count(script, MARKER) == 1
    ensures FaultScript(script, command).Some?
    ensures var fault := FaultScript(script, command).value;
      Count(fault, command) == 1 && RestoredScript(fault, command) == Some(script)
  {
    MarkerUnbordered();
    var i := CountOneIsOnlyAt(script, MARKER);
    OnlyAtScan(script, MARKER, i, Injection(command) + MARKER);
    var a, b := script[..i], script[i..];
    assert script == a + b && b == MARKER + script[i + |MARKER|..];
    assert FaultScript(script, command).value == a + Injection(command) + b;
    if Contains(a, command) || Contains(b, command) { ContainsJoin(a, b, command); }
    InjectedOnlyAt(a, b, command);
    OnlyAtScan(a + Injection(command) + b, command, |a|, "");
    RestoreKeepsForeignEdits(a, b, command);
  }

  /** `p` appears in `s` only where it is not followed by `r`. */
  predicate NoPr(s: string) {
    forall k :: 0 <= k < |s| && s[k] == 'p' ==> k + 1 < |s| && s[k + 1] != 'r'
  }

  lemma PrintfIsRemovable(redirect: string, file: string)
    requires NoPr(redirect) && NoPr(file)
    ensures Removable("printf " + redirect + STAGED + file)
  {
    var p := "printf " + redirect + STAGED + file;
    var rest := redirect + STAGED + file;
    assert NoPr(redirect + STAGED);
    assert NoPr(rest);
    assert p == "printf " + rest;
    forall k | 0 < k < |p| ensures p[k..] != p[..|p| - k] {
      assert p[k..][0] == p[k] && p[..|p| - k][0] == p[0] == 'p';
      if p[k] == 'p' {
        assert p[k] == rest[k - 7];
        assert p[k..][1] == p[k + 1] == rest[k - 6] && p[..|p| - k][1] == p[1] == 'r';
      }
    }
  }

  lemma CommandsRemovable(scenario: Scenario, profile: Profile)
    ensures Removable(FaultCommand(scenario, profile))
  {
    match scenario {
      case MalformedManifest =>
        PrintfIsRemovable("'{' > ", "tritium.json");
        assert "printf " + "'{' > " == "printf '{' > ";
      case TruncatedProfile =>
        PrintfIsRemovable("'\\000' > ", ProfileFile(profile));
        assert "printf " + "'\\000' > " == "printf '\\000' > ";
      case WrongIdentity =>
        PrintfIsRemovable("'\\n' >> ", "config.json");
        assert "printf " + "'\\n' >> " == "printf '\\n' >> ";
    }
  }

  /** For every script the baseline contract accepts and every fault the tool can
      build, the fault is removed exactly. */
  lemma ScriptFaultUndone(script: string, scenario: Scenario, profile: Profile)
    requires BaselineScript(script, profile)
    ensures var command := FaultCommand(scenario, profile);
      && FaultScript(script, command).Some?
      && Count(FaultScript(script, command).value, command) == 1
      && RestoredScript(FaultScript(script, command).value, command) == Some(script)
  {
    CommandsRemovable(scenario, profile);
    InjectionUndone(script, FaultCommand(scenario, profile));
  }
}
