/** The static evaluation of a Python module's `__all__` (scripts/generate-api-diff.py), and what runs
    of the module can do to that name. */
module PythonAll {
  import opened Text

  /** A statement, as far as `__all__` is concerned. The names of an assignment or a call are None
      when they are not a literal list or tuple of strings; `list` tells which of the two an
      assignment has. Any other statement mentions `__all__` when that name occurs as an expression
      in it, and binds it when it can give it another value all the same: by an import, a def or a
      class of that name, a capture pattern or an except clause further inside. */
  datatype Stmt =
    | Assign(single: bool, names: Option<seq<string>>, list: bool)
    | Call(attribute: string, plain: bool, names: Option<seq<string>>)
    | Try(body: seq<Stmt>, handlers: seq<Handler>, orelse: seq<Stmt>, final: seq<Stmt>)
    | Other(mentions: bool, binds: bool)

  /** An except clause: whether its expression mentions `__all__` or binds it, whether it is
      `except ... as __all__`, and its body. */
  datatype Handler = Handler(mentions: bool, binds: bool, named: bool, body: seq<Stmt>)

  datatype Found = Found(exports: set<string>, known: bool)

  function Values(names: seq<string>): set<string> { set n <- names }

  /** The name `__all__` occurs somewhere. */
  predicate Mentions(s: Stmt)
    decreases s
  {
    match s
    case Assign(_, _, _) => true
    case Call(_, _, _) => true
    case Try(body, handlers, orelse, final) =>
      AnyMention(body) || AnyMention(orelse) || AnyMention(final) ||
      exists i :: 0 <= i < |handlers| && (handlers[i].mentions || AnyMention(handlers[i].body))
    case Other(mentions, _) => mentions
  }

  predicate AnyMention(ss: seq<Stmt>)
    decreases ss
  {
    exists i :: 0 <= i < |ss| && Mentions(ss[i])
  }

  /** The branches of a try statement other than its body do not mention `__all__`. The expressions
      of its except clauses are not looked at. */
  predicate QuietBranches(handlers: seq<Handler>, orelse: seq<Stmt>, final: seq<Stmt>) {
    !AnyMention(orelse) && !AnyMention(final) && forall i :: 0 <= i < |handlers| ==> !AnyMention(handlers[i].body)
  }

  function ApplyStmt(s: Stmt, guarded: bool, f: Found): Option<Found>
    decreases s
  {
    match s
    case Assign(single, names, _) =>
      if guarded || !single || names.None? then None else Some(Found(Values(names.value), true))
    case Call(attribute, plain, names) =>
      if attribute != "extend" || !plain || !f.known || names.None? then None
      else Some(Found(f.exports + Values(names.value), true))
    case Try(body, handlers, orelse, final) =>
      if QuietBranches(handlers, orelse, final) then ApplyBlock(body, true, f) else None
    case Other(mentions, _) => if mentions then None else Some(f)
  }

  function ApplyBlock(ss: seq<Stmt>, guarded: bool, f: Found): Option<Found>
    decreases ss
  {
    if ss == [] then Some(f)
    else match ApplyBlock(ss[..|ss| - 1], guarded, f)
      case None => None
      case Some(g) => ApplyStmt(ss[|ss| - 1], guarded, g)
  }

  /** A collection of names: what `__all__` is bound to, or nothing when it is unbound or something
      else. `list` tells whether it can be extended. */
  datatype Value = Value(names: set<string>, list: bool)

  /** How a piece of a run ends: the value of `__all__`, whether an exception is under way, and
      whether no try body has been left by an exception. */
  datatype Outcome = Outcome(all: Option<Value>, aborted: bool, clean: bool)

  /** What a run chooses for one statement: whether it raises an exception (for a try statement: at
      the end of its body), what it binds `__all__` to if it binds it, which handler takes an
      exception that its body raised, and what its body, the branch after it and the last branch
      choose. */
  datatype Plan = Plan(raises: bool, bound: Option<Option<Value>>, handler: int,
                       body: seq<Plan>, branch: seq<Plan>, final: seq<Plan>)

  /** Nothing is raised or bound. */
  function Idle(): Plan { Plan(false, None, -1, [], [], []) }

  function PlanAt(ps: seq<Plan>, i: nat): Plan { if i < |ps| then ps[i] else Idle() }

  function Raised(a: Option<Value>): Outcome { Outcome(a, true, true) }

  function Done(a: Option<Value>): Outcome { Outcome(a, false, true) }

  function Rebound(may: bool, a: Option<Value>, p: Plan): Option<Value> {
    if may && p.bound.Some? then p.bound.value else a
  }

  /** The expression of one of the first `k` except clauses can change `__all__`. */
  predicate Clauses(handlers: seq<Handler>, k: nat)
    requires k <= |handlers|
  {
    exists i :: 0 <= i < k && (handlers[i].mentions || handlers[i].binds)
  }

  /** A statement that may do anything to the value. */
  function Anything(may: bool, a: Option<Value>, p: Plan): Outcome {
    if p.raises then Raised(Rebound(may, a, p)) else Done(Rebound(may, a, p))
  }

  /** A run of one statement. Only a list can be extended. Any other way to use `__all__` may do anything
      to it: more than one target, another method, other arguments, another statement. */
  function Exec(s: Stmt, a: Option<Value>, p: Plan): Outcome
    decreases s, 1
  {
    match s
    case Assign(single, names, list) =>
      if !single || names.None? then Anything(true, a, p)
      else if p.raises then Raised(a) else Done(Some(Value(Values(names.value), list)))
    case Call(attribute, plain, names) =>
      if attribute != "extend" || !plain || names.None? then Anything(true, a, p)
      else if p.raises || a.None? || !a.value.list then Raised(a)
      else Done(Some(Value(a.value.names + Values(names.value), true)))
    case Try(body, _, _, final) =>
      var b := ExecBlock(body, a, p.body);
      var o := Outcome(b.all, b.aborted || p.raises, b.clean);
      var c := ExecBranch(s, o, p);
      var f := ExecBlock(final, c.all, p.final);
      Outcome(f.all, f.aborted || c.aborted, !o.aborted && o.clean && c.clean && f.clean)
    case Other(mentions, binds) => Anything(mentions || binds, a, p)
  }

  /** After the body of a try statement: the else branch, or a handler, or no handler at all. The
      except clauses are evaluated up to the one that takes the exception. A name that an except
      clause binds is the exception during its body and unbound after it. */
  function ExecBranch(s: Stmt, o: Outcome, p: Plan): Outcome
    requires s.Try?
    decreases s, 0
  {
    if !o.aborted then ExecBlock(s.orelse, o.all, p.branch)
    else if 0 <= p.handler < |s.handlers| then
      var h := s.handlers[p.handler];
      if h.named then
        var r := ExecBlock(h.body, None, p.branch);
        Outcome(None, r.aborted, r.clean)
      else ExecBlock(h.body, Rebound(Clauses(s.handlers, p.handler + 1), o.all, p), p.branch)
    else Raised(Rebound(Clauses(s.handlers, |s.handlers|), o.all, p))
  }

  /** A run of a block: its statements in order, up to an exception. */
  function ExecBlock(ss: seq<Stmt>, a: Option<Value>, ps: seq<Plan>): Outcome
    decreases ss
  {
    if ss == [] then Done(a)
    else
      var n := |ss| - 1;
      var o := ExecBlock(ss[..n], a, ps);
      if o.aborted then o
      else
        var r := Exec(ss[n], o.all, PlanAt(ps, n));
        Outcome(r.all, r.aborted, o.clean && r.clean)
  }

  /** The evaluation of a block, statement by statement. */
  method Apply(ss: seq<Stmt>, guarded: bool, before: Found) returns (r: Option<Found>)
    ensures r == ApplyBlock(ss, guarded, before)
    decreases ss
  {
    var f := before;
    for i := 0 to |ss|
      invariant ApplyBlock(ss[..i], guarded, before) == Some(f)
    {
      assert ss[..i + 1][..i] == ss[..i];
      match ss[i] {
        case Assign(single, names, _) =>
          if guarded || !single || names.None? { r := None; } else { r := Some(Found(Values(names.value), true)); }
        case Call(attribute, plain, names) =>
          if attribute != "extend" || !plain || !f.known || names.None? { r := None; }
          else { r := Some(Found(f.exports + Values(names.value), true)); }
        case Try(body, handlers, orelse, final) =>
          r := Apply(body, true, f);
          if !QuietBranches(handlers, orelse, final) { r := None; }
        case Other(mentions, _) =>
          r := if mentions then None else Some(f);
      }
      if r.None? {
        RefusedPrefix(ss, guarded, before, i + 1);
        return;
      }
      f := r.value;
    }
    assert ss[..|ss|] == ss;
    r := Some(f);
  }

  lemma {:induction false} RefusedPrefix(ss: seq<Stmt>, guarded: bool, f: Found, i: nat)
    requires i <= |ss| && ApplyBlock(ss[..i], guarded, f).None?
    ensures ApplyBlock(ss, guarded, f).None?
    decreases |ss|
  {
    if i < |ss| {
      assert ss[..|ss| - 1][..i] == ss[..i];
      RefusedPrefix(ss[..|ss| - 1], guarded, f, i);
    } else {
      assert ss[..i] == ss;
    }
  }

  function Evaluated(tree: seq<Stmt>): Option<set<string>> {
    match ApplyBlock(tree, false, Found({}, false))
    case None => None
    case Some(f) => if f.known && f.exports != {} then Some(f.exports) else None
  }

  method EvaluateAll(tree: seq<Stmt>) returns (r: Option<set<string>>)
    ensures r == Evaluated(tree)
  {
    var f := Apply(tree, false, Found({}, false));
    r := if f.Some? && f.value.known && f.value.exports != {} then Some(f.value.exports) else None;
  }

  /** What is assigned or added at module level since the last assignment. */
  function Sure(tree: seq<Stmt>): set<string> {
    if tree == [] then {}
    else
      var before, s := Sure(tree[..|tree| - 1]), tree[|tree| - 1];
      if s.Assign? && s.names.Some? then Values(s.names.value)
      else if s.Call? && s.names.Some? then before + Values(s.names.value)
      else before
  }

  /** No exception was raised anywhere. */
  ghost predicate Smooth(o: Outcome) { !o.aborted && o.clean }

  /** A block that does not mention `__all__` is accepted and adds nothing. */
  lemma {:induction false} QuietAccepted(ss: seq<Stmt>, guarded: bool, f: Found)
    requires !AnyMention(ss)
    ensures ApplyBlock(ss, guarded, f) == Some(f)
    decreases ss
  {
    if ss != [] {
      var n := |ss| - 1;
      assert forall i :: 0 <= i < n ==> ss[..n][i] == ss[i];
      QuietAccepted(ss[..n], guarded, f);
      assert !Mentions(ss[n]);
      if ss[n].Try? { QuietAccepted(ss[n].body, true, f); }
    }
  }

  // What can become of the value -----------------------------------------------------------------

  /** The value is what the evaluation says, of one kind or the other; or it was bound to anything;
      or it is no collection of names. */
  datatype Fate = Kept(list: bool) | Loose | Gone

  datatype End = End(fate: Fate, aborted: bool)

  ghost predicate MayBe(may: bool, v: Fate, w: Fate) { w == v || (may && w == Loose) }

  /** From a value of fate `v` the statement can end in this way, whatever the values are. */
  ghost predicate Can(s: Stmt, v: Fate, e: End)
    decreases s, 3
  {
    match s
    case Assign(_, _, list) => e == End(Kept(list), false) || e == End(v, true)
    case Call(_, _, _) => e.fate == v && (e.aborted || v == Loose || v == Kept(true))
    case Try(_, _, _, _) =>
      exists o: End, c: End, l: End :: CanTry(s, v, o, c, l) && e == End(l.fate, c.aborted || l.aborted)
    case Other(_, binds) => MayBe(binds, v, e.fate)
  }

  /** The ends of the body of a try statement, of the branch after it and of the last branch. */
  ghost predicate CanTry(s: Stmt, v: Fate, o: End, c: End, l: End)
    requires s.Try?
    decreases s, 2
  {
    CanBody(s, v, o) && CanBranch(s, o, c) && CanBlock(s.final, c.fate, l)
  }

  ghost predicate CanBody(s: Stmt, v: Fate, o: End)
    requires s.Try?
    decreases s, 0
  {
    CanBlock(s.body, v, o) || (o.aborted && CanBlock(s.body, v, End(o.fate, false)))
  }

  ghost predicate CanBranch(s: Stmt, o: End, c: End)
    requires s.Try?
    decreases s, 1
  {
    if !o.aborted then CanBlock(s.orelse, o.fate, c)
    else
      || (exists k :: 0 <= k < |s.handlers| && CanHandle(s, k, o.fate, c))
      || (c.aborted && MayBe(Clauses(s.handlers, |s.handlers|), o.fate, c.fate))
  }

  ghost predicate CanHandle(s: Stmt, k: nat, v: Fate, c: End)
    requires s.Try? && k < |s.handlers|
    decreases s, 0
  {
    var h := s.handlers[k];
    if h.named then c.fate == Gone && exists w: Fate :: CanBlock(h.body, Gone, End(w, c.aborted))
    else exists w: Fate :: MayBe(Clauses(s.handlers, k + 1), v, w) && CanBlock(h.body, w, c)
  }

  ghost predicate CanBlock(ss: seq<Stmt>, v: Fate, e: End)
    decreases ss
  {
    if ss == [] then e == End(v, false)
    else exists o: End :: CanStop(ss, v, o, e)
  }

  /** The last statement of a block after an end of those before it. */
  ghost predicate CanStop(ss: seq<Stmt>, v: Fate, o: End, e: End)
    requires ss != []
    decreases ss, 0
  {
    var n := |ss| - 1;
    CanBlock(ss[..n], v, o) && if o.aborted then e == o else Can(ss[n], o.fate, e)
  }

  /** A module can be run to its end with a value that is not the evaluated one. */
  ghost predicate Escapes(tree: seq<Stmt>) {
    CanBlock(tree, Gone, End(Loose, false)) || CanBlock(tree, Gone, End(Gone, false))
  }

  // Every run is among these ---------------------------------------------------------------------

  /** A value has a fate: kept means that it lies between `low` and what the evaluation has found. */
  ghost predicate Has(v: Fate, f: Found, low: set<string>, a: Option<Value>) {
    match v
    case Kept(list) => f.known && a.Some? && a.value.list == list && low <= a.value.names <= f.exports
    case Loose => true
    case Gone => a.None?
  }

  ghost predicate Exact(v: Fate, f: Found, a: Option<Value>) { v.Kept? ==> a.Some? && a.value.names == f.exports }

  /** How one piece of a run, which starts with fate `v` and value `a` and comes to `o`, is accounted
      for: by an end that the fates allow, and with the evaluated names when nothing was raised. */
  ghost predicate Accounts(v: Fate, f: Found, a: Option<Value>, e: End, g: Found, low: set<string>, o: Outcome) {
    && e.aborted == o.aborted && Has(e.fate, g, low, o.all) && (e.fate.Kept? ==> v.Kept?)
    && (Exact(v, f, a) && Smooth(o) ==> Exact(e.fate, g, o.all))
  }

  /** Inside a try body names are only added, so however it ends a value that is not bound otherwise
      stays between what it was and what the evaluation adds up. */
  lemma {:induction false} GuardedBlock(ss: seq<Stmt>, f: Found, g: Found, low: set<string>, v: Fate,
                                        a: Option<Value>, ps: seq<Plan>) returns (e: End)
    requires ApplyBlock(ss, true, f) == Some(g) && Has(v, f, low, a)
    ensures g.known == f.known && f.exports <= g.exports
    ensures CanBlock(ss, v, e) && Accounts(v, f, a, e, g, low, ExecBlock(ss, a, ps))
    decreases ss
  {
    if ss == [] {
      e := End(v, false);
    } else {
      var n := |ss| - 1;
      var h := ApplyBlock(ss[..n], true, f).value;
      var o := ExecBlock(ss[..n], a, ps);
      var d := GuardedBlock(ss[..n], f, h, low, v, a, ps);
      var x := GuardedExec(ss[n], h, g, low, d.fate, o.all, PlanAt(ps, n));
      e := if o.aborted then d else x;
      assert CanStop(ss, v, d, e);
    }
  }

  lemma {:induction false} GuardedExec(s: Stmt, f: Found, g: Found, low: set<string>, v: Fate, a: Option<Value>,
                                       p: Plan) returns (e: End)
    requires ApplyStmt(s, true, f) == Some(g) && Has(v, f, low, a)
    ensures g.known == f.known && f.exports <= g.exports
    ensures Can(s, v, e) && Accounts(v, f, a, e, g, low, Exec(s, a, p))
    decreases s, 3
  {
    var o := Exec(s, a, p);
    match s
    case Call(_, _, _) => e := End(v, o.aborted);
    case Other(_, binds) => e := End(if binds && p.bound.Some? then Loose else v, o.aborted);
    case Try(_, _, _, _) => e := GuardedTry(s, f, g, low, v, a, p);
  }

  lemma {:induction false} GuardedTry(s: Stmt, f: Found, g: Found, low: set<string>, v: Fate, a: Option<Value>,
                                      p: Plan) returns (e: End)
    requires s.Try? && ApplyStmt(s, true, f) == Some(g) && Has(v, f, low, a)
    ensures g.known == f.known && f.exports <= g.exports
    ensures Can(s, v, e) && Accounts(v, f, a, e, g, low, Exec(s, a, p))
    decreases s, 2
  {
    var b := ExecBlock(s.body, a, p.body);
    var d := GuardedBlock(s.body, f, g, low, v, a, p.body);
    var o, x := Outcome(b.all, b.aborted || p.raises, b.clean), End(d.fate, d.aborted || p.raises);
    var c := GuardedBranch(s, g, low, x.fate, o, p);
    var r := ExecBranch(s, o, p);
    QuietAccepted(s.final, true, g);
    var l := GuardedBlock(s.final, g, g, low, c.fate, r.all, p.final);
    e := End(l.fate, c.aborted || l.aborted);
    assert CanTry(s, v, x, c, l);
  }

  lemma {:induction false} GuardedBranch(s: Stmt, g: Found, low: set<string>, v: Fate, o: Outcome, p: Plan)
    returns (c: End)
    requires s.Try? && QuietBranches(s.handlers, s.orelse, s.final) && Has(v, g, low, o.all)
    ensures CanBranch(s, End(v, o.aborted), c) && Accounts(v, g, o.all, c, g, low, ExecBranch(s, o, p))
    decreases s, 1
  {
    if !o.aborted {
      QuietAccepted(s.orelse, true, g);
      c := GuardedBlock(s.orelse, g, g, low, v, o.all, p.branch);
    } else if 0 <= p.handler < |s.handlers| {
      c := GuardedHandler(s, g, low, v, o, p);
      assert CanHandle(s, p.handler, v, c);
    } else {
      c := End(if Clauses(s.handlers, |s.handlers|) && p.bound.Some? then Loose else v, true);
    }
  }

  lemma {:induction false} GuardedHandler(s: Stmt, g: Found, low: set<string>, v: Fate, o: Outcome, p: Plan)
    returns (c: End)
    requires s.Try? && QuietBranches(s.handlers, s.orelse, s.final) && Has(v, g, low, o.all)
    requires o.aborted && 0 <= p.handler < |s.handlers|
    ensures CanHandle(s, p.handler, v, c) && Accounts(v, g, o.all, c, g, low, ExecBranch(s, o, p))
    decreases s, 0
  {
    var h, may := s.handlers[p.handler], Clauses(s.handlers, p.handler + 1);
    QuietAccepted(h.body, true, g);
    if h.named {
      var r := GuardedBlock(h.body, g, g, low, Gone, None, p.branch);
      c := End(Gone, r.aborted);
      assert r == End(r.fate, c.aborted);
    } else {
      var w := if may && p.bound.Some? then Loose else v;
      c := GuardedBlock(h.body, g, g, low, w, Rebound(may, o.all, p), p.branch);
      assert MayBe(may, v, w);
    }
  }

  /** A run of a whole module that completes: since the last assignment, names that the module level
      adds are surely there. */
  lemma {:induction false} ModuleSound(tree: seq<Stmt>, g: Found, ps: seq<Plan>) returns (e: End)
    requires ApplyBlock(tree, false, Found({}, false)) == Some(g) && !ExecBlock(tree, None, ps).aborted
    ensures CanBlock(tree, Gone, e) && !e.aborted && Has(e.fate, g, Sure(tree), ExecBlock(tree, None, ps).all)
    ensures ExecBlock(tree, None, ps).clean ==> Exact(e.fate, g, ExecBlock(tree, None, ps).all)
    decreases tree
  {
    if tree == [] {
      e := End(Gone, false);
    } else {
      var n := |tree| - 1;
      var h := ApplyBlock(tree[..n], false, Found({}, false)).value;
      var d := ModuleSound(tree[..n], h, ps);
      var s, a, p := tree[n], ExecBlock(tree[..n], None, ps).all, PlanAt(ps, n);
      if s.Try? {
        e := GuardedExec(s, h, g, Sure(tree[..n]), d.fate, a, p);
      } else {
        e := End(if s.Assign? then Kept(s.list) else if s.Other? && s.binds && p.bound.Some? then Loose else d.fate,
                 false);
      }
      assert CanStop(tree, Gone, d, e);
    }
  }

  // Each of these is a run -----------------------------------------------------------------------

  /** A value that shows what became of it; `x` is a name that is not evaluated. */
  ghost predicate Shows(v: Fate, x: string, a: Option<Value>) {
    match v
    case Kept(list) => a.Some? && a.value.list == list
    case Loose => a.Some? && a.value.list && x in a.value.names
    case Gone => a.None?
  }

  ghost predicate Realises(o: Outcome, e: End, x: string) { o.aborted == e.aborted && Shows(e.fate, x, o.all) }

  function Binding(may: bool, x: string): Option<Option<Value>> {
    if may then Some(Some(Value({x}, true))) else None
  }

  /** Choices for later statements do not matter to a block. */
  lemma {:induction false} LaterPlan(ss: seq<Stmt>, a: Option<Value>, ps: seq<Plan>, p: Plan)
    requires |ss| <= |ps|
    ensures ExecBlock(ss, a, ps + [p]) == ExecBlock(ss, a, ps)
    decreases |ss|
  {
    if ss != [] { LaterPlan(ss[..|ss| - 1], a, ps, p); }
  }

  lemma {:induction false} BlockRuns(ss: seq<Stmt>, guarded: bool, f: Found, v: Fate, e: End, x: string,
                                     a: Option<Value>) returns (ps: seq<Plan>)
    requires ApplyBlock(ss, guarded, f).Some? && CanBlock(ss, v, e) && Shows(v, x, a)
    ensures |ps| == |ss| && Realises(ExecBlock(ss, a, ps), e, x)
    decreases ss
  {
    ps := [];
    if ss != [] {
      var n := |ss| - 1;
      var o: End :| CanStop(ss, v, o, e);
      ps := BlockRuns(ss[..n], guarded, f, v, o, x, a);
      var p := Idle();
      if !o.aborted {
        var h, b := ApplyBlock(ss[..n], guarded, f).value, ExecBlock(ss[..n], a, ps);
        p := StmtRuns(ss[n], guarded, h, o.fate, e, x, b.all);
      }
      LaterPlan(ss[..n], a, ps, p);
      ps := ps + [p];
    }
  }

  lemma {:induction false} StmtRuns(s: Stmt, guarded: bool, f: Found, v: Fate, e: End, x: string, a: Option<Value>)
    returns (p: Plan)
    requires ApplyStmt(s, guarded, f).Some? && Can(s, v, e) && Shows(v, x, a)
    ensures Realises(Exec(s, a, p), e, x)
    decreases s, 3
  {
    match s
    case Assign(_, _, _) => p := Plan(e.aborted, None, -1, [], [], []);
    case Call(_, _, _) => p := Plan(e.aborted, None, -1, [], [], []);
    case Other(_, _) => p := Plan(e.aborted, Binding(e.fate != v, x), -1, [], [], []);
    case Try(_, _, _, _) => p := TryRuns(s, f, v, e, x, a);
  }

  lemma {:induction false} TryRuns(s: Stmt, f: Found, v: Fate, e: End, x: string, a: Option<Value>) returns (p: Plan)
    requires s.Try? && ApplyStmt(s, true, f).Some? && Can(s, v, e) && Shows(v, x, a)
    ensures Realises(Exec(s, a, p), e, x)
    decreases s, 2
  {
    var o: End, c: End, l: End :| CanTry(s, v, o, c, l) && e == End(l.fate, c.aborted || l.aborted);
    var raises, body := BodyRuns(s, f, v, o, x, a);
    var b := ExecBlock(s.body, a, body);
    var r := Outcome(b.all, b.aborted || raises, b.clean);
    var q := BranchRuns(s, f, o, c, x, r);
    QuietAccepted(s.final, true, f);
    var final := BlockRuns(s.final, true, f, c.fate, l, x, ExecBranch(s, r, q).all);
    p := Plan(raises, q.bound, q.handler, body, q.branch, final);
    assert ExecBranch(s, r, p) == ExecBranch(s, r, q);
  }

  lemma {:induction false} BodyRuns(s: Stmt, f: Found, v: Fate, o: End, x: string, a: Option<Value>)
    returns (raises: bool, body: seq<Plan>)
    requires s.Try? && ApplyBlock(s.body, true, f).Some? && CanBody(s, v, o) && Shows(v, x, a)
    ensures var b := ExecBlock(s.body, a, body); Realises(Outcome(b.all, b.aborted || raises, b.clean), o, x)
    decreases s, 0
  {
    raises := !CanBlock(s.body, v, o);
    body := BlockRuns(s.body, true, f, v, if raises then End(o.fate, false) else o, x, a);
  }

  lemma {:induction false} BranchRuns(s: Stmt, f: Found, o: End, c: End, x: string, r: Outcome) returns (q: Plan)
    requires s.Try? && QuietBranches(s.handlers, s.orelse, s.final) && CanBranch(s, o, c) && Realises(r, o, x)
    ensures Realises(ExecBranch(s, r, q), c, x)
    decreases s, 1
  {
    if !o.aborted {
      QuietAccepted(s.orelse, true, f);
      var branch := BlockRuns(s.orelse, true, f, o.fate, c, x, r.all);
      q := Plan(false, None, -1, [], branch, []);
    } else if c.aborted && MayBe(Clauses(s.handlers, |s.handlers|), o.fate, c.fate) {
      q := Plan(false, Binding(c.fate != o.fate, x), -1, [], [], []);
    } else {
      var k :| 0 <= k < |s.handlers| && CanHandle(s, k, o.fate, c);
      q := HandlerRuns(s, f, k, o, c, x, r);
    }
  }

  lemma {:induction false} HandlerRuns(s: Stmt, f: Found, k: nat, o: End, c: End, x: string, r: Outcome)
    returns (q: Plan)
    requires s.Try? && QuietBranches(s.handlers, s.orelse, s.final) && Realises(r, o, x) && o.aborted
    requires k < |s.handlers| && CanHandle(s, k, o.fate, c)
    ensures Realises(ExecBranch(s, r, q), c, x)
    decreases s, 0
  {
    var h, may := s.handlers[k], Clauses(s.handlers, k + 1);
    QuietAccepted(h.body, true, f);
    if h.named {
      var w: Fate :| CanBlock(h.body, Gone, End(w, c.aborted));
      var branch := BlockRuns(h.body, true, f, Gone, End(w, c.aborted), x, None);
      q := Plan(false, None, k, [], branch, []);
    } else {
      var w: Fate :| MayBe(may, o.fate, w) && CanBlock(h.body, w, c);
      var bound := Binding(w != o.fate, x);
      var branch := BlockRuns(h.body, true, f, w, c, x, Rebound(may, r.all, Plan(false, bound, k, [], [], [])));
      q := Plan(false, bound, k, [], branch, []);
    }
  }

  lemma {:induction false} Longer(s: set<string>) returns (n: nat)
    ensures forall t :: t in s ==> |t| < n
  {
    if s == {} {
      n := 0;
    } else {
      var t :| t in s;
      var m := Longer(s - {t});
      n := if |t| < m then m else |t| + 1;
      forall u | u in s ensures |u| < n { if u != t { assert u in s - {t}; } }
    }
  }

  // The evaluation against the runs ---------------------------------------------------------------

  /** A run that completes ends between what the module level surely exports and the evaluated set. */
  ghost predicate InBounds(tree: seq<Stmt>, exports: set<string>, ps: seq<Plan>) {
    var o := ExecBlock(tree, None, ps);
    !o.aborted ==> o.all.Some? && Sure(tree) <= o.all.value.names <= exports
  }

  /** Unless the module can escape, the evaluated set is right: every run that completes stays within
      it and above what the module level surely exports, and a run without exceptions ends with
      exactly that set. */
  lemma EvaluationIsSound(tree: seq<Stmt>, exports: set<string>, ps: seq<Plan>)
    requires Evaluated(tree) == Some(exports) && !Escapes(tree)
    ensures InBounds(tree, exports, ps)
    ensures Smooth(ExecBlock(tree, None, ps)) ==> ExecBlock(tree, None, ps).all.value.names == exports
  {
    var g := ApplyBlock(tree, false, Found({}, false)).value;
    if !ExecBlock(tree, None, ps).aborted {
      var e := ModuleSound(tree, g, ps);
      assert e == End(e.fate, false);
    }
  }

  /** And if it can, some run that completes is out of bounds. */
  lemma EscapesShow(tree: seq<Stmt>, exports: set<string>) returns (ps: seq<Plan>)
    requires Evaluated(tree) == Some(exports) && Escapes(tree)
    ensures !InBounds(tree, exports, ps)
  {
    var n := Longer(exports);
    var x := seq(n, _ => 'x');
    var e := End(if CanBlock(tree, Gone, End(Loose, false)) then Loose else Gone, false);
    ps := BlockRuns(tree, false, Found({}, false), Gone, e, x, None);
  }

  /** For every accepted module: all runs that complete are within bounds exactly when it cannot
      escape. */
  lemma SoundIffNoEscape(tree: seq<Stmt>, exports: set<string>)
    requires Evaluated(tree) == Some(exports)
    ensures (forall ps :: InBounds(tree, exports, ps)) <==> !Escapes(tree)
  {
    if Escapes(tree) {
      var ps := EscapesShow(tree, exports);
    } else {
      forall ps ensures InBounds(tree, exports, ps) { EvaluationIsSound(tree, exports, ps); }
    }
  }

  // Bindings by statements ------------------------------------------------------------------------

  /** At some depth and in some branch the statement can bind `__all__` although that is not seen. */
  predicate Strays(s: Stmt)
    decreases s
  {
    match s
    case Assign(_, _, _) => false
    case Call(_, _, _) => false
    case Try(body, handlers, orelse, final) =>
      AnyStray(body) || AnyStray(orelse) || AnyStray(final) ||
      exists i :: 0 <= i < |handlers| && (ClauseStrays(handlers[i]) || AnyStray(handlers[i].body))
    case Other(_, binds) => binds
  }

  predicate ClauseStrays(h: Handler) { h.mentions || h.binds || h.named }

  predicate AnyStray(ss: seq<Stmt>)
    decreases ss
  {
    ss != [] && (AnyStray(ss[..|ss| - 1]) || Strays(ss[|ss| - 1]))
  }

  /** Such a statement comes after the last module-level assignment. */
  predicate StraysSince(tree: seq<Stmt>) {
    tree != [] && !tree[|tree| - 1].Assign? && (Strays(tree[|tree| - 1]) || StraysSince(tree[..|tree| - 1]))
  }

  /** Where nothing can bind the name, its fate does not change. */
  lemma {:induction false} CalmBlock(ss: seq<Stmt>, f: Found, v: Fate, e: End)
    requires !AnyStray(ss) && ApplyBlock(ss, true, f).Some? && CanBlock(ss, v, e)
    ensures e.fate == v
    decreases ss
  {
    if ss != [] {
      var n := |ss| - 1;
      var o: End :| CanStop(ss, v, o, e);
      CalmBlock(ss[..n], f, v, o);
      if !o.aborted { CalmStmt(ss[n], ApplyBlock(ss[..n], true, f).value, v, e); }
    }
  }

  lemma {:induction false} CalmStmt(s: Stmt, f: Found, v: Fate, e: End)
    requires !Strays(s) && ApplyStmt(s, true, f).Some? && Can(s, v, e)
    ensures e.fate == v
    decreases s, 1
  {
    if s.Try? {
      var o: End, c: End, l: End :| CanTry(s, v, o, c, l) && e == End(l.fate, c.aborted || l.aborted);
      CalmBody(s, f, v, o);
      CalmBranch(s, f, o, c);
      CalmFinal(s, f, c.fate, l);
    }
  }

  lemma {:induction false} CalmFinal(s: Stmt, f: Found, v: Fate, l: End)
    requires s.Try? && !Strays(s) && !AnyMention(s.final) && CanBlock(s.final, v, l)
    ensures l.fate == v
    decreases s, 0
  {
    QuietAccepted(s.final, true, f);
    CalmBlock(s.final, f, v, l);
  }

  lemma {:induction false} CalmBody(s: Stmt, f: Found, v: Fate, o: End)
    requires s.Try? && !Strays(s) && ApplyBlock(s.body, true, f).Some? && CanBody(s, v, o)
    ensures o.fate == v
    decreases s, 0
  {
    CalmBlock(s.body, f, v, if CanBlock(s.body, v, o) then o else End(o.fate, false));
  }

  lemma {:induction false} CalmBranch(s: Stmt, f: Found, o: End, c: End)
    requires s.Try? && !Strays(s) && QuietBranches(s.handlers, s.orelse, s.final) && CanBranch(s, o, c)
    ensures c.fate == o.fate
    decreases s, 0
  {
    assert !Clauses(s.handlers, |s.handlers|);
    if !o.aborted {
      QuietAccepted(s.orelse, true, f);
      CalmBlock(s.orelse, f, o.fate, c);
    } else if !(c.aborted && MayBe(Clauses(s.handlers, |s.handlers|), o.fate, c.fate)) {
      var k :| 0 <= k < |s.handlers| && CanHandle(s, k, o.fate, c);
      assert !ClauseStrays(s.handlers[k]);
      QuietAccepted(s.handlers[k].body, true, f);
      CalmBlock(s.handlers[k].body, f, o.fate, c);
    }
  }

  /** A module in which nothing after the last assignment can bind the name does not escape. */
  lemma {:induction false} CalmModule(tree: seq<Stmt>, e: End)
    requires ApplyBlock(tree, false, Found({}, false)).Some? && ApplyBlock(tree, false, Found({}, false)).value.known
    requires !StraysSince(tree) && CanBlock(tree, Gone, e) && !e.aborted
    ensures e.fate.Kept?
    decreases tree
  {
    var n := |tree| - 1;
    var o: End :| CanStop(tree, Gone, o, e);
    assert Can(tree[n], o.fate, e);
    if !tree[n].Assign? {
      var h := ApplyBlock(tree[..n], false, Found({}, false)).value;
      StepKnows(tree[n], h);
      CalmModule(tree[..n], o);
      CalmStmt(tree[n], h, o.fate, e);
    }
  }

  lemma {:induction false} StepKnows(s: Stmt, f: Found)
    requires !s.Assign? && ApplyStmt(s, false, f).Some?
    ensures ApplyStmt(s, true, f) == ApplyStmt(s, false, f) && ApplyStmt(s, true, f).value.known == f.known
  {
    var e := GuardedExec(s, f, ApplyStmt(s, true, f).value, {}, Loose, None, Idle());
  }

  lemma CalmIsSound(tree: seq<Stmt>, exports: set<string>)
    requires Evaluated(tree) == Some(exports) && !StraysSince(tree)
    ensures !Escapes(tree)
  {
    if CanBlock(tree, Gone, End(Loose, false)) { CalmModule(tree, End(Loose, false)); }
    if CanBlock(tree, Gone, End(Gone, false)) { CalmModule(tree, End(Gone, false)); }
  }

  /** Some statement, at any depth of try bodies, extends `__all__`. */
  predicate Extends(ss: seq<Stmt>)
    decreases ss
  {
    ss != [] && (Extends(ss[..|ss| - 1]) || ExtendsIn(ss[|ss| - 1]))
  }

  predicate ExtendsIn(s: Stmt)
    decreases s
  {
    s.Call? || (s.Try? && Extends(s.body))
  }

  /** The last module-level assignment has a list. */
  predicate LastIsList(tree: seq<Stmt>) {
    tree != [] && (if tree[|tree| - 1].Assign? then tree[|tree| - 1].list else LastIsList(tree[..|tree| - 1]))
  }

  /** Every statement that extends `__all__`, at any depth, comes after the assignment of a list. */
  predicate ExtendsLists(tree: seq<Stmt>) {
    tree == [] || (&& ExtendsLists(tree[..|tree| - 1])
                   && (ExtendsIn(tree[|tree| - 1]) ==> LastIsList(tree[..|tree| - 1])))
  }

  lemma {:induction false} QuietExtendsNothing(ss: seq<Stmt>)
    requires !AnyMention(ss)
    ensures !Extends(ss)
    decreases ss
  {
    if ss != [] {
      var n := |ss| - 1;
      assert forall i :: 0 <= i < n ==> ss[..n][i] == ss[i];
      QuietExtendsNothing(ss[..n]);
      assert !Mentions(ss[n]);
      if ss[n].Try? { QuietExtendsNothing(ss[n].body); }
    }
  }

  /** The value may be extended as far as a piece of the module does. */
  ghost predicate Suits(growing: bool, v: Fate) { growing ==> v == Loose || v == Kept(true) }

  /** Some run gets through a block and leaves the value with the fate that it has. */
  lemma {:induction false} StaysBlock(ss: seq<Stmt>, f: Found, v: Fate)
    requires ApplyBlock(ss, true, f).Some? && Suits(Extends(ss), v)
    ensures CanBlock(ss, v, End(v, false))
    decreases ss, 0
  {
    if ss != [] {
      var n := |ss| - 1;
      StaysBlock(ss[..n], f, v);
      StaysStmt(ss[n], ApplyBlock(ss[..n], true, f).value, v);
      assert CanStop(ss, v, End(v, false), End(v, false));
    }
  }

  lemma {:induction false} StaysStmt(s: Stmt, f: Found, v: Fate)
    requires ApplyStmt(s, true, f).Some? && Suits(ExtendsIn(s), v)
    ensures Can(s, v, End(v, false))
    decreases s
  {
    if s.Try? {
      var e := End(v, false);
      StaysBlock(s.body, f, v);
      StaysQuiet(s.orelse, f, v);
      StaysQuiet(s.final, f, v);
      assert CanBranch(s, e, e);
      assert CanTry(s, v, e, e, e);
    }
  }

  lemma StaysQuiet(ss: seq<Stmt>, f: Found, v: Fate)
    requires !AnyMention(ss)
    ensures CanBlock(ss, v, End(v, false))
    decreases ss, 1
  {
    QuietAccepted(ss, true, f);
    QuietExtendsNothing(ss);
    StaysBlock(ss, f, v);
  }

  /** No except clause itself touches the name, at any depth and in any branch. */
  predicate Bare(s: Stmt)
    decreases s
  {
    s.Try? ==>
      && BareAll(s.body) && BareAll(s.orelse) && BareAll(s.final)
      && forall i :: 0 <= i < |s.handlers| ==> !ClauseStrays(s.handlers[i]) && BareAll(s.handlers[i].body)
  }

  predicate BareAll(ss: seq<Stmt>)
    decreases ss
  {
    ss == [] || (BareAll(ss[..|ss| - 1]) && Bare(ss[|ss| - 1]))
  }

  predicate BareSince(tree: seq<Stmt>) {
    tree == [] || tree[|tree| - 1].Assign? || (Bare(tree[|tree| - 1]) && BareSince(tree[..|tree| - 1]))
  }

  /** If a statement inside can bind the name, some run gets through with any value. */
  lemma {:induction false} LoosensBlock(ss: seq<Stmt>, f: Found, v: Fate)
    requires ApplyBlock(ss, true, f).Some? && Suits(Extends(ss), v) && AnyStray(ss) && BareAll(ss)
    ensures CanBlock(ss, v, End(Loose, false))
    decreases ss, 0
  {
    var n := |ss| - 1;
    var h := ApplyBlock(ss[..n], true, f).value;
    if Strays(ss[n]) {
      StaysBlock(ss[..n], f, v);
      LoosensStmt(ss[n], h, v);
      assert CanStop(ss, v, End(v, false), End(Loose, false));
    } else {
      LoosensBlock(ss[..n], f, v);
      StaysStmt(ss[n], h, Loose);
      assert CanStop(ss, v, End(Loose, false), End(Loose, false));
    }
  }

  lemma {:induction false} LoosensStmt(s: Stmt, f: Found, v: Fate)
    requires ApplyStmt(s, true, f).Some? && Suits(ExtendsIn(s), v) && Strays(s) && Bare(s)
    ensures Can(s, v, End(Loose, false))
    decreases s, 1
  {
    if s.Try? {
      if AnyStray(s.final) {
        var e := End(v, false);
        StaysBlock(s.body, f, v);
        StaysQuiet(s.orelse, f, v);
        LoosensQuiet(s.final, f, v);
        assert CanBranch(s, e, e);
        assert CanTry(s, v, e, e, End(Loose, false));
      } else {
        var o := LoosensBranch(s, f, v);
        var e := End(Loose, false);
        StaysQuiet(s.final, f, Loose);
        assert CanTry(s, v, o, e, e);
      }
    }
  }

  lemma {:induction false} LoosensBranch(s: Stmt, f: Found, v: Fate) returns (o: End)
    requires s.Try? && ApplyStmt(s, true, f).Some? && Suits(ExtendsIn(s), v) && Strays(s) && Bare(s)
    requires !AnyStray(s.final)
    ensures CanBody(s, v, o) && CanBranch(s, o, End(Loose, false))
    decreases s, 0
  {
    if AnyStray(s.body) {
      o := End(Loose, false);
      LoosensBlock(s.body, f, v);
      StaysQuiet(s.orelse, f, Loose);
    } else if AnyStray(s.orelse) {
      o := End(v, false);
      StaysBlock(s.body, f, v);
      LoosensQuiet(s.orelse, f, v);
    } else {
      o := End(v, true);
      StaysBlock(s.body, f, v);
      var k :| 0 <= k < |s.handlers| && AnyStray(s.handlers[k].body);
      LoosensQuiet(s.handlers[k].body, f, v);
      assert MayBe(Clauses(s.handlers, k + 1), v, v);
      assert CanHandle(s, k, v, End(Loose, false));
    }
  }

  lemma LoosensQuiet(ss: seq<Stmt>, f: Found, v: Fate)
    requires !AnyMention(ss) && AnyStray(ss) && BareAll(ss)
    ensures CanBlock(ss, v, End(Loose, false))
    decreases ss, 1
  {
    QuietAccepted(ss, true, f);
    QuietExtendsNothing(ss);
    LoosensBlock(ss, f, v);
  }

  lemma {:induction false} ModuleStays(tree: seq<Stmt>)
    requires ApplyBlock(tree, false, Found({}, false)).Some? && ExtendsLists(tree)
    ensures var known := ApplyBlock(tree, false, Found({}, false)).value.known;
      && (LastIsList(tree) ==> known)
      && CanBlock(tree, Gone, End(if known then Kept(LastIsList(tree)) else Gone, false))
    decreases tree
  {
    if tree != [] {
      var n := |tree| - 1;
      var h := ApplyBlock(tree[..n], false, Found({}, false)).value;
      ModuleStays(tree[..n]);
      var v, s := if h.known then Kept(LastIsList(tree[..n])) else Gone, tree[n];
      if s.Assign? {
        assert CanStop(tree, Gone, End(v, false), End(Kept(s.list), false));
      } else {
        StepKnows(s, h);
        StaysStmt(s, h, v);
        assert CanStop(tree, Gone, End(v, false), End(v, false));
      }
    }
  }

  lemma {:induction false} ModuleLoosens(tree: seq<Stmt>)
    requires ApplyBlock(tree, false, Found({}, false)).Some? && ExtendsLists(tree)
    requires StraysSince(tree) && BareSince(tree)
    ensures CanBlock(tree, Gone, End(Loose, false))
    decreases tree
  {
    var n := |tree| - 1;
    var h := ApplyBlock(tree[..n], false, Found({}, false)).value;
    StepKnows(tree[n], h);
    if Strays(tree[n]) {
      ModuleStays(tree[..n]);
      var v := if h.known then Kept(LastIsList(tree[..n])) else Gone;
      LoosensStmt(tree[n], h, v);
      assert CanStop(tree, Gone, End(v, false), End(Loose, false));
    } else {
      ModuleLoosens(tree[..n]);
      StaysStmt(tree[n], h, Loose);
      assert CanStop(tree, Gone, End(Loose, false), End(Loose, false));
    }
  }

  /** Where no except clause itself touches the name and only lists are extended, all runs that
      complete are within bounds exactly when no statement after the last module-level assignment,
      at any depth and in any branch, can bind the name. Without these two provisos that still is
      enough. */
  lemma SoundIffCalm(tree: seq<Stmt>, exports: set<string>)
    requires Evaluated(tree) == Some(exports)
    ensures !StraysSince(tree) ==> forall ps :: InBounds(tree, exports, ps)
    ensures ExtendsLists(tree) && BareSince(tree) && StraysSince(tree) ==> !forall ps :: InBounds(tree, exports, ps)
  {
    SoundIffNoEscape(tree, exports);
    if !StraysSince(tree) {
      CalmIsSound(tree, exports);
    } else if ExtendsLists(tree) && BareSince(tree) {
      ModuleLoosens(tree);
    }
  }

  // The undisturbed run ---------------------------------------------------------------------------

  /** The value that the evaluation has in mind. */
  function Stated(f: Found, list: bool): Option<Value> { if f.known then Some(Value(f.exports, list)) else None }

  /** A run in which nothing is raised or bound by choice does what the evaluation does, when only a
      list is extended. */
  lemma {:induction false} IdleBlock(ss: seq<Stmt>, f: Found, list: bool)
    requires ApplyBlock(ss, true, f).Some? && (Extends(ss) ==> list)
    ensures ExecBlock(ss, Stated(f, list), []) == Done(Stated(ApplyBlock(ss, true, f).value, list))
    decreases ss, 0
  {
    if ss != [] {
      var n := |ss| - 1;
      IdleBlock(ss[..n], f, list);
      IdleStmt(ss[n], ApplyBlock(ss[..n], true, f).value, list);
    }
  }

  lemma {:induction false} IdleStmt(s: Stmt, f: Found, list: bool)
    requires ApplyStmt(s, true, f).Some? && (ExtendsIn(s) ==> list)
    ensures Exec(s, Stated(f, list), Idle()) == Done(Stated(ApplyStmt(s, true, f).value, list))
    decreases s
  {
    if s.Try? {
      var g := ApplyStmt(s, true, f).value;
      IdleBlock(s.body, f, list);
      IdleQuiet(s.orelse, g, list);
      IdleQuiet(s.final, g, list);
    }
  }

  lemma IdleQuiet(ss: seq<Stmt>, f: Found, list: bool)
    requires !AnyMention(ss)
    ensures ExecBlock(ss, Stated(f, list), []) == Done(Stated(f, list))
    decreases ss, 1
  {
    QuietAccepted(ss, true, f);
    QuietExtendsNothing(ss);
    IdleBlock(ss, f, list);
  }

  lemma {:induction false} IdleModule(tree: seq<Stmt>)
    requires ApplyBlock(tree, false, Found({}, false)).Some? && ExtendsLists(tree)
    ensures ExecBlock(tree, None, []) ==
      Done(Stated(ApplyBlock(tree, false, Found({}, false)).value, LastIsList(tree)))
    decreases tree
  {
    if tree != [] {
      var n := |tree| - 1;
      IdleModule(tree[..n]);
      var h := ApplyBlock(tree[..n], false, Found({}, false)).value;
      if !tree[n].Assign? {
        StepKnows(tree[n], h);
        IdleStmt(tree[n], h, LastIsList(tree[..n]));
      }
    }
  }

  /** The run binds nothing besides assignments: it does not choose to, or cannot. */
  predicate Steady(ss: seq<Stmt>, ps: seq<Plan>) { ps == [] || !AnyStray(ss) }

  ghost predicate SameKind(a: Option<Value>, b: Option<Value>) {
    a.Some? == b.Some? && (a.Some? ==> a.value.list == b.value.list)
  }

  /** A block that such a run gets through without an exception has only extended a list, and has
      left the kind of the value alone. */
  lemma {:induction false} SmoothMeansList(ss: seq<Stmt>, f: Found, a: Option<Value>, ps: seq<Plan>)
    requires ApplyBlock(ss, true, f).Some? && Steady(ss, ps) && Smooth(ExecBlock(ss, a, ps))
    ensures Extends(ss) ==> a.Some? && a.value.list
    ensures SameKind(a, ExecBlock(ss, a, ps).all)
    decreases ss
  {
    if ss != [] {
      var n := |ss| - 1;
      SmoothMeansList(ss[..n], f, a, ps);
      SmoothStepMeansList(ss[n], ApplyBlock(ss[..n], true, f).value, ExecBlock(ss[..n], a, ps).all, PlanAt(ps, n));
    }
  }

  lemma {:induction false} SmoothStepMeansList(s: Stmt, f: Found, a: Option<Value>, p: Plan)
    requires ApplyStmt(s, true, f).Some? && (p == Idle() || !Strays(s)) && Smooth(Exec(s, a, p))
    ensures ExtendsIn(s) ==> a.Some? && a.value.list
    ensures SameKind(a, Exec(s, a, p).all)
    decreases s
  {
    if s.Try? {
      var o := ExecBlock(s.body, a, p.body);
      assert !o.aborted && !p.raises && o.clean;
      assert ExecBranch(s, Outcome(o.all, false, true), p) == ExecBlock(s.orelse, o.all, p.branch);
      SmoothMeansList(s.body, f, a, p.body);
      QuietAccepted(s.orelse, true, f);
      SmoothMeansList(s.orelse, f, o.all, p.branch);
      QuietAccepted(s.final, true, f);
      SmoothMeansList(s.final, f, ExecBlock(s.orelse, o.all, p.branch).all, p.final);
    }
  }

  lemma {:induction false} SmoothModule(tree: seq<Stmt>, f: Found, ps: seq<Plan>)
    requires ApplyBlock(tree, false, f).Some? && Steady(tree, ps) && Smooth(ExecBlock(tree, None, ps))
    ensures ExtendsLists(tree)
    ensures var all := ExecBlock(tree, None, ps).all; all.Some? && all.value.list <==> LastIsList(tree)
    decreases tree
  {
    if tree != [] {
      var n := |tree| - 1;
      SmoothModule(tree[..n], f, ps);
      if !tree[n].Assign? {
        var h := ApplyBlock(tree[..n], false, f).value;
        StepKnows(tree[n], h);
        SmoothStepMeansList(tree[n], h, ExecBlock(tree[..n], None, ps).all, PlanAt(ps, n));
      }
    }
  }

  /** The run in which nothing is raised or bound by choice ends without an exception exactly when
      every extension, at any depth, comes after the assignment of a list, and then ends with the
      evaluated set. Where nothing can bind the name, no other run without exceptions exists
      either unless that holds. */
  lemma EvaluationIsReached(tree: seq<Stmt>, exports: set<string>)
    requires Evaluated(tree) == Some(exports)
    ensures Smooth(ExecBlock(tree, None, [])) <==> ExtendsLists(tree)
    ensures ExtendsLists(tree) ==>
      ExecBlock(tree, None, []) == Outcome(Some(Value(exports, LastIsList(tree))), false, true)
    ensures !AnyStray(tree) ==> ((exists ps :: Smooth(ExecBlock(tree, None, ps))) <==> ExtendsLists(tree))
  {
    var f := Found({}, false);
    if ps :| Steady(tree, ps) && Smooth(ExecBlock(tree, None, ps)) { SmoothModule(tree, f, ps); }
    if ExtendsLists(tree) { IdleModule(tree); }
  }

  // Accepted modules on which the evaluation is wrong, or only seems to be ------------------------

  /** A tuple, and a try statement that extends it. */
  function TupleModule(): seq<Stmt> {
    [Assign(true, Some(["a"]), false),
     Try([Call("extend", true, Some(["b"]))], [Handler(false, false, false, [])], [], [])]
  }

  /** The evaluation adds the new name, and every run that completes, as one does, is without it. */
  lemma TupleExample(ps: seq<Plan>)
    ensures Evaluated(TupleModule()) == Some({"a", "b"})
    ensures ExecBlock(TupleModule(), None, [Idle(), Plan(false, None, 0, [], [], [])]) ==
      Outcome(Some(Value({"a"}, false)), false, false)
    ensures var o := ExecBlock(TupleModule(), None, ps); !o.aborted ==> o.all == Some(Value({"a"}, false))
  {
    var assign, attempt := TupleModule()[0], TupleModule()[1];
    assert TupleModule()[..1] == [assign] && [assign][..0] == [] && attempt.body[..0] == [];
    assert Values(["a"]) == {"a"} && {"a"} + Values(["b"]) == {"a", "b"};
    assert ApplyBlock([assign], false, Found({}, false)) == Some(Found({"a"}, true));
    assert ApplyBlock(attempt.body, true, Found({"a"}, true)) == Some(Found({"a", "b"}, true));
    var quiet, caught := Idle(), Plan(false, None, 0, [], [], []);
    assert ExecBlock([assign], None, [quiet, caught]) == Done(Some(Value({"a"}, false)));
    TupleIsKept(attempt, {"a"}, PlanAt(ps, 1));
    TupleIsKept(attempt, {"a"}, caught);
  }

  lemma TupleIsKept(s: Stmt, names: set<string>, p: Plan)
    requires s == TupleModule()[1]
    ensures var o := Exec(s, Some(Value(names, false)), p);
      o.all == Some(Value(names, false)) && !o.clean && (p.handler == 0 ==> !o.aborted)
  {
    assert s.body[..0] == [];
    assert ExecBlock(s.body, Some(Value(names, false)), p.body) == Raised(Some(Value(names, false)));
  }

  /** `__all__ = ["a"]`, and then `from m import __all__`. */
  function ImportModule(): seq<Stmt> { [Assign(true, Some(["a"]), true), Other(false, true)] }

  /** The evaluation gives the assigned name, and a run can end with whatever `m` has. */
  lemma ImportExample(v: Option<Value>)
    ensures Evaluated(ImportModule()) == Some({"a"}) && ExtendsLists(ImportModule())
    ensures ExecBlock(ImportModule(), None, [Idle(), Plan(false, Some(v), -1, [], [], [])]) == Done(v)
  {
    var assign, ps := ImportModule()[0], [Idle(), Plan(false, Some(v), -1, [], [], [])];
    assert ImportModule()[..1] == [assign] && [assign][..0] == [];
    assert Values(["a"]) == {"a"};
    assert ApplyBlock([assign], false, Found({}, false)) == Some(Found({"a"}, true));
    assert ExecBlock([assign], None, ps) == Done(Some(Value({"a"}, true)));
    assert ExtendsLists([assign][..0]) && !ExtendsIn(assign) && !ExtendsIn(ImportModule()[1]);
  }

  /** `__all__ = ["a"]`, and then a try statement with an empty handler `except E as __all__`. */
  function HandlerModule(): seq<Stmt> {
    [Assign(true, Some(["a"]), true), Try([Other(false, false)], [Handler(false, false, true, [])], [], [])]
  }

  /** A run that takes the handler ends without any value. */
  lemma HandlerExample()
    ensures ApplyBlock(HandlerModule(), false, Found({}, false)) == Some(Found({"a"}, true))
    ensures Evaluated(HandlerModule()) == Some({"a"}) && StraysSince(HandlerModule())
    ensures ExecBlock(HandlerModule(), None, [Idle(), Plan(true, None, 0, [], [], [])]) == Outcome(None, false, false)
  {
    var assign, attempt := HandlerModule()[0], HandlerModule()[1];
    assert HandlerModule()[..1] == [assign] && [assign][..0] == [] && attempt.body[..0] == [];
    assert Values(["a"]) == {"a"};
    assert ApplyBlock([assign], false, Found({}, false)) == Some(Found({"a"}, true));
    assert ApplyBlock(attempt.body, true, Found({"a"}, true)) == Some(Found({"a"}, true));
    assert ExecBlock([assign], None, [Idle(), Plan(true, None, 0, [], [], [])]) == Done(Some(Value({"a"}, true)));
    HandlerTaken(attempt, Some(Value({"a"}, true)), Plan(true, None, 0, [], [], []));
    assert Strays(attempt) by { assert ClauseStrays(attempt.handlers[0]); }
  }

  /** When the module goes on to extend the value, such a run fails; every run that completes ends with
      the evaluated set, although the except clause binds the name. */
  lemma HandlerExtended(ps: seq<Plan>)
    ensures var tree := HandlerModule() + [Call("extend", true, Some(["b"]))];
      && Evaluated(tree) == Some({"a", "b"}) && StraysSince(tree)
      && var o := ExecBlock(tree, None, ps); !o.aborted ==> o.all == Some(Value({"a", "b"}, true))
  {
    var assign, call := HandlerModule()[0], Call("extend", true, Some(["b"]));
    var tree := HandlerModule() + [call];
    HandlerExample();
    assert tree[..2] == HandlerModule() && tree[2] == call;
    assert {"a"} + Values(["b"]) == {"a", "b"};
    assert ApplyStmt(call, false, Found({"a"}, true)) == Some(Found({"a", "b"}, true));
    HandlerEnds(ps);
  }

  lemma HandlerEnds(ps: seq<Plan>)
    ensures var o := ExecBlock(HandlerModule(), None, ps);
      !o.aborted ==> o.all.None? || o.all == Some(Value({"a"}, true))
  {
    var assign := HandlerModule()[0];
    assert HandlerModule()[..1] == [assign] && [assign][..0] == [];
    assert Values(["a"]) == {"a"};
    HandlerTaken(HandlerModule()[1], Some(Value({"a"}, true)), PlanAt(ps, 1));
  }

  lemma HandlerTaken(s: Stmt, a: Option<Value>, p: Plan)
    requires s == HandlerModule()[1]
    ensures var o := Exec(s, a, p); o.all == a || o.all == None || o.aborted
    ensures p == Plan(true, None, 0, [], [], []) ==> Exec(s, a, p) == Outcome(None, false, false)
  {
    assert s.body[..0] == [];
    assert ExecBlock([], None, p.branch) == Done(None);
  }

  /** `__all__ = ["a"]`, and a try statement whose first except clause, `except (__all__ := E)`, names it. */
  function ClauseModule(): seq<Stmt> {
    [Assign(true, Some(["a"]), true), Try([Other(false, false)], [Handler(true, false, false, [])], [], [])]
  }

  /** The clause is not looked at, and a run that comes to it can end with any value. */
  lemma ClauseExample(v: Option<Value>)
    ensures Evaluated(ClauseModule()) == Some({"a"})
    ensures ExecBlock(ClauseModule(), None, [Idle(), Plan(true, Some(v), 0, [], [], [])]) == Outcome(v, false, false)
  {
    var assign, attempt, p := ClauseModule()[0], ClauseModule()[1], Plan(true, Some(v), 0, [], [], []);
    assert ClauseModule()[..1] == [assign] && [assign][..0] == [] && attempt.body[..0] == [];
    assert Values(["a"]) == {"a"};
    assert ApplyBlock([assign], false, Found({}, false)) == Some(Found({"a"}, true));
    assert ApplyBlock(attempt.body, true, Found({"a"}, true)) == Some(Found({"a"}, true));
    assert ExecBlock([assign], None, [Idle(), p]) == Done(Some(Value({"a"}, true)));
    assert attempt.handlers[0].mentions && Clauses(attempt.handlers, 1);
    assert ExecBlock(attempt.body, Some(Value({"a"}, true)), []) == Done(Some(Value({"a"}, true)));
    assert ExecBranch(attempt, Raised(Some(Value({"a"}, true))), p) == Done(v);
  }
}
