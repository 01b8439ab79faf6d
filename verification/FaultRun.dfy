/** One qualification run against a cluster that other writers share: inject the fault,
    watch, and restore on every way out.  Before each request outside writers may replace or
    delete the Deployment, and each request may be lost, or take effect and lose its answer.

    The order of requests is the same for all faults, so it is written once, over a protocol:
    the fault patch and three decisions on documents. */
module FaultRun {
  import opened Text
  import opened JsonPatch
  import Deployment

  type Plan = Deployment.Plan

  datatype Protocol = Protocol(
    inject: seq<Op>,
    admitted: Json -> bool,
    plan: Json -> Plan,
    restored: Json -> bool,
    version: string)

  datatype Delivery = Answered | Lost | AnswerLost

  /** What happens around one request: an edit of the stored object (possibly a deletion)
      before it arrives, the fate of the request, and the version the server would issue. */
  datatype Event = Event(edit: Option<Option<Json>>, delivery: Delivery, version: string)

  datatype Author = Outside | Injector | Cleaner

  datatype Write = Write(author: Author, before: Option<Json>, after: Option<Json>)

  function Next(events: seq<Event>): Event {
    if events == [] then Event(None, Lost, "") else events[0]
  }

  function Later(events: seq<Event>): seq<Event> {
    if events == [] then [] else events[1..]
  }

  /** The stored object when the request of event `e` arrives. */
  function Edited(stored: Option<Json>, e: Event): Option<Json> {
    if e.edit.Some? then e.edit.value else stored
  }

  /** The server gives every changed object a new version. */
  function Stamp(d: Json, version: string): Json {
    if Get(d, Deployment.VERSION).Some? then Put(d, Deployment.VERSION, Str(version)) else d
  }

  /** The effect of a patch request: None when nothing is written. */
  function Effect(d: Option<Json>, e: Event, ops: seq<Op>): Option<Json> {
    if d.None? || e.delivery.Lost? || Patch(d.value, ops).None? then None
    else Some(Stamp(Patch(d.value, ops).value, e.version))
  }

  ghost predicate Patched(before: Option<Json>, ops: seq<Op>, after: Option<Json>) {
    && before.Some? && Patch(before.value, ops).Some?
    && exists v :: after == Some(Stamp(Patch(before.value, ops).value, v))
  }

  /** What the tool may write: the fault patch, or a cleanup patch that its plan decided on
      for some document it read. */
  ghost predicate Allowed(p: Protocol, w: Write) {
    && (w.author.Injector? ==> Patched(w.before, p.inject, w.after))
    && (w.author.Cleaner? ==> exists read :: p.plan(read).Undo? && Patched(w.before, p.plan(read).ops, w.after))
  }

  ghost predicate Disciplined(p: Protocol, log: seq<Write>) {
    forall i :: 0 <= i < |log| ==> Allowed(p, log[i])
  }

  function Writes(log: seq<Write>, a: Author): nat {
    if log == [] then 0 else (if log[0].author == a then 1 else 0) + Writes(log[1..], a)
  }

  lemma {:induction false} WritesJoin(x: seq<Write>, y: seq<Write>, a: Author)
    ensures Writes(x + y, a) == Writes(x, a) + Writes(y, a)
  {
    if x == [] {
      assert x + y == y;
    } else {
      assert (x + y)[1..] == x[1..] + y;
      WritesJoin(x[1..], y, a);
    }
  }

  /** A stretch of writes with at most so many by the tool, all of them allowed. */
  ghost predicate Story(p: Protocol, log: seq<Write>, injections: nat, cleanups: nat) {
    Disciplined(p, log) && Writes(log, Injector) <= injections && Writes(log, Cleaner) <= cleanups
  }

  lemma StoryJoin(p: Protocol, x: seq<Write>, y: seq<Write>, i: nat, j: nat, k: nat, l: nat)
    requires Story(p, x, i, k) && Story(p, y, j, l)
    ensures Story(p, x + y, i + j, k + l)
  {
    WritesJoin(x, y, Injector);
    WritesJoin(x, y, Cleaner);
  }

  /** The writes lead, one after the other, from `start` to `end`. */
  ghost predicate Chain(start: Option<Json>, log: seq<Write>, end: Option<Json>)
    decreases |log|
  {
    if log == [] then start == end
    else log[0].before == start && Chain(log[0].after, log[1..], end)
  }

  lemma {:induction false} ChainJoin(a: Option<Json>, x: seq<Write>, b: Option<Json>, y: seq<Write>, c: Option<Json>)
    requires Chain(a, x, b) && Chain(b, y, c)
    ensures Chain(a, x + y, c)
    decreases |x|
  {
    if x == [] {
      assert x + y == y;
    } else {
      assert (x + y)[1..] == x[1..] + y;
      ChainJoin(x[0].after, x[1..], b, y, c);
    }
  }

  /** How a run ends: it comes through its version test, or it ends with an exception from its body
      while cleanup succeeded, or with the exception of cleanup itself. */
  datatype Outcome = Returned(doc: Json) | BodyRaised | CleanupRaised

  ghost function EditLog(stored: Option<Json>, e: Event): seq<Write> {
    if e.edit.Some? then [Write(Outside, stored, e.edit.value)] else []
  }

  ghost function SendLog(stored: Option<Json>, e: Event, ops: seq<Op>, a: Author): seq<Write> {
    var d := Edited(stored, e);
    EditLog(stored, e) + if Effect(d, e, ops).Some? then [Write(a, d, Effect(d, e, ops))] else []
  }

  function SentState(stored: Option<Json>, e: Event, ops: seq<Op>): Option<Json> {
    var out := Effect(Edited(stored, e), e, ops);
    if out.Some? then out else Edited(stored, e)
  }

  /** The object that cleanup ends with, None when it raises: its first read already finds the
      baseline; or, after the patch it plans has arrived or not, its second read does. */
  function Recovered(p: Protocol, stored: Option<Json>, events: seq<Event>): Option<Json> {
    var e0, e1, e2 := Next(events), Next(Later(events)), Next(Later(Later(events)));
    var d0 := Edited(stored, e0);
    if !e0.delivery.Answered? || d0.None? then None
    else match p.plan(d0.value)
      case Refuse => None
      case Keep => if p.restored(d0.value) then d0 else None
      case Undo(ops) =>
        var d2 := Edited(SentState(d0, e1, ops), e2);
        if e2.delivery.Answered? && d2.Some? && p.restored(d2.value) then d2 else None
  }

  /** The edits and losses that cleanup survives. */
  predicate Recoverable(p: Protocol, stored: Option<Json>, events: seq<Event>) {
    Recovered(p, stored, events).Some?
  }

  /** The fault patch takes effect and the tool hears of it. */
  predicate Injects(p: Protocol, stored: Option<Json>, events: seq<Event>) {
    Effect(Edited(stored, Next(events)), Next(events), p.inject).Some? && Next(events).delivery.Answered?
  }

  /** The object and the events when cleanup starts: after the fault patch, and after one read if
      the tool heard of it. */
  function AtCleanup(p: Protocol, stored: Option<Json>, events: seq<Event>): (Option<Json>, seq<Event>) {
    var sent, rest := SentState(stored, Next(events), p.inject), Later(events);
    if Injects(p, stored, events) then (Edited(sent, Next(rest)), Later(rest)) else (sent, rest)
  }

  /** The object in which the tool finds its fault, None when it does not. */
  function FoundFault(p: Protocol, stored: Option<Json>, events: seq<Event>): Option<Json> {
    var sent, e := SentState(stored, Next(events), p.inject), Next(Later(events));
    var d := Edited(sent, e);
    if Injects(p, stored, events) && e.delivery.Answered? && d.Some? && p.admitted(d.value) then d else None
  }

  /** The restored object carries a version that is neither the recorded nor the faulted one. */
  predicate NewVersion(p: Protocol, faulted: Json, d: Json) {
    var version := Get(d, Deployment.VERSION);
    && Deployment.NonEmptyStr(version) && version != Some(Str(p.version))
    && version != Get(faulted, Deployment.VERSION)
  }

  /** The run ends well: the fault was found and observed, and cleanup ends with a new version of
      the baseline. */
  predicate EndsWell(p: Protocol, stored: Option<Json>, events: seq<Event>, observed: bool) {
    var found := FoundFault(p, stored, events);
    var (start, left) := AtCleanup(p, stored, events);
    var end := Recovered(p, start, left);
    observed && found.Some? && end.Some? && NewVersion(p, found.value, end.value)
  }

  /** Five requests that are answered with nobody else writing. */
  ghost predicate Quiet(events: seq<Event>) {
    |events| >= 5 && forall i :: 0 <= i < 5 ==> events[i].edit.None? && events[i].delivery.Answered?
  }

  lemma LaterAt(events: seq<Event>, i: nat)
    requires i < |events|
    ensures Next(events[i..]) == events[i] && Later(events[i..]) == events[i + 1..]
  {}

  lemma QuietSent(d: Json, e: Event, ops: seq<Op>)
    requires e.edit.None? && e.delivery.Answered? && Patch(d, ops).Some?
    ensures Edited(Some(d), e) == Some(d)
    ensures Effect(Some(d), e, ops) == SentState(Some(d), e, ops) == Some(Stamp(Patch(d, ops).value, e.version))
  {}

  lemma QuietInjection(p: Protocol, d: Json, faulted: Json, events: seq<Event>)
    requires Quiet(events) && Patch(d, p.inject).Some? && faulted == Stamp(Patch(d, p.inject).value, events[0].version)
    requires p.admitted(faulted)
    ensures FoundFault(p, Some(d), events) == Some(faulted)
    ensures AtCleanup(p, Some(d), events) == (Some(faulted), events[2..])
  {
    assert events[0..] == events;
    LaterAt(events, 0);
    LaterAt(events, 1);
    QuietSent(d, events[0], p.inject);
  }

  lemma QuietCleanup(p: Protocol, faulted: Json, ops: seq<Op>, events: seq<Event>)
    requires Quiet(events) && p.plan(faulted) == Deployment.Undo(ops) && Patch(faulted, ops).Some?
    requires p.restored(Stamp(Patch(faulted, ops).value, events[3].version))
    ensures Recovered(p, Some(faulted), events[2..]) == Some(Stamp(Patch(faulted, ops).value, events[3].version))
  {
    LaterAt(events, 2);
    LaterAt(events, 3);
    LaterAt(events, 4);
    QuietSent(faulted, events[3], ops);
  }

  /** In a quiet run the five requests see the object, the faulted one twice and the restored one. */
  lemma QuietRun(p: Protocol, d: Json, faulted: Json, ops: seq<Op>, events: seq<Event>)
    requires Quiet(events) && Patch(d, p.inject).Some? && faulted == Stamp(Patch(d, p.inject).value, events[0].version)
    requires p.admitted(faulted) && p.plan(faulted) == Deployment.Undo(ops) && Patch(faulted, ops).Some?
    requires var end := Stamp(Patch(faulted, ops).value, events[3].version);
      p.restored(end) && NewVersion(p, faulted, end)
    ensures EndsWell(p, Some(d), events, true)
  {
    QuietInjection(p, d, faulted, events);
    QuietCleanup(p, faulted, ops, events);
  }

  lemma EditStory(p: Protocol, stored: Option<Json>, e: Event)
    ensures Story(p, EditLog(stored, e), 0, 0)
    ensures Chain(stored, EditLog(stored, e), Edited(stored, e))
  {
  }

  lemma SendStory(p: Protocol, stored: Option<Json>, e: Event, ops: seq<Op>, a: Author)
    requires !a.Outside?
    requires a.Injector? ==> ops == p.inject
    requires a.Cleaner? ==> exists read :: p.plan(read).Undo? && p.plan(read).ops == ops
    ensures Chain(stored, SendLog(stored, e, ops, a), SentState(stored, e, ops))
    ensures Story(p, SendLog(stored, e, ops, a), if a.Injector? then 1 else 0, if a.Cleaner? then 1 else 0)
    ensures Effect(Edited(stored, e), e, ops).Some? ==> Writes(SendLog(stored, e, ops, a), a) == 1
  {
    var d := Edited(stored, e);
    var out := Effect(d, e, ops);
    EditStory(p, stored, e);
    if out.Some? {
      var w := Write(a, d, out);
      assert Patched(d, ops, out);
      assert [w][1..] == [];
      assert Story(p, [w], if a.Injector? then 1 else 0, if a.Cleaner? then 1 else 0);
      ChainJoin(stored, EditLog(stored, e), d, [w], out);
      StoryJoin(p, EditLog(stored, e), [w], 0, if a.Injector? then 1 else 0, 0, if a.Cleaner? then 1 else 0);
      WritesJoin(EditLog(stored, e), [w], a);
    }
  }

  class Cluster {
    var stored: Option<Json>
    var events: seq<Event>
    ghost var lastRead: Option<Json>

    /** The outside edits that come before a request. */
    method Arrive() returns (e: Event, ghost added: seq<Write>)
      modifies this`stored, this`events
      ensures e == Next(old(events)) && events == Later(old(events))
      ensures stored == Edited(old(stored), e) && added == EditLog(old(stored), e)
    {
      e := Next(events);
      events := Later(events);
      added := EditLog(stored, e);
      stored := Edited(stored, e);
    }

    method Read() returns (r: Option<Json>, ghost added: seq<Write>)
      modifies this
      ensures events == Later(old(events))
      ensures stored == Edited(old(stored), Next(old(events)))
      ensures added == EditLog(old(stored), Next(old(events)))
      ensures r == if Next(old(events)).delivery.Answered? then stored else None
      ensures r.Some? ==> lastRead == r
    {
      var e;
      e, added := Arrive();
      r := if e.delivery.Answered? then stored else None;
      if r.Some? { lastRead := r; }
    }

    /** A patch is applied by the server as a whole or not at all; the tool learns of it only
        when the answer comes back. */
    method Send(ops: seq<Op>, ghost a: Author) returns (ok: bool, ghost added: seq<Write>)
      modifies this`stored, this`events
      ensures var e := Next(old(events));
        && events == Later(old(events))
        && stored == SentState(old(stored), e, ops)
        && added == SendLog(old(stored), e, ops, a)
        && ok == (Effect(Edited(old(stored), e), e, ops).Some? && e.delivery.Answered?)
        && (stored == Edited(old(stored), e) || Patched(Edited(old(stored), e), ops, stored))
        && (ok ==> Patched(Edited(old(stored), e), ops, stored))
        && (e.delivery.Lost? ==> stored == Edited(old(stored), e))
    {
      var e;
      e, added := Arrive();
      var out := Effect(stored, e, ops);
      ok := out.Some? && e.delivery.Answered?;
      if out.Some? {
        added := added + [Write(a, stored, out)];
        stored := out;
      }
    }

    /** The cleanup that all faults share: read, decide, patch, read again, and accept only a
        restored object.  A failed patch command is not an error by itself: the second read
        decides. */
    method Restore(p: Protocol) returns (r: Option<Json>, ghost added: seq<Write>)
      modifies this
      ensures Chain(old(stored), added, stored) && Story(p, added, 0, 1)
      ensures r.Some? ==> lastRead == r && p.restored(r.value)
      ensures r == Recovered(p, old(stored), old(events))
    {
      var live;
      EditStory(p, stored, Next(events));
      live, added := Read();
      r := None;
      if live.None? { return; }
      var plan := p.plan(live.value);
      if plan.Refuse? { return; }
      if plan.Undo? {
        ghost var first, s1 := added, stored;
        SendStory(p, stored, Next(events), plan.ops, Cleaner);
        var answered;
        answered, added := Send(plan.ops, Cleaner);
        ChainJoin(old(stored), first, s1, added, stored);
        StoryJoin(p, first, added, 0, 0, 0, 1);
        ghost var second, s2 := first + added, stored;
        EditStory(p, stored, Next(events));
        live, added := Read();
        ChainJoin(old(stored), second, s2, added, stored);
        StoryJoin(p, second, added, 0, 0, 1, 0);
        added := second + added;
        if live.None? { return; }
      }
      if p.restored(live.value) { r := live; }
    }

    /** The run: the fault patch is attempted, everything after it may go wrong at any point,
        and cleanup follows on every path.  `observed` says whether the watch for the failing
        pod, its lineage and its log line ends well. */
    method Qualify(p: Protocol, observed: bool) returns (outcome: Outcome, ghost added: seq<Write>)
      modifies this
      ensures Chain(old(stored), added, stored) && Story(p, added, 1, 1)
      ensures outcome.CleanupRaised? || (lastRead.Some? && p.restored(lastRead.value))
      ensures outcome.Returned? ==> lastRead == Some(outcome.doc)
      ensures outcome.Returned? ==> observed && Writes(added, Injector) == 1
      ensures var (start, left) := AtCleanup(p, old(stored), old(events));
        && (outcome.CleanupRaised? <==> !Recoverable(p, start, left))
        && (outcome.Returned? ==> Recovered(p, start, left) == Some(outcome.doc))
      ensures outcome.Returned? <==> EndsWell(p, old(stored), old(events), observed)
    {
      var raised, faultVersion, ok, restored := true, None, false, None;
      SendStory(p, stored, Next(events), p.inject, Injector);
      ok, added := Send(p.inject, Injector);
      if ok {
        ghost var first, s1 := added, stored;
        EditStory(p, stored, Next(events));
        var faulted;
        faulted, added := Read();
        ChainJoin(old(stored), first, s1, added, stored);
        StoryJoin(p, first, added, 1, 0, 0, 0);
        WritesJoin(first, added, Injector);
        added := first + added;
        if faulted.Some? && p.admitted(faulted.value) {
          faultVersion := Get(faulted.value, Deployment.VERSION);
          raised := !observed;
        }
      }
      ghost var before, s2 := added, stored;
      restored, added := Restore(p);
      ChainJoin(old(stored), before, s2, added, stored);
      StoryJoin(p, before, added, 1, 0, 0, 1);
      WritesJoin(before, added, Injector);
      added := before + added;
      if restored.None? { outcome := CleanupRaised; return; }
      if raised { outcome := BodyRaised; return; }
      var version := Get(restored.value, Deployment.VERSION);
      if !Deployment.NonEmptyStr(version) || version == Some(Str(p.version)) || version == faultVersion {
        outcome := BodyRaised;
        return;
      }
      outcome := Returned(restored.value);
    }
  }
}
