/** The lock that serialises whole qualification runs on one Helm release
    (scripts/qualify-kubernetes-deployment.py): a ConfigMap that the run creates first, whose identity
    it checks again at the end, and that it deletes last. Any number of runs take steps in any order,
    any request may fail with or without having had its effect, and a run may die at any point. */
module RunLock {
  import opened Text

  /** Where a run stands. From `Created` to `Deleting` it knows the uid of its own ConfigMap. */
  datatype Phase =
    | Waiting
    | Created(uid: nat)
    | Discarding(uid: nat)
    | Working(uid: nat)
    | Finishing(uid: nat)
    | Owner(uid: nat)
    | Deleting(uid: nat)
    | Stopped

  /** The run is between its create and its delete. */
  predicate Inside(p: Phase) { !p.Waiting? && !p.Stopped? }

  /** The ConfigMap: the uid the cluster gave it, the run id in it, and the run that created it. */
  datatype Lock = Lock(uid: nat, runId: string, creator: nat)

  datatype Event = Locked(run: nat) | Unlocked | Helm(run: nat)

  datatype Cluster = Cluster(lock: Option<Lock>, nextUid: nat, phases: map<nat, Phase>, log: seq<Event>)
  {
    function PhaseOf(r: nat): Phase { if r in phases then phases[r] else Waiting }

    function Move(r: nat, p: Phase): Cluster { this.(phases := phases[r := p]) }

    function Note(e: Event): Cluster { this.(log := log + [e]) }
  }

  datatype Step =
    | Create(run: nat, runId: string, replied: bool)
    | Malformed(run: nat)
    | Begin(run: nat)
    | InstallOrUpgrade(run: nat)
    | Leave(run: nat)
    | Check(run: nat, runId: string, replied: bool)
    | Uninstall(run: nat)
    | Release(run: nat)
    | Delete(run: nat, done: bool)
    | Die(run: nat)
    | Outside

  /** The cluster accepts a create only when there is no ConfigMap of that name. */
  function TryCreate(c: Cluster, r: nat, runId: string, replied: bool): Cluster {
    if c.lock.Some? then c.Move(r, Stopped)
    else
      var made := c.(lock := Some(Lock(c.nextUid, runId, r)), nextUid := c.nextUid + 1).Note(Locked(r));
      made.Move(r, if replied then Created(c.nextUid) else Stopped)
  }

  /** A delete names the ConfigMap, not its uid. */
  function DeleteByName(c: Cluster): Cluster {
    if c.lock.Some? then c.(lock := None).Note(Unlocked) else c
  }

  /** One step; a step that the run's phase does not allow does nothing. */
  function Do(c: Cluster, s: Step): Cluster {
    match s
    case Create(r, runId, replied) => if c.PhaseOf(r).Waiting? then TryCreate(c, r, runId, replied) else c
    case Malformed(r) => if c.PhaseOf(r).Created? then c.Move(r, Discarding(c.PhaseOf(r).uid)) else c
    case Begin(r) => if c.PhaseOf(r).Created? then c.Move(r, Working(c.PhaseOf(r).uid)) else c
    case InstallOrUpgrade(r) => if c.PhaseOf(r).Working? then c.Note(Helm(r)) else c
    case Leave(r) => if c.PhaseOf(r).Working? then c.Move(r, Finishing(c.PhaseOf(r).uid)) else c
    case Check(r, runId, replied) =>
      if !c.PhaseOf(r).Finishing? then c
      else if replied && c.lock.Some? && c.lock.value.uid == c.PhaseOf(r).uid && c.lock.value.runId == runId
      then c.Move(r, Owner(c.PhaseOf(r).uid)) else c.Move(r, Stopped)
    case Uninstall(r) => if c.PhaseOf(r).Owner? then c.Note(Helm(r)) else c
    case Release(r) => if c.PhaseOf(r).Owner? then c.Move(r, Deleting(c.PhaseOf(r).uid)) else c
    case Delete(r, done) =>
      if c.PhaseOf(r).Deleting? || c.PhaseOf(r).Discarding?
      then (if done then DeleteByName(c) else c).Move(r, Stopped) else c
    case Die(r) => c.Move(r, Stopped)
    case Outside => DeleteByName(c)
  }

  function Run(steps: seq<Step>): Cluster {
    if steps == [] then Cluster(None, 0, map[], []) else Do(Run(steps[..|steps| - 1]), steps[|steps| - 1])
  }

  /** Nobody but the runs deletes the ConfigMap. */
  ghost predicate NoOutside(steps: seq<Step>) { forall s <- steps :: !s.Outside? }

  /** Whoever is inside holds the ConfigMap that is there. */
  ghost predicate Holding(c: Cluster) {
    forall r: nat :: Inside(c.PhaseOf(r)) ==>
      c.lock.Some? && c.lock.value.creator == r && c.lock.value.uid == c.PhaseOf(r).uid
  }

  /** The last time the lock was taken or freed. */
  function LastLock(log: seq<Event>): Option<nat> {
    if log == [] then None
    else match log[|log| - 1]
      case Locked(r) => Some(r)
      case Unlocked => None
      case Helm(_) => LastLock(log[..|log| - 1])
  }

  /** The log tells who has the lock, and every Helm command in it was given by that run. */
  ghost predicate Told(c: Cluster) {
    && LastLock(c.log) == (if c.lock.Some? then Some(c.lock.value.creator) else None)
    && forall i :: 0 <= i < |c.log| && c.log[i].Helm? ==> LastLock(c.log[..i]) == Some(c.log[i].run)
  }

  lemma NoteTold(c: Cluster, e: Event)
    requires forall i :: 0 <= i < |c.log| && c.log[i].Helm? ==> LastLock(c.log[..i]) == Some(c.log[i].run)
    requires e.Helm? ==> LastLock(c.log) == Some(e.run)
    ensures var log := c.Note(e).log;
            && (forall i :: 0 <= i < |log| && log[i].Helm? ==> LastLock(log[..i]) == Some(log[i].run))
            && LastLock(log) ==
               (match e case Locked(r) => Some(r) case Unlocked => None case Helm(_) => LastLock(c.log))
  {
    var log := c.Note(e).log;
    assert log[..|c.log|] == c.log;
    forall i | 0 <= i < |log| && log[i].Helm? ensures LastLock(log[..i]) == Some(log[i].run) {
      if i < |c.log| { assert log[..i] == c.log[..i]; }
    }
  }

  /** A run that moves on under its uid, or stops, changes nothing for the others. */
  lemma MoveKeeps(c: Cluster, r: nat, p: Phase)
    requires Holding(c) && Told(c)
    requires Inside(p) ==> Inside(c.PhaseOf(r)) && p.uid == c.PhaseOf(r).uid
    ensures Holding(c.Move(r, p)) && Told(c.Move(r, p))
  {
    forall q: nat | Inside(c.Move(r, p).PhaseOf(q))
      ensures Inside(c.PhaseOf(q)) && c.Move(r, p).PhaseOf(q).uid == c.PhaseOf(q).uid
    {}
  }

  lemma HelmKeeps(c: Cluster, r: nat)
    requires Holding(c) && Told(c) && Inside(c.PhaseOf(r))
    ensures Holding(c.Note(Helm(r))) && Told(c.Note(Helm(r)))
  {
    NoteTold(c, Helm(r));
    assert forall q: nat :: c.Note(Helm(r)).PhaseOf(q) == c.PhaseOf(q);
  }

  lemma CreateKeeps(c: Cluster, r: nat, runId: string, replied: bool)
    requires Holding(c) && Told(c) && c.PhaseOf(r).Waiting?
    ensures Holding(TryCreate(c, r, runId, replied)) && Told(TryCreate(c, r, runId, replied))
  {
    if c.lock.Some? {
      MoveKeeps(c, r, Stopped);
    } else {
      NoteTold(c, Locked(r));
      var after := TryCreate(c, r, runId, replied);
      forall q: nat | Inside(after.PhaseOf(q)) ensures q == r && after.PhaseOf(q).uid == c.nextUid {
        assert q != r ==> after.PhaseOf(q) == c.PhaseOf(q);
      }
    }
  }

  /** Only the run that holds the ConfigMap gets to delete it. */
  lemma DeleteKeeps(c: Cluster, r: nat)
    requires Holding(c) && Told(c) && Inside(c.PhaseOf(r))
    ensures Holding(DeleteByName(c).Move(r, Stopped)) && Told(DeleteByName(c).Move(r, Stopped))
  {
    NoteTold(c, Unlocked);
    var after := DeleteByName(c).Move(r, Stopped);
    forall q: nat ensures !Inside(after.PhaseOf(q)) {
      assert q != r ==> after.PhaseOf(q) == c.PhaseOf(q);
      assert Inside(c.PhaseOf(q)) ==> q == r;
    }
  }

  lemma StepKeeps(c: Cluster, s: Step)
    requires Holding(c) && Told(c) && !s.Outside?
    ensures Holding(Do(c, s)) && Told(Do(c, s))
  {
    match s
    case Create(r, runId, replied) => if c.PhaseOf(r).Waiting? { CreateKeeps(c, r, runId, replied); }
    case Malformed(r) => if c.PhaseOf(r).Created? { MoveKeeps(c, r, Discarding(c.PhaseOf(r).uid)); }
    case Begin(r) => if c.PhaseOf(r).Created? { MoveKeeps(c, r, Working(c.PhaseOf(r).uid)); }
    case InstallOrUpgrade(r) => if c.PhaseOf(r).Working? { HelmKeeps(c, r); }
    case Leave(r) => if c.PhaseOf(r).Working? { MoveKeeps(c, r, Finishing(c.PhaseOf(r).uid)); }
    case Check(r, runId, replied) =>
      if c.PhaseOf(r).Finishing? {
        MoveKeeps(c, r, Owner(c.PhaseOf(r).uid));
        MoveKeeps(c, r, Stopped);
      }
    case Uninstall(r) => if c.PhaseOf(r).Owner? { HelmKeeps(c, r); }
    case Release(r) => if c.PhaseOf(r).Owner? { MoveKeeps(c, r, Deleting(c.PhaseOf(r).uid)); }
    case Delete(r, done) =>
      if c.PhaseOf(r).Deleting? || c.PhaseOf(r).Discarding? {
        DeleteKeeps(c, r);
        MoveKeeps(c, r, Stopped);
      }
    case Die(r) => MoveKeeps(c, r, Stopped);
  }

  lemma {:induction false} RunKeeps(steps: seq<Step>)
    requires NoOutside(steps)
    ensures Holding(Run(steps)) && Told(Run(steps))
  {
    if steps != [] {
      var n := |steps| - 1;
      assert forall s <- steps[..n] :: s in steps;
      RunKeeps(steps[..n]);
      StepKeeps(Run(steps[..n]), steps[n]);
    }
  }

  /** At every moment of every interleaving at most one run is between its create and its delete. */
  lemma MutualExclusion(steps: seq<Step>, r: nat, q: nat)
    requires NoOutside(steps) && Inside(Run(steps).PhaseOf(r)) && Inside(Run(steps).PhaseOf(q))
    ensures r == q
  {
    RunKeeps(steps);
  }

  /** Every Helm command was given by the run that had last taken the lock, before it was freed. */
  lemma HelmInsideLock(steps: seq<Step>, i: nat)
    requires NoOutside(steps) && i < |Run(steps).log| && Run(steps).log[i].Helm?
    ensures LastLock(Run(steps).log[..i]) == Some(Run(steps).log[i].run)
  {
    RunKeeps(steps);
  }

  /** When somebody else deletes the ConfigMap, two runs can be inside at once. */
  lemma OutsideBreaksExclusion() returns (steps: seq<Step>)
    ensures Inside(Run(steps).PhaseOf(0)) && Inside(Run(steps).PhaseOf(1))
  {
    var first := [Create(0, "a", true)];
    var second := first + [Outside];
    steps := second + [Create(1, "b", true)];
    assert first[..0] == [] && second[..1] == first && steps[..2] == second;
    assert Run(first).lock.Some? && Run(second).lock.None?;
    assert Run(second).PhaseOf(0) == Created(0);
  }

  // With outside deletions ------------------------------------------------------------------------

  /** Uids are given out once: what a run knows, and what is there, came from its own create. */
  ghost predicate Fresh(c: Cluster) {
    && (c.lock.Some? ==> c.lock.value.uid < c.nextUid)
    && (forall r: nat :: Inside(c.PhaseOf(r)) ==> c.PhaseOf(r).uid < c.nextUid)
    && (forall r: nat :: c.lock.Some? && Inside(c.PhaseOf(r)) && c.PhaseOf(r).uid == c.lock.value.uid ==>
          c.lock.value.creator == r)
  }

  lemma StepFresh(c: Cluster, s: Step)
    requires Fresh(c)
    ensures Fresh(Do(c, s))
  {
    var after := Do(c, s);
    forall r: nat | Inside(after.PhaseOf(r))
      ensures || (Inside(c.PhaseOf(r)) && after.PhaseOf(r).uid == c.PhaseOf(r).uid)
              || (&& after.lock.Some? && after.lock.value.creator == r
                  && after.PhaseOf(r).uid == c.nextUid < after.nextUid)
    {}
  }

  lemma {:induction false} RunFresh(steps: seq<Step>)
    ensures Fresh(Run(steps))
  {
    if steps != [] {
      RunFresh(steps[..|steps| - 1]);
      StepFresh(Run(steps[..|steps| - 1]), steps[|steps| - 1]);
    }
  }

  /** Whatever others delete and create in between: a run passes the check before its last commands only
      if the ConfigMap that it created is still there, with its run id in it. */
  lemma OwnerHolds(steps: seq<Step>, r: nat, runId: string, replied: bool)
    requires Run(steps).PhaseOf(r).Finishing?
    requires Do(Run(steps), Check(r, runId, replied)).PhaseOf(r).Owner?
    ensures var lock := Run(steps).lock;
      && lock.Some? && lock.value.creator == r && lock.value.runId == runId
      && lock.value.uid == Run(steps).PhaseOf(r).uid
  {
    RunFresh(steps);
  }

  /** A create while the ConfigMap is there does not get in and leaves it alone. */
  lemma CreateIsExclusive(c: Cluster, r: nat, runId: string, replied: bool)
    requires c.PhaseOf(r).Waiting?
    ensures var after := Do(c, Create(r, runId, replied));
      if c.lock.Some? then after.lock == c.lock && after.log == c.log && !Inside(after.PhaseOf(r))
      else
        && after.lock.Some? && after.lock.value.creator == r && after.lock.value.runId == runId
        && (Inside(after.PhaseOf(r)) <==> replied)
  {}

  /** The steps of a run that goes well, up to its last commands and after them. */
  function Enter(c: Cluster, r: nat, runId: string): Cluster {
    Do(Do(Do(Do(c, Create(r, runId, true)), Begin(r)), InstallOrUpgrade(r)), Leave(r))
  }

  function Exit(c: Cluster, r: nat, runId: string): Cluster {
    Do(Do(Do(Do(c, Check(r, runId, true)), Uninstall(r)), Release(r)), Delete(r, true))
  }

  /** A run that goes well takes the free lock, gives its commands under it, and leaves it free for the
      next one. */
  lemma WholeRunFrees(c: Cluster, r: nat, runId: string)
    requires c.lock.None? && c.PhaseOf(r).Waiting?
    ensures var during := Enter(c, r, runId);
      && during.lock == Some(Lock(c.nextUid, runId, r)) && during.log == c.log + [Locked(r), Helm(r)]
      && var after := Exit(during, r, runId);
      after.lock.None? && after.PhaseOf(r).Stopped? && after.log == during.log + [Helm(r), Unlocked]
  {
    var during := Enter(c, r, runId);
    assert during.PhaseOf(r) == Finishing(c.nextUid) && during.lock == Some(Lock(c.nextUid, runId, r));
  }

  /** A run that finds its new ConfigMap malformed deletes it again. A delete that does not arrive, or finds
      nothing, changes nothing but the run. */
  lemma DiscardFrees(c: Cluster, r: nat)
    requires c.PhaseOf(r).Created?
    ensures var after := Do(Do(c, Malformed(r)), Delete(r, true)); after.lock.None? && after.PhaseOf(r).Stopped?
    ensures var after := Do(Do(c, Malformed(r)), Delete(r, false));
      after.lock == c.lock && after.log == c.log && after.PhaseOf(r).Stopped?
    ensures c.lock.None? ==> Do(Do(c, Malformed(r)), Delete(r, true)).log == c.log
  {}
}
