/** What can be reached in an OCI layout from index.json: two steps of descriptors, or three when
    the index wraps another one. */
module OciReach {
  import opened JsonPatch
  import opened OciGraph

  /** The descriptors of the index, or of the one index that it wraps. */
  function Descriptors(p: Policy, index: Json, blobs: Blobs): seq<Json> {
    var items := Items(Field(index, "manifests"));
    if IsWrapped(p, items) then Items(Field(Document(blobs, items[0]), "manifests")) else items
  }

  ghost function Family(p: Policy, blobs: Blobs, r: Ref): set<Ref> { {r} + Children(p, blobs, r) }

  /** The descriptors `items` and what they lead to. */
  ghost function Below(p: Policy, blobs: Blobs, items: seq<Json>): set<Ref> {
    set d, r | d in items && r in Family(p, blobs, Member(p, d)) :: r
  }

  ghost function All(p: Policy, index: Json, blobs: Blobs): set<Ref> {
    (if IsWrapped(p, Items(Field(index, "manifests"))) then Roots(p, index) else {})
    + Below(p, blobs, Descriptors(p, index, blobs))
  }

  ghost predicate OneImage(p: Policy, items: seq<Json>, at: nat) {
    at < |items| && IsImage(p, items[at]) && forall i :: 0 <= i < |items| && i != at ==> !IsImage(p, items[i])
  }

  /** A walk stays in a set that holds the roots and is closed. */
  lemma {:induction false} WalkStays(p: Policy, index: Json, blobs: Blobs, s: set<Ref>, walk: seq<Ref>)
    requires IsWalk(p, index, blobs, walk) && Roots(p, index) <= s
    requires forall r <- s :: Children(p, blobs, r) <= s
    ensures walk[|walk| - 1] in s
    decreases |walk|
  {
    var n := |walk| - 1;
    if n > 0 {
      var front := walk[..n];
      WalkStays(p, index, blobs, s, front);
      assert front[|front| - 1] == walk[n - 1];
    }
  }

  lemma WalkOn(p: Policy, index: Json, blobs: Blobs, r: Ref, c: Ref)
    requires Reachable(p, index, blobs, r) && c in Children(p, blobs, r)
    ensures Reachable(p, index, blobs, c)
  {
    var walk :| IsWalk(p, index, blobs, walk) && walk[|walk| - 1] == r;
    var longer := walk + [c];
    forall i | 0 < i < |longer| ensures longer[i] in Children(p, blobs, longer[i - 1]) {
      assert longer[i - 1] == walk[i - 1];
      if i < |walk| { assert longer[i] == walk[i]; }
    }
    assert longer[|longer| - 1] == c;
  }

  lemma RootReachable(p: Policy, index: Json, blobs: Blobs, r: Ref)
    requires r in Roots(p, index)
    ensures Reachable(p, index, blobs, r)
  {
    var walk := [r];
    assert IsWalk(p, index, blobs, walk);
  }

  lemma MemberReachable(p: Policy, index: Json, blobs: Blobs, d: Json)
    requires d in Descriptors(p, index, blobs)
    ensures Reachable(p, index, blobs, Member(p, d))
  {
    var items := Items(Field(index, "manifests"));
    if IsWrapped(p, items) {
      RootReachable(p, index, blobs, Ref(Wrapper, items[0]));
      WalkOn(p, index, blobs, Ref(Wrapper, items[0]), Member(p, d));
    } else {
      RootReachable(p, index, blobs, Member(p, d));
    }
  }

  lemma FamilyClosed(p: Policy, blobs: Blobs, r: Ref, c: Ref)
    requires r.role == Image || r.role == Attestation
    requires c in Family(p, blobs, r)
    ensures Children(p, blobs, c) <= Family(p, blobs, r)
  {}

  lemma BelowHolds(p: Policy, blobs: Blobs, items: seq<Json>)
    ensures Members(p, items) <= Below(p, blobs, items)
    ensures forall r <- Below(p, blobs, items) :: Children(p, blobs, r) <= Below(p, blobs, items)
  {
    forall r | r in Members(p, items) ensures r in Below(p, blobs, items) {
      var d :| d in items && r == Member(p, d);
      assert r in Family(p, blobs, Member(p, d));
    }
    forall r | r in Below(p, blobs, items) ensures Children(p, blobs, r) <= Below(p, blobs, items) {
      var d :| d in items && r in Family(p, blobs, Member(p, d));
      FamilyClosed(p, blobs, Member(p, d), r);
    }
  }

  lemma AllClosed(p: Policy, index: Json, blobs: Blobs)
    ensures Roots(p, index) <= All(p, index, blobs)
    ensures forall r <- All(p, index, blobs) :: Children(p, blobs, r) <= All(p, index, blobs)
  {
    BelowHolds(p, blobs, Descriptors(p, index, blobs));
  }

  /** Two steps below the index, or three below a wrapper, there is nothing left to follow. */
  lemma ReachableIsAll(p: Policy, index: Json, blobs: Blobs, r: Ref)
    ensures Reachable(p, index, blobs, r) <==> r in All(p, index, blobs)
  {
    AllClosed(p, index, blobs);
    if Reachable(p, index, blobs, r) {
      var walk :| IsWalk(p, index, blobs, walk) && walk[|walk| - 1] == r;
      WalkStays(p, index, blobs, All(p, index, blobs), walk);
    }
    if r in All(p, index, blobs) {
      if r in Below(p, blobs, Descriptors(p, index, blobs)) {
        var d :| d in Descriptors(p, index, blobs) && r in Family(p, blobs, Member(p, d));
        MemberReachable(p, index, blobs, d);
        if r != Member(p, d) { WalkOn(p, index, blobs, Member(p, d), r); }
      } else {
        RootReachable(p, index, blobs, r);
      }
    }
  }

  /** Every descriptor that can be reached is proper for its role. */
  ghost predicate ReachableProper(p: Policy, index: Json, blobs: Blobs, image: Json) {
    forall r :: Reachable(p, index, blobs, r) ==> Proper(p, blobs, image, r)
  }

  ghost predicate ReachedName(p: Policy, index: Json, blobs: Blobs, name: string) {
    exists r :: Reachable(p, index, blobs, r) && Name(r.descriptor) == name
  }

  /** The blobs are exactly those that can be reached. */
  ghost predicate Closed(p: Policy, index: Json, blobs: Blobs) {
    forall name :: name in blobs <==> ReachedName(p, index, blobs, name)
  }
}
