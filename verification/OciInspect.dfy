/** The inspection of an OCI layout's descriptor graph (scripts/oci-archive.py), which keeps the set
    of blobs it has followed a descriptor to and compares it with the blobs of the archive. */
module OciInspect {
  import opened JsonPatch
  import opened OciGraph
  import opened OciReach
  import opened Folds

  function Layers(manifest: Json): seq<Json> { Items(Field(manifest, "layers")) }

  function Config(blobs: Blobs, d: Json): Json { Field(Document(blobs, d), "config") }

  /** A descriptor leads to a JSON object. */
  predicate Readable(blobs: Blobs, d: Json) { Resolves(blobs, d) && Document(blobs, d).Obj? }

  /** An image manifest, and its configuration. */
  predicate ImageHead(p: Policy, blobs: Blobs, d: Json) {
    && Readable(blobs, d) && IsManifest(Document(blobs, d))
    && Readable(blobs, Config(blobs, d)) && p.runtime(Document(blobs, Config(blobs, d)))
  }

  /** An attestation manifest of the image, and its configuration. */
  predicate AttestationHead(p: Policy, blobs: Blobs, image: Json, d: Json) {
    && IsBound(p, d, image) && Readable(blobs, d) && IsManifest(Document(blobs, d))
    && Resolves(blobs, Config(blobs, d)) && Layers(Document(blobs, d)) != []
  }

  predicate StatementGood(p: Policy, blobs: Blobs, image: Json, d: Json) {
    Readable(blobs, d) && IsStatement(p, d, Document(blobs, d), image)
  }

  function HeadNames(blobs: Blobs, d: Json): set<string> { {Name(d), Name(Config(blobs, d))} }

  /** How attestations are looked at: the manifest with its configuration, then the layers. */
  function Attestations(p: Policy, blobs: Blobs, image: Json): Look<Json, string, string> {
    Look(d => AttestationHead(p, blobs, image, d), d => HeadNames(blobs, d), d => Layers(Document(blobs, d)),
         d => StatementGood(p, blobs, image, d), d => Name(d), d => KindOf(p, d))
  }

  /** The predicate types that the layers of the attestations carry, in order. */
  ghost function Carried(p: Policy, blobs: Blobs, items: seq<Json>, at: nat): seq<string>
    requires at < |items|
  {
    AllKinds(Attestations(p, blobs, Field(items[at], "digest")), items, at, |items|)
  }

  /** What an accepted layout is: one image; every descriptor that can be reached is proper for its
      role and bound to that image; every demanded predicate type is carried by exactly one
      attestation layer; and the blobs are exactly those that can be reached. */
  ghost predicate Admissible(p: Policy, index: Json, blobs: Blobs, at: nat) {
    var items := Descriptors(p, index, blobs);
    && IsIndex(index) && OneImage(p, items, at)
    && ReachableProper(p, index, blobs, Field(items[at], "digest"))
    && Distinct(Carried(p, blobs, items, at)) && SameElements(p.predicates, Carried(p, blobs, items, at))
    && Closed(p, index, blobs)
  }

  predicate LayersResolve(blobs: Blobs, layers: seq<Json>) {
    forall i :: 0 <= i < |layers| ==> Resolves(blobs, layers[i])
  }

  ghost function LayerNames(layers: seq<Json>): set<string> { set i | 0 <= i < |layers| :: Name(layers[i]) }

  /** The positions of the images in an index. */
  method FindImages(p: Policy, items: seq<Json>) returns (found: seq<nat>)
    ensures |found| == 1 ==> OneImage(p, items, found[0])
    ensures forall at: nat :: OneImage(p, items, at) ==> found == [at]
  {
    found := [];
    for i := 0 to |items|
      invariant forall a :: 0 <= a < |found| ==> found[a] < i && IsImage(p, items[found[a]])
      invariant forall k :: 0 <= k < i && IsImage(p, items[k]) ==> k in found
      invariant forall a, b :: 0 <= a < b < |found| ==> found[a] < found[b]
    {
      if IsImage(p, items[i]) { found := found + [i]; }
    }
    assert |found| > 1 ==> found[0] < found[1];
    forall at: nat | OneImage(p, items, at) ensures found == [at] {
      assert at in found;
      assert forall a :: 0 <= a < |found| ==> found[a] == at;
    }
  }

  /** The layers of an image. */
  method InspectLayers(blobs: Blobs, layers: seq<Json>, before: set<string>) returns (ok: bool, referenced: set<string>)
    ensures ok == LayersResolve(blobs, layers)
    ensures ok ==> referenced == before + LayerNames(layers)
  {
    referenced := before;
    for i := 0 to |layers|
      invariant forall k :: 0 <= k < i ==> Resolves(blobs, layers[k])
      invariant referenced == before + set k | 0 <= k < i :: Name(layers[k])
    {
      if !Resolves(blobs, layers[i]) { return false, referenced; }
      referenced := referenced + {Name(layers[i])};
    }
    ok := true;
  }

  /** The wrapping index, when there is one, is readable. */
  predicate WrapperGood(p: Policy, index: Json, blobs: Blobs) {
    var items := Items(Field(index, "manifests"));
    IsWrapped(p, items) ==> Readable(blobs, items[0]) && IsIndex(Document(blobs, items[0]))
  }

  ghost function WrapperNames(p: Policy, index: Json): set<string> {
    var items := Items(Field(index, "manifests"));
    if IsWrapped(p, items) then {Name(items[0])} else {}
  }

  ghost predicate ImageGood(p: Policy, blobs: Blobs, d: Json) {
    ImageHead(p, blobs, d) && LayersResolve(blobs, Layers(Document(blobs, d)))
  }

  ghost function ImageNames(blobs: Blobs, d: Json): set<string> {
    HeadNames(blobs, d) + LayerNames(Layers(Document(blobs, d)))
  }

  /** The descriptors are one image and attestations of it, which carry what is demanded. */
  ghost predicate MembersGood(p: Policy, blobs: Blobs, items: seq<Json>, at: nat) {
    && OneImage(p, items, at) && ImageGood(p, blobs, items[at])
    && AttestationsGood(p, items, at, Attestations(p, blobs, Field(items[at], "digest")))
  }

  ghost predicate AttestationsGood(p: Policy, items: seq<Json>, at: nat, look: Look<Json, string, string>) {
    && AllPass(look, items, at, |items|) && NoRepeats(AllKinds(look, items, at, |items|))
    && SameElements(p.predicates, AllKinds(look, items, at, |items|))
  }

  ghost function MemberNames(p: Policy, blobs: Blobs, items: seq<Json>, at: nat): set<string>
    requires at < |items|
  {
    ImageNames(blobs, items[at]) + AllNames(Attestations(p, blobs, Field(items[at], "digest")), items, at, |items|)
  }

  method InspectImage(p: Policy, blobs: Blobs, d: Json, before: set<string>) returns (ok: bool, referenced: set<string>)
    ensures ok == ImageGood(p, blobs, d)
    ensures ok ==> referenced == before + ImageNames(blobs, d)
  {
    ok, referenced := ImageHead(p, blobs, d), before;
    if ok {
      ok, referenced := InspectLayers(blobs, Layers(Document(blobs, d)), referenced + HeadNames(blobs, d));
    }
  }

  method InspectAttestations(p: Policy, items: seq<Json>, at: nat, look: Look<Json, string, string>,
                             before: set<string>)
    returns (ok: bool, referenced: set<string>)
    ensures ok == AttestationsGood(p, items, at, look)
    ensures ok ==> referenced == before + AllNames(look, items, at, |items|)
  {
    var seen;
    ok, referenced, seen := GatherAll(look, items, at, before);
    ok := ok && seen == p.predicates;
  }

  /** The members of the index: first the image, then the attestations. */
  method InspectMembers(p: Policy, blobs: Blobs, items: seq<Json>, before: set<string>)
    returns (ok: bool, at: nat, referenced: set<string>)
    ensures ok ==> MembersGood(p, blobs, items, at) && referenced == before + MemberNames(p, blobs, items, at)
    ensures !ok ==> forall i: nat :: !MembersGood(p, blobs, items, i)
  {
    ok, at, referenced := false, 0, before;
    var found := FindImages(p, items);
    if |found| != 1 { return; }
    at := found[0];
    ok, referenced := InspectImage(p, blobs, items[at], referenced);
    if ok {
      var look := Attestations(p, blobs, Field(items[at], "digest"));
      ok, referenced := InspectAttestations(p, items, at, look, referenced);
    }
  }

  /** What the inspection establishes, in the order in which it looks. */
  ghost predicate Inspected(p: Policy, index: Json, blobs: Blobs, at: nat) {
    var items := Descriptors(p, index, blobs);
    && IsIndex(index) && WrapperGood(p, index, blobs) && MembersGood(p, blobs, items, at)
    && blobs.Keys == WrapperNames(p, index) + MemberNames(p, blobs, items, at)
  }

  method Inspect(p: Policy, index: Json, blobs: Blobs) returns (ok: bool, at: nat)
    ensures ok ==> Inspected(p, index, blobs, at)
    ensures !ok ==> forall i: nat :: !Inspected(p, index, blobs, i)
  {
    ok, at := false, 0;
    if !IsIndex(index) || !WrapperGood(p, index, blobs) { return; }
    var top, referenced := Items(Field(index, "manifests")), {};
    if IsWrapped(p, top) { referenced := {Name(top[0])}; }
    ok, at, referenced := InspectMembers(p, blobs, Descriptors(p, index, blobs), referenced);
    ok := ok && blobs.Keys == referenced;
  }
}
