/** What acceptance of an OCI layout means: the inspection accepts exactly the layouts whose reachable
    descriptors are all proper and whose blobs are exactly the reachable ones. */
module OciTheorems {
  import opened JsonPatch
  import opened OciGraph
  import opened OciReach
  import opened OciInspect
  import opened Folds

  lemma PartOf(manifest: Json, config: Role, layer: Role, r: Ref)
    ensures r in Parts(manifest, config, layer) <==>
              || r == Ref(config, Field(manifest, "config"))
              || exists i :: 0 <= i < |Layers(manifest)| && r == Ref(layer, Layers(manifest)[i])
  {
    if r in Parts(manifest, config, layer) && r != Ref(config, Field(manifest, "config")) {
      var d :| d in Layers(manifest) && r == Ref(layer, d);
    }
  }

  /** An image is good when it and all its parts are proper. */
  lemma ImageProper(p: Policy, blobs: Blobs, image: Json, d: Json)
    ensures ImageGood(p, blobs, d) <==> forall r <- Family(p, blobs, Ref(Image, d)) :: Proper(p, blobs, image, r)
  {
    var manifest, family := Document(blobs, d), Family(p, blobs, Ref(Image, d));
    if ImageGood(p, blobs, d) {
      forall r | r in family ensures Proper(p, blobs, image, r) {
        PartOf(manifest, ImageConfig, ImageLayer, r);
      }
    }
    if forall r <- family :: Proper(p, blobs, image, r) {
      ImageParts(p, blobs, image, d);
    }
  }

  lemma ImageParts(p: Policy, blobs: Blobs, image: Json, d: Json)
    requires forall r <- Family(p, blobs, Ref(Image, d)) :: Proper(p, blobs, image, r)
    ensures ImageGood(p, blobs, d)
  {
    var layers := Layers(Document(blobs, d));
    assert Proper(p, blobs, image, Ref(Image, d));
    assert Ref(ImageConfig, Config(blobs, d)) in Family(p, blobs, Ref(Image, d));
    forall i | 0 <= i < |layers| ensures Resolves(blobs, layers[i]) {
      assert Ref(ImageLayer, layers[i]) in Family(p, blobs, Ref(Image, d));
    }
  }

  ghost predicate StatementsGood(p: Policy, blobs: Blobs, image: Json, layers: seq<Json>) {
    forall i :: 0 <= i < |layers| ==> StatementGood(p, blobs, image, layers[i])
  }

  lemma PassesMeans(p: Policy, blobs: Blobs, image: Json, d: Json)
    ensures Passes(Attestations(p, blobs, image), d) <==>
              AttestationHead(p, blobs, image, d) && StatementsGood(p, blobs, image, Layers(Document(blobs, d)))
  {
    var layers := Layers(Document(blobs, d));
    AllMeans(Attestations(p, blobs, image).good, layers, |layers|);
  }

  /** An attestation passes when it and all its parts are proper. */
  lemma AttestationProper(p: Policy, blobs: Blobs, image: Json, d: Json)
    ensures AttestationHead(p, blobs, image, d) && StatementsGood(p, blobs, image, Layers(Document(blobs, d))) <==>
              forall r <- Family(p, blobs, Ref(Attestation, d)) :: Proper(p, blobs, image, r)
  {
    if AttestationHead(p, blobs, image, d) && StatementsGood(p, blobs, image, Layers(Document(blobs, d))) {
      forall r | r in Family(p, blobs, Ref(Attestation, d)) ensures Proper(p, blobs, image, r) {
        PartOf(Document(blobs, d), AttestationConfig, AttestationLayer, r);
      }
    }
    if forall r <- Family(p, blobs, Ref(Attestation, d)) :: Proper(p, blobs, image, r) {
      AttestationParts(p, blobs, image, d);
    }
  }

  lemma AttestationParts(p: Policy, blobs: Blobs, image: Json, d: Json)
    requires forall r <- Family(p, blobs, Ref(Attestation, d)) :: Proper(p, blobs, image, r)
    ensures AttestationHead(p, blobs, image, d)
    ensures StatementsGood(p, blobs, image, Layers(Document(blobs, d)))
  {
    var layers := Layers(Document(blobs, d));
    assert Proper(p, blobs, image, Ref(Attestation, d));
    assert Ref(AttestationConfig, Config(blobs, d)) in Family(p, blobs, Ref(Attestation, d));
    forall i | 0 <= i < |layers| ensures StatementGood(p, blobs, image, layers[i]) {
      assert Ref(AttestationLayer, layers[i]) in Family(p, blobs, Ref(Attestation, d));
    }
  }

  /** The names that looking at a manifest gathers are those of it and its parts. */
  lemma ManifestNames(p: Policy, blobs: Blobs, d: Json, r: Ref, config: Role, layer: Role, x: string)
    requires r.descriptor == d && Children(p, blobs, r) == Parts(Document(blobs, d), config, layer)
    ensures x in HeadNames(blobs, d) + LayerNames(Layers(Document(blobs, d))) <==>
              exists c <- Family(p, blobs, r) :: Name(c.descriptor) == x
  {
    var manifest := Document(blobs, d);
    var layers := Layers(manifest);
    if c :| c in Family(p, blobs, r) && Name(c.descriptor) == x {
      PartOf(manifest, config, layer, c);
    }
    if x in HeadNames(blobs, d) + LayerNames(layers) {
      if i :| 0 <= i < |layers| && x == Name(layers[i]) {
        assert Ref(layer, layers[i]) in Family(p, blobs, r);
      } else {
        assert r in Family(p, blobs, r) && Ref(config, Config(blobs, d)) in Family(p, blobs, r);
      }
    }
  }

  lemma AttestationNames(p: Policy, blobs: Blobs, image: Json, d: Json)
    ensures NamesIn(Attestations(p, blobs, image), d) == HeadNames(blobs, d) + LayerNames(Layers(Document(blobs, d)))
  {
    var look, layers := Attestations(p, blobs, image), Layers(Document(blobs, d));
    forall x ensures x in Folds.Image(look.name, layers, |layers|) <==> x in LayerNames(layers) {
      ImageMeans(look.name, layers, |layers|, x);
    }
  }

  lemma BelowMeans(p: Policy, blobs: Blobs, items: seq<Json>, r: Ref)
    ensures r in Below(p, blobs, items) <==> exists k :: 0 <= k < |items| && r in Family(p, blobs, Member(p, items[k]))
  {
    if k :| 0 <= k < |items| && r in Family(p, blobs, Member(p, items[k])) { assert items[k] in items; }
  }

  ghost predicate FamilyProper(p: Policy, blobs: Blobs, image: Json, r: Ref) {
    forall c <- Family(p, blobs, r) :: Proper(p, blobs, image, c)
  }

  lemma OtherProper(p: Policy, blobs: Blobs, image: Json, d: Json)
    ensures Passes(Attestations(p, blobs, image), d) <==> FamilyProper(p, blobs, image, Ref(Attestation, d))
  {
    PassesMeans(p, blobs, image, d);
    AttestationProper(p, blobs, image, d);
  }

  lemma OthersProper(p: Policy, blobs: Blobs, image: Json, items: seq<Json>, at: nat)
    ensures AllPass(Attestations(p, blobs, image), items, at, |items|) <==>
              forall k :: 0 <= k < |items| && k != at ==> FamilyProper(p, blobs, image, Ref(Attestation, items[k]))
  {
    var look := Attestations(p, blobs, image);
    AllPassMeans(look, items, at, |items|);
    forall k | 0 <= k < |items|
      ensures Passes(look, items[k]) <==> FamilyProper(p, blobs, image, Ref(Attestation, items[k]))
    {
      OtherProper(p, blobs, image, items[k]);
    }
  }

  /** Everything below the members is proper when the image is good and the attestations pass. */
  lemma MembersProper(p: Policy, blobs: Blobs, image: Json, items: seq<Json>, at: nat)
    requires OneImage(p, items, at)
    ensures ImageGood(p, blobs, items[at]) && AllPass(Attestations(p, blobs, image), items, at, |items|) <==>
              forall k :: 0 <= k < |items| ==> FamilyProper(p, blobs, image, Member(p, items[k]))
  {
    OthersProper(p, blobs, image, items, at);
    ImageProper(p, blobs, image, items[at]);
    EveryMember(p, blobs, image, items, at);
  }

  lemma EveryMember(p: Policy, blobs: Blobs, image: Json, items: seq<Json>, at: nat)
    requires OneImage(p, items, at)
    ensures (forall k :: 0 <= k < |items| ==> FamilyProper(p, blobs, image, Member(p, items[k]))) <==>
              && FamilyProper(p, blobs, image, Ref(Image, items[at]))
              && forall k :: 0 <= k < |items| && k != at ==> FamilyProper(p, blobs, image, Ref(Attestation, items[k]))
  {
    assert Member(p, items[at]) == Ref(Image, items[at]);
    forall k | 0 <= k < |items| && k != at ensures Member(p, items[k]) == Ref(Attestation, items[k]) {}
  }

  ghost predicate HasName(p: Policy, blobs: Blobs, r: Ref, x: string) {
    exists c <- Family(p, blobs, r) :: Name(c.descriptor) == x
  }

  lemma AttestationHasName(p: Policy, blobs: Blobs, image: Json, d: Json, x: string)
    ensures x in NamesIn(Attestations(p, blobs, image), d) <==> HasName(p, blobs, Ref(Attestation, d), x)
  {
    AttestationNames(p, blobs, image, d);
    ManifestNames(p, blobs, d, Ref(Attestation, d), AttestationConfig, AttestationLayer, x);
  }

  lemma ImageHasName(p: Policy, blobs: Blobs, d: Json, x: string)
    ensures x in ImageNames(blobs, d) <==> HasName(p, blobs, Ref(Image, d), x)
  {
    ManifestNames(p, blobs, d, Ref(Image, d), ImageConfig, ImageLayer, x);
  }

  /** One name among those of the attestations. */
  lemma OthersHaveName(p: Policy, blobs: Blobs, image: Json, items: seq<Json>, at: nat, x: string)
    ensures x in AllNames(Attestations(p, blobs, image), items, at, |items|) <==>
              exists k :: 0 <= k < |items| && k != at && HasName(p, blobs, Ref(Attestation, items[k]), x)
  {
    var look := Attestations(p, blobs, image);
    AllNamesMean(look, items, at, |items|, x);
    forall k | 0 <= k < |items|
      ensures x in NamesIn(look, items[k]) <==> HasName(p, blobs, Ref(Attestation, items[k]), x)
    {
      AttestationHasName(p, blobs, image, items[k], x);
    }
  }

  /** The names below the members are those of the image and of the attestations. */
  lemma MembersNames(p: Policy, blobs: Blobs, items: seq<Json>, at: nat, x: string)
    requires OneImage(p, items, at)
    ensures x in MemberNames(p, blobs, items, at) <==>
              exists k :: 0 <= k < |items| && HasName(p, blobs, Member(p, items[k]), x)
  {
    OthersHaveName(p, blobs, Field(items[at], "digest"), items, at, x);
    ImageHasName(p, blobs, items[at], x);
    MembersHaveName(p, blobs, items, at, x);
  }

  lemma MembersHaveName(p: Policy, blobs: Blobs, items: seq<Json>, at: nat, x: string)
    requires OneImage(p, items, at)
    ensures (exists k :: 0 <= k < |items| && HasName(p, blobs, Member(p, items[k]), x)) <==>
              || HasName(p, blobs, Ref(Image, items[at]), x)
              || exists k :: 0 <= k < |items| && k != at && HasName(p, blobs, Ref(Attestation, items[k]), x)
  {
    assert Member(p, items[at]) == Ref(Image, items[at]);
    forall k | 0 <= k < |items| && k != at ensures Member(p, items[k]) == Ref(Attestation, items[k]) {}
  }

  /** Reached is the wrapping index, or something in the family of a member. */
  lemma ReachedFrom(p: Policy, index: Json, blobs: Blobs, r: Ref)
    ensures var top, items := Items(Field(index, "manifests")), Descriptors(p, index, blobs);
            Reachable(p, index, blobs, r) <==>
              || (IsWrapped(p, top) && r == Ref(Wrapper, top[0]))
              || exists k :: 0 <= k < |items| && r in Family(p, blobs, Member(p, items[k]))
  {
    ReachableIsAll(p, index, blobs, r);
    BelowMeans(p, blobs, Descriptors(p, index, blobs), r);
  }

  lemma WrapperProper(p: Policy, blobs: Blobs, image: Json, d: Json)
    ensures Proper(p, blobs, image, Ref(Wrapper, d)) <==> Readable(blobs, d) && IsIndex(Document(blobs, d))
  {}

  lemma ProperSplits(p: Policy, index: Json, blobs: Blobs, image: Json)
    ensures var items := Descriptors(p, index, blobs);
            ReachableProper(p, index, blobs, image) <==>
              && WrapperGood(p, index, blobs)
              && forall k :: 0 <= k < |items| ==> FamilyProper(p, blobs, image, Member(p, items[k]))
  {
    var top, items := Items(Field(index, "manifests")), Descriptors(p, index, blobs);
    if IsWrapped(p, top) {
      WrapperProper(p, blobs, image, top[0]);
      ReachedFrom(p, index, blobs, Ref(Wrapper, top[0]));
    }
    if ReachableProper(p, index, blobs, image) {
      forall k | 0 <= k < |items| ensures FamilyProper(p, blobs, image, Member(p, items[k])) {
        forall c | c in Family(p, blobs, Member(p, items[k])) ensures Proper(p, blobs, image, c) {
          ReachedFrom(p, index, blobs, c);
        }
      }
    }
    if && WrapperGood(p, index, blobs)
       && forall k :: 0 <= k < |items| ==> FamilyProper(p, blobs, image, Member(p, items[k]))
    {
      forall r | Reachable(p, index, blobs, r) ensures Proper(p, blobs, image, r) {
        ReachedFrom(p, index, blobs, r);
      }
    }
  }

  lemma NameSplits(p: Policy, index: Json, blobs: Blobs, x: string)
    ensures var items := Descriptors(p, index, blobs);
            ReachedName(p, index, blobs, x) <==>
              || x in WrapperNames(p, index)
              || exists k :: 0 <= k < |items| && HasName(p, blobs, Member(p, items[k]), x)
  {
    var top, items := Items(Field(index, "manifests")), Descriptors(p, index, blobs);
    if r :| Reachable(p, index, blobs, r) && Name(r.descriptor) == x { ReachedFrom(p, index, blobs, r); }
    if x in WrapperNames(p, index) { ReachedFrom(p, index, blobs, Ref(Wrapper, top[0])); }
    if k :| 0 <= k < |items| && HasName(p, blobs, Member(p, items[k]), x) {
      var c :| c in Family(p, blobs, Member(p, items[k])) && Name(c.descriptor) == x;
      ReachedFrom(p, index, blobs, c);
    }
  }

  lemma BlobsAreNames(p: Policy, index: Json, blobs: Blobs, at: nat)
    requires OneImage(p, Descriptors(p, index, blobs), at)
    ensures blobs.Keys == WrapperNames(p, index) + MemberNames(p, blobs, Descriptors(p, index, blobs), at) <==>
              Closed(p, index, blobs)
  {
    var names := WrapperNames(p, index) + MemberNames(p, blobs, Descriptors(p, index, blobs), at);
    forall x ensures x in names <==> ReachedName(p, index, blobs, x) {
      NameReached(p, index, blobs, at, x);
    }
    ClosedMeans(p, index, blobs, names);
  }

  lemma ClosedMeans(p: Policy, index: Json, blobs: Blobs, names: set<string>)
    requires forall x :: x in names <==> ReachedName(p, index, blobs, x)
    ensures blobs.Keys == names <==> Closed(p, index, blobs)
  {}

  lemma NameReached(p: Policy, index: Json, blobs: Blobs, at: nat, x: string)
    requires OneImage(p, Descriptors(p, index, blobs), at)
    ensures x in WrapperNames(p, index) || x in MemberNames(p, blobs, Descriptors(p, index, blobs), at) <==>
              ReachedName(p, index, blobs, x)
  {
    NameSplits(p, index, blobs, x);
    MembersNames(p, blobs, Descriptors(p, index, blobs), at, x);
  }

  lemma ProperMeans(p: Policy, index: Json, blobs: Blobs, at: nat)
    requires OneImage(p, Descriptors(p, index, blobs), at)
    ensures var items := Descriptors(p, index, blobs); var image := Field(items[at], "digest");
            ReachableProper(p, index, blobs, image) <==>
              && WrapperGood(p, index, blobs) && ImageGood(p, blobs, items[at])
              && AllPass(Attestations(p, blobs, image), items, at, |items|)
  {
    var items := Descriptors(p, index, blobs);
    ProperSplits(p, index, blobs, Field(items[at], "digest"));
    MembersProper(p, blobs, Field(items[at], "digest"), items, at);
  }

  /** The inspection accepts exactly the admissible layouts. */
  lemma InspectedIffAdmissible(p: Policy, index: Json, blobs: Blobs, at: nat)
    ensures Inspected(p, index, blobs, at) <==> Admissible(p, index, blobs, at)
  {
    var items := Descriptors(p, index, blobs);
    if OneImage(p, items, at) {
      ProperMeans(p, index, blobs, at);
      NoRepeatsMeans(Carried(p, blobs, items, at));
      BlobsAreNames(p, index, blobs, at);
    }
  }

  /** The layers of all manifests among the first `n` but the image. */
  ghost function LayerCount(blobs: Blobs, items: seq<Json>, at: nat, n: nat): nat
    requires n <= |items|
  {
    if n == 0 then 0
    else LayerCount(blobs, items, at, n - 1) + if n - 1 == at then 0 else |Layers(Document(blobs, items[n - 1]))|
  }

  lemma {:induction false} MapCount<D, K>(kind: D -> K, items: seq<D>, n: nat)
    requires n <= |items|
    ensures |Map(kind, items, n)| == n
  {
    if n > 0 { MapCount(kind, items, n - 1); }
  }

  lemma {:induction false} KindsCount(p: Policy, blobs: Blobs, image: Json, items: seq<Json>, at: nat, n: nat)
    requires n <= |items|
    ensures |AllKinds(Attestations(p, blobs, image), items, at, n)| == LayerCount(blobs, items, at, n)
    decreases n
  {
    if n > 0 {
      KindsCount(p, blobs, image, items, at, n - 1);
      var look := Attestations(p, blobs, image);
      MapCount(look.kind, look.parts(items[n - 1]), |look.parts(items[n - 1])|);
    }
  }

  /** In an accepted layout each blob is reached by a descriptor that gives its size, and the
      attestation manifests have exactly as many layers together as there are predicate types. */
  lemma AdmissibleGuarantees(p: Policy, index: Json, blobs: Blobs, at: nat, name: string)
    requires Admissible(p, index, blobs, at)
    ensures var items := Descriptors(p, index, blobs); LayerCount(blobs, items, at, |items|) == |p.predicates|
    ensures name in blobs ==> exists r ::
              && Reachable(p, index, blobs, r) && Name(r.descriptor) == name
              && Field(r.descriptor, "size") == Num(blobs[name].size)
  {
    var items := Descriptors(p, index, blobs);
    var carried := Carried(p, blobs, items, at);
    KindsCount(p, blobs, Field(items[at], "digest"), items, at, |items|);
    NoRepeatsMeans(carried);
    DistinctCount(p.predicates, carried);
  }

  method InspectGraph(p: Policy, index: Json, blobs: Blobs) returns (ok: bool)
    ensures ok <==> exists at: nat :: Admissible(p, index, blobs, at)
  {
    var at;
    ok, at := Inspect(p, index, blobs);
    if ok {
      InspectedIffAdmissible(p, index, blobs, at);
    } else {
      forall i: nat ensures !Admissible(p, index, blobs, i) { InspectedIffAdmissible(p, index, blobs, i); }
    }
  }
}
