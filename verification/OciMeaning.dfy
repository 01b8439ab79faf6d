/** What an accepted OCI layout holds, in terms of the fields of its JSON documents alone
    (scripts/oci-archive.py). */
module OciMeaning {
  import opened Text
  import opened JsonPatch
  import opened OciGraph
  import opened OciReach
  import opened OciInspect
  import opened OciTheorems
  import Folds

  /** The descriptor gives a digest in hexadecimal, and the blob of that name has the stated size. */
  ghost predicate Points(blobs: Blobs, d: Json, hex: string) {
    && |hex| == 64 && (forall i :: 0 <= i < 64 ==> hex[i] in "0123456789abcdef")
    && Field(d, "digest") == Str("sha256:" + hex) && "sha256:" + hex in blobs
    && Field(d, "size") == Num(blobs["sha256:" + hex].size)
  }

  /** And the blob holds this JSON object. */
  ghost predicate Leads(blobs: Blobs, d: Json, doc: Json) {
    exists hex :: Points(blobs, d, hex) && blobs["sha256:" + hex].document == Some(doc) && doc.Obj?
  }

  lemma ResolvesMeans(blobs: Blobs, d: Json) returns (hex: string)
    requires Resolves(blobs, d)
    ensures Points(blobs, d, hex) && Name(d) == "sha256:" + hex
  {
    var s := Field(d, "digest").s;
    hex := s[7..];
    assert s == "sha256:" + hex;
    assert forall i :: 0 <= i < 64 ==> hex[i] == s[i + 7];
  }

  lemma ReadableMeans(blobs: Blobs, d: Json)
    requires Resolves(blobs, d) && Document(blobs, d).Obj?
    ensures Leads(blobs, d, Document(blobs, d))
  {
    var hex := ResolvesMeans(blobs, d);
  }

  /** A manifest with a configuration and these layers. */
  ghost predicate ManifestWith(doc: Json, config: Json, layers: seq<Json>) {
    && Field(doc, "schemaVersion") == Num(2)
    && Field(doc, "config") == config && config.Obj? && Field(doc, "layers") == Arr(layers)
  }

  /** The statement is about the image, or about no subject at all. */
  ghost predicate AboutImage(payload: Json, image: Json) {
    exists subjects :: Field(payload, "subject") == Arr(subjects)
      && (subjects == [] || exists s <- subjects :: SubjectIs(s, image))
  }

  ghost predicate SubjectIs(s: Json, image: Json) {
    exists hex :: Field(Field(s, "digest"), "sha256") == Str(hex) && image == Str("sha256:" + hex)
  }

  /** A layer with a statement of this kind about the image. */
  ghost predicate StatementLayer(p: Policy, blobs: Blobs, layer: Json, image: Json, kind: string, payload: Json) {
    && Leads(blobs, layer, payload) && Field(layer, "mediaType") == Str(p.statementType)
    && Field(Field(layer, "annotations"), p.predicateKey) == Str(kind) && kind in p.predicates
    && Field(payload, "_type") == Str(p.statement) && Field(payload, "predicateType") == Str(kind)
    && Field(payload, "predicate").Obj? && p.accepts(kind, Field(payload, "predicate"))
    && AboutImage(payload, image)
  }

  ghost predicate BoundTo(p: Policy, d: Json, image: Json) {
    && Field(Field(d, "annotations"), p.kindKey) == Str(p.kind)
    && Field(Field(d, "annotations"), p.digestKey) == image
  }

  /** The descriptor leads to a manifest whose layers, at least one, are statements about the image. */
  ghost predicate AttestationWith(p: Policy, blobs: Blobs, d: Json, image: Json, doc: Json, config: Json,
                                  layers: seq<Json>)
  {
    && Leads(blobs, d, doc) && ManifestWith(doc, config, layers) && (exists hex :: Points(blobs, config, hex))
    && layers != []
    && forall layer <- layers :: exists kind, payload :: StatementLayer(p, blobs, layer, image, kind, payload)
  }

  lemma ReachedMember(p: Policy, index: Json, blobs: Blobs, k: nat, r: Ref)
    requires k < |Descriptors(p, index, blobs)| && r in Family(p, blobs, Member(p, Descriptors(p, index, blobs)[k]))
    ensures Reachable(p, index, blobs, r)
  {
    BelowMeans(p, blobs, Descriptors(p, index, blobs), r);
    ReachableIsAll(p, index, blobs, r);
  }

  lemma ProperMember(p: Policy, index: Json, blobs: Blobs, at: nat, k: nat, r: Ref)
    requires Admissible(p, index, blobs, at)
    requires k < |Descriptors(p, index, blobs)| && r in Family(p, blobs, Member(p, Descriptors(p, index, blobs)[k]))
    ensures Proper(p, blobs, Field(Descriptors(p, index, blobs)[at], "digest"), r)
  {
    ReachedMember(p, index, blobs, k, r);
  }

  lemma StatementMeans(p: Policy, blobs: Blobs, layer: Json, image: Json)
    requires Proper(p, blobs, image, Ref(AttestationLayer, layer))
    ensures exists kind, payload :: StatementLayer(p, blobs, layer, image, kind, payload)
  {
    var payload, kind := Document(blobs, layer), PredicateOf(p, layer).s;
    ReadableMeans(blobs, layer);
    var subjects := Field(payload, "subject").items;
    if subjects != [] {
      var s :| s in subjects && Names(s, image);
      assert SubjectIs(s, image) by { assert image == Str("sha256:" + Field(Field(s, "digest"), "sha256").s); }
    }
    assert StatementLayer(p, blobs, layer, image, kind, payload);
  }

  /** Every other descriptor of an accepted layout is bound to the image by its annotations, and leads to a
      manifest whose layers, at least one, are statements about the image. */
  lemma AttestationMeans(p: Policy, index: Json, blobs: Blobs, at: nat, k: nat)
    requires Admissible(p, index, blobs, at)
    requires var items := Descriptors(p, index, blobs); k < |items| && k != at
    ensures var d, image := Descriptors(p, index, blobs)[k], Field(Descriptors(p, index, blobs)[at], "digest");
      BoundTo(p, d, image) && exists doc, config, layers :: AttestationWith(p, blobs, d, image, doc, config, layers)
  {
    var items := Descriptors(p, index, blobs);
    var d, image := items[k], Field(items[at], "digest");
    var family := Family(p, blobs, Ref(Attestation, d));
    assert Member(p, d) == Ref(Attestation, d);
    ProperMember(p, index, blobs, at, k, Ref(Attestation, d));
    ReadableMeans(blobs, d);
    var doc := Document(blobs, d);
    var config, layers := Field(doc, "config"), Layers(doc);
    ProperMember(p, index, blobs, at, k, Ref(AttestationConfig, config));
    var hex := ResolvesMeans(blobs, config);
    forall layer | layer in layers
      ensures exists kind, payload :: StatementLayer(p, blobs, layer, image, kind, payload)
    {
      ProperMember(p, index, blobs, at, k, Ref(AttestationLayer, layer));
      StatementMeans(p, blobs, layer, image);
    }
    assert AttestationWith(p, blobs, d, image, doc, config, layers);
  }

  ghost predicate ImageWith(p: Policy, blobs: Blobs, d: Json, doc: Json, config: Json, runtime: Json, layers: seq<Json>)
  {
    && Field(d, "mediaType") == Str(p.manifestType) && Field(d, "platform") == p.platform
    && Leads(blobs, d, doc) && ManifestWith(doc, config, layers) && Leads(blobs, config, runtime) && p.runtime(runtime)
    && forall layer <- layers :: exists hex :: Points(blobs, layer, hex)
  }

  /** One descriptor of an accepted layout, and only one, is an image of the platform; its configuration
      passes, and its layers are all there. */
  lemma ImageMeans(p: Policy, index: Json, blobs: Blobs, at: nat)
    requires Admissible(p, index, blobs, at)
    ensures Field(index, "schemaVersion") == Num(2) && Field(index, "manifests").Arr?
    ensures var items := Descriptors(p, index, blobs);
      && at < |items|
      && (exists doc, config, runtime, layers :: ImageWith(p, blobs, items[at], doc, config, runtime, layers))
      && forall k :: 0 <= k < |items| && k != at && items[k].Obj? ==>
           !(Field(items[k], "mediaType") == Str(p.manifestType) && Field(items[k], "platform") == p.platform)
  {
    var items := Descriptors(p, index, blobs);
    var d := items[at];
    assert Member(p, d) == Ref(Image, d);
    ProperMember(p, index, blobs, at, at, Ref(Image, d));
    ReadableMeans(blobs, d);
    var doc := Document(blobs, d);
    var config, layers := Field(doc, "config"), Layers(doc);
    ProperMember(p, index, blobs, at, at, Ref(ImageConfig, config));
    ReadableMeans(blobs, config);
    forall layer | layer in layers ensures exists hex :: Points(blobs, layer, hex) {
      ProperMember(p, index, blobs, at, at, Ref(ImageLayer, layer));
      var hex := ResolvesMeans(blobs, layer);
    }
    assert ImageWith(p, blobs, d, doc, config, Document(blobs, config), layers);
  }

  /** The index names one other index, whose descriptors are these. */
  ghost predicate Wraps(p: Policy, index: Json, blobs: Blobs, d: Json, doc: Json, items: seq<Json>) {
    && Field(index, "manifests") == Arr([d]) && Field(d, "mediaType") == Str(p.indexType)
    && Leads(blobs, d, doc) && Field(doc, "schemaVersion") == Num(2) && Field(doc, "manifests") == Arr(items)
  }

  lemma WrapperMeans(p: Policy, index: Json, blobs: Blobs, image: Json)
    requires ReachableProper(p, index, blobs, image) && IsWrapped(p, Items(Field(index, "manifests")))
    ensures var d := Items(Field(index, "manifests"))[0];
      Wraps(p, index, blobs, d, Document(blobs, d), Descriptors(p, index, blobs))
  {
    var items := Items(Field(index, "manifests"));
    var r := Ref(Wrapper, items[0]);
    assert r in Roots(p, index);
    RootReachable(p, index, blobs, r);
    assert Proper(p, blobs, image, r);
    ReadableMeans(blobs, items[0]);
    assert items == [items[0]];
  }

  lemma {:induction false} KindsFrom<D, N, K>(look: Folds.Look<D, N, K>, items: seq<D>, skip: nat, n: nat, x: K)
    returns (k: nat, d: D)
    requires n <= |items| && x in Folds.AllKinds(look, items, skip, n)
    ensures k < n && k != skip && d in look.parts(items[k]) && look.kind(d) == x
    decreases n
  {
    if n - 1 != skip && x in Folds.KindsIn(look, items[n - 1]) {
      k := n - 1;
      d := MapFrom(look.kind, look.parts(items[k]), |look.parts(items[k])|, x);
    } else {
      k, d := KindsFrom(look, items, skip, n - 1, x);
    }
  }

  lemma {:induction false} MapFrom<D, K>(kind: D -> K, items: seq<D>, n: nat, x: K) returns (d: D)
    requires n <= |items| && x in Folds.Map(kind, items, n)
    ensures d in items && kind(d) == x
    decreases n
  {
    if kind(items[n - 1]) == x { d := items[n - 1]; } else { d := MapFrom(kind, items, n - 1, x); }
  }

  /** Every demanded predicate type is carried by some layer of some attestation. */
  lemma KindsCarried(p: Policy, index: Json, blobs: Blobs, at: nat, kind: string) returns (k: nat, layer: Json)
    requires Admissible(p, index, blobs, at) && kind in p.predicates && kind != ""
    ensures var items := Descriptors(p, index, blobs);
      && k < |items| && k != at && layer in Layers(Document(blobs, items[k]))
      && Field(Field(layer, "annotations"), p.predicateKey) == Str(kind)
  {
    var items := Descriptors(p, index, blobs);
    k, layer := KindsFrom(Attestations(p, blobs, Field(items[at], "digest")), items, at, |items|, kind);
  }

  // The other way round ---------------------------------------------------------------------------

  lemma PointsResolves(blobs: Blobs, d: Json, hex: string)
    requires Points(blobs, d, hex)
    ensures Resolves(blobs, d) && Name(d) == "sha256:" + hex
  {
    var s := "sha256:" + hex;
    assert forall i :: 0 <= i < 7 ==> s[i] == "sha256:"[i];
    assert forall i :: 7 <= i < 71 ==> s[i] == hex[i - 7];
  }

  lemma LeadsReads(blobs: Blobs, d: Json, doc: Json)
    requires Leads(blobs, d, doc)
    ensures Resolves(blobs, d) && Document(blobs, d) == doc && doc.Obj?
  {
    var hex :| Points(blobs, d, hex) && blobs["sha256:" + hex].document == Some(doc) && doc.Obj?;
    PointsResolves(blobs, d, hex);
  }

  lemma StatementIsGood(p: Policy, blobs: Blobs, layer: Json, image: Json, kind: string, payload: Json)
    requires StatementLayer(p, blobs, layer, image, kind, payload)
    ensures StatementGood(p, blobs, image, layer)
  {
    LeadsReads(blobs, layer, payload);
    var subjects :| Field(payload, "subject") == Arr(subjects)
      && (subjects == [] || exists s <- subjects :: SubjectIs(s, image));
    if subjects != [] {
      var s :| s in subjects && SubjectIs(s, image);
      assert Names(s, image);
    }
  }

  lemma ImageIsGood(p: Policy, blobs: Blobs, d: Json, doc: Json, config: Json, runtime: Json, layers: seq<Json>)
    requires ImageWith(p, blobs, d, doc, config, runtime, layers)
    ensures ImageGood(p, blobs, d) && IsImage(p, d)
  {
    LeadsReads(blobs, d, doc);
    LeadsReads(blobs, config, runtime);
    forall i | 0 <= i < |layers| ensures Resolves(blobs, layers[i]) {
      assert layers[i] in layers;
      var hex :| Points(blobs, layers[i], hex);
      PointsResolves(blobs, layers[i], hex);
    }
  }

  lemma AttestationIsGood(p: Policy, blobs: Blobs, d: Json, image: Json, doc: Json, config: Json, layers: seq<Json>)
    requires BoundTo(p, d, image) && AttestationWith(p, blobs, d, image, doc, config, layers)
    ensures Folds.Passes(Attestations(p, blobs, image), d)
  {
    LeadsReads(blobs, d, doc);
    var hex :| Points(blobs, config, hex);
    PointsResolves(blobs, config, hex);
    forall i | 0 <= i < |layers| ensures StatementGood(p, blobs, image, layers[i]) {
      assert layers[i] in layers;
      var kind, payload :| StatementLayer(p, blobs, layers[i], image, kind, payload);
      StatementIsGood(p, blobs, layers[i], image, kind, payload);
    }
    PassesMeans(p, blobs, image, d);
  }

  /** The index and its descriptors. */
  ghost predicate IndexWith(p: Policy, index: Json, blobs: Blobs, items: seq<Json>) {
    && Field(index, "schemaVersion") == Num(2) && Field(index, "manifests").Arr?
    && if exists d :: Field(index, "manifests") == Arr([d]) && Field(d, "mediaType") == Str(p.indexType)
       then exists d, doc :: Wraps(p, index, blobs, d, doc, items)
       else Field(index, "manifests") == Arr(items)
  }

  /** One image and attestations of it, in fields alone; the predicate types are carried once each, and the
      blobs are those that can be reached. */
  ghost predicate SpelledOut(p: Policy, index: Json, blobs: Blobs, items: seq<Json>, at: nat) {
    && IndexWith(p, index, blobs, items) && at < |items|
    && (exists doc, config, runtime, layers :: ImageWith(p, blobs, items[at], doc, config, runtime, layers))
    && (forall k :: 0 <= k < |items| && k != at ==> OtherItem(p, blobs, items[k], Field(items[at], "digest")))
    && Folds.Distinct(Carried(p, blobs, items, at)) && Folds.SameElements(p.predicates, Carried(p, blobs, items, at))
    && Closed(p, index, blobs)
  }

  /** Not an image of the platform, but an attestation of the one. */
  ghost predicate OtherItem(p: Policy, blobs: Blobs, d: Json, image: Json) {
    && !(Field(d, "mediaType") == Str(p.manifestType) && Field(d, "platform") == p.platform && d.Obj?)
    && BoundTo(p, d, image)
    && exists doc, config, layers :: AttestationWith(p, blobs, d, image, doc, config, layers)
  }

  lemma WrappedMeans(p: Policy, index: Json)
    requires Field(index, "manifests").Arr?
    ensures IsWrapped(p, Items(Field(index, "manifests"))) <==>
      exists d :: Field(index, "manifests") == Arr([d]) && Field(d, "mediaType") == Str(p.indexType)
  {
    var items := Items(Field(index, "manifests"));
    if IsWrapped(p, items) { assert items == [items[0]]; }
  }

  lemma IndexIsRead(p: Policy, index: Json, blobs: Blobs, items: seq<Json>)
    requires IndexWith(p, index, blobs, items)
    ensures IsIndex(index) && WrapperGood(p, index, blobs) && Descriptors(p, index, blobs) == items
  {
    WrappedMeans(p, index);
    if d, doc :| Wraps(p, index, blobs, d, doc, items) && IsWrapped(p, Items(Field(index, "manifests"))) {
      LeadsReads(blobs, d, doc);
    }
  }

  lemma SpelledIsAdmissible(p: Policy, index: Json, blobs: Blobs, items: seq<Json>, at: nat)
    requires SpelledOut(p, index, blobs, items, at)
    ensures Admissible(p, index, blobs, at) && Descriptors(p, index, blobs) == items
  {
    IndexIsRead(p, index, blobs, items);
    var image := Field(items[at], "digest");
    var doc, config, runtime, layers :| ImageWith(p, blobs, items[at], doc, config, runtime, layers);
    ImageIsGood(p, blobs, items[at], doc, config, runtime, layers);
    forall k | 0 <= k < |items| && k != at
      ensures Folds.Passes(Attestations(p, blobs, image), items[k]) && !IsImage(p, items[k])
    {
      assert OtherItem(p, blobs, items[k], image);
      var doc, config, layers :| AttestationWith(p, blobs, items[k], image, doc, config, layers);
      AttestationIsGood(p, blobs, items[k], image, doc, config, layers);
    }
    Folds.AllPassMeans(Attestations(p, blobs, image), items, at, |items|);
    ProperMeans(p, index, blobs, at);
  }

  lemma AdmissibleIsSpelled(p: Policy, index: Json, blobs: Blobs, at: nat)
    requires Admissible(p, index, blobs, at)
    ensures SpelledOut(p, index, blobs, Descriptors(p, index, blobs), at)
  {
    var items := Descriptors(p, index, blobs);
    ImageMeans(p, index, blobs, at);
    WrappedMeans(p, index);
    if IsWrapped(p, Items(Field(index, "manifests"))) {
      WrapperMeans(p, index, blobs, Field(items[at], "digest"));
    }
    forall k | 0 <= k < |items| && k != at ensures OtherItem(p, blobs, items[k], Field(items[at], "digest")) {
      AttestationMeans(p, index, blobs, at, k);
    }
  }

  /** The layouts that the inspection accepts are exactly those that are spelled out in their fields. */
  lemma AdmissibleMeans(p: Policy, index: Json, blobs: Blobs, at: nat)
    ensures Admissible(p, index, blobs, at) <==> exists items :: SpelledOut(p, index, blobs, items, at)
  {
    if Admissible(p, index, blobs, at) { AdmissibleIsSpelled(p, index, blobs, at); }
    if items :| SpelledOut(p, index, blobs, items, at) { SpelledIsAdmissible(p, index, blobs, items, at); }
  }
}
