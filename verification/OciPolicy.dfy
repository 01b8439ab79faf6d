/** The policy of a release (scripts/oci-archive.py): a linux/amd64 image whose configuration is bound
    to the release and runs as an unprivileged user, with one SPDX and one SLSA statement about it. */
module OciPolicy {
  import opened JsonPatch
  import opened OciGraph
  import opened OciReach
  import opened OciInspect
  import opened OciTheorems
  import opened OciMeaning

  const SPDX := "https://spdx.dev/Document"
  const SLSA := "https://slsa.dev/provenance/v1"

  predicate RuntimeBinds(config: Json, release: string, revision: string) {
    var runtime := Field(config, "config");
    var labels := Field(runtime, "Labels");
    && Field(labels, "org.opencontainers.image.revision") == Str(revision)
    && Field(labels, "org.opencontainers.image.version") == Str(release)
    && Field(labels, "io.tritium.artifact.schema") == Str("3")
    && Field(labels, "io.tritium.startup-receipt.schema") == Str("1")
    && Field(runtime, "User") !in {Null, Str(""), Str("0"), Str("0:0")}
    && Field(runtime, "Entrypoint") == Arr([Str("/usr/local/bin/tritium-serve")])
  }

  function ReleasePolicy(release: string, revision: string, spdx: Json -> bool, slsa: Json -> bool): Policy {
    Policy(
      "application/vnd.oci.image.index.v1+json", "application/vnd.oci.image.manifest.v1+json",
      Obj(map["architecture" := Str("amd64"), "os" := Str("linux")]), "application/vnd.in-toto+json",
      "vnd.docker.reference.type", "attestation-manifest", "vnd.docker.reference.digest",
      "in-toto.io/predicate-type", "https://in-toto.io/Statement/v1", {SPDX, SLSA},
      config => RuntimeBinds(config, release, revision),
      (kind, content) => if kind == SPDX then spdx(content) else slsa(content))
  }

  lemma TwoKinds()
    ensures |{SPDX, SLSA}| == 2
  {
    assert SPDX[9] != SLSA[9];
  }

  lemma TwoLayers(p: Policy, index: Json, blobs: Blobs, at: nat)
    requires Admissible(p, index, blobs, at) && |p.predicates| == 2
    ensures var items := Descriptors(p, index, blobs); LayerCount(blobs, items, at, |items|) == 2
  {
    AdmissibleGuarantees(p, index, blobs, at, "");
  }

  /** The attestation manifests of an accepted release have two layers together. */
  lemma TwoAttestationLayers(release: string, revision: string, spdx: Json -> bool, slsa: Json -> bool,
                             index: Json, blobs: Blobs, at: nat)
    requires Admissible(ReleasePolicy(release, revision, spdx, slsa), index, blobs, at)
    ensures var items := Descriptors(ReleasePolicy(release, revision, spdx, slsa), index, blobs);
      LayerCount(blobs, items, at, |items|) == 2
  {
    var p := ReleasePolicy(release, revision, spdx, slsa);
    assert p.predicates == {SPDX, SLSA};
    TwoKinds();
    TwoLayers(p, index, blobs, at);
  }

  /** An attestation descriptor of an accepted release names the image by its digest. */
  lemma ReleaseAttestation(release: string, revision: string, spdx: Json -> bool, slsa: Json -> bool,
                           index: Json, blobs: Blobs, at: nat, k: nat)
    requires var p := ReleasePolicy(release, revision, spdx, slsa);
      Admissible(p, index, blobs, at) && k < |Descriptors(p, index, blobs)| && k != at
    ensures var items := Descriptors(ReleasePolicy(release, revision, spdx, slsa), index, blobs);
      var annotations := Field(items[k], "annotations");
      && Field(annotations, "vnd.docker.reference.type") == Str("attestation-manifest")
      && Field(annotations, "vnd.docker.reference.digest") == Field(items[at], "digest")
  {
    AttestationMeans(ReleasePolicy(release, revision, spdx, slsa), index, blobs, at, k);
  }

  /** The descriptors of an accepted release are those of its index, or of the one index that it names. */
  lemma ReleaseIndex(release: string, revision: string, spdx: Json -> bool, slsa: Json -> bool,
                     index: Json, blobs: Blobs, at: nat)
    requires Admissible(ReleasePolicy(release, revision, spdx, slsa), index, blobs, at)
    ensures Field(index, "schemaVersion") == Num(2)
    ensures var items := Descriptors(ReleasePolicy(release, revision, spdx, slsa), index, blobs);
      || Field(index, "manifests") == Arr(items)
      || exists d, doc ::
           && Field(index, "manifests") == Arr([d])
           && Field(d, "mediaType") == Str("application/vnd.oci.image.index.v1+json") && Leads(blobs, d, doc)
           && Field(doc, "schemaVersion") == Num(2) && Field(doc, "manifests") == Arr(items)
  {
    var p := ReleasePolicy(release, revision, spdx, slsa);
    AdmissibleIsSpelled(p, index, blobs, at);
    var items := Descriptors(p, index, blobs);
    if d, doc :| Wraps(p, index, blobs, d, doc, items) {
      assert Field(d, "mediaType") == Str("application/vnd.oci.image.index.v1+json");
    }
  }

  /** All descriptors but the one at `at` are attestations of the image that it names. */
  ghost predicate AllBound(items: seq<Json>, at: nat) {
    at < |items| && forall k :: 0 <= k < |items| && k != at ==>
      && Field(Field(items[k], "annotations"), "vnd.docker.reference.type") == Str("attestation-manifest")
      && Field(Field(items[k], "annotations"), "vnd.docker.reference.digest") == Field(items[at], "digest")
  }

  lemma ReleaseBound(release: string, revision: string, spdx: Json -> bool, slsa: Json -> bool,
                     index: Json, blobs: Blobs, at: nat)
    requires Admissible(ReleasePolicy(release, revision, spdx, slsa), index, blobs, at)
    ensures AllBound(Descriptors(ReleasePolicy(release, revision, spdx, slsa), index, blobs), at)
  {
    var items := Descriptors(ReleasePolicy(release, revision, spdx, slsa), index, blobs);
    forall k | 0 <= k < |items| && k != at
      ensures Field(Field(items[k], "annotations"), "vnd.docker.reference.type") == Str("attestation-manifest")
      ensures Field(Field(items[k], "annotations"), "vnd.docker.reference.digest") == Field(items[at], "digest")
    {
      ReleaseAttestation(release, revision, spdx, slsa, index, blobs, at, k);
    }
  }

  /** The image of an accepted release is a linux/amd64 manifest whose configuration carries the release,
      its revision and the two schemas, runs as somebody but root, and starts the server. */
  lemma ReleaseImage(release: string, revision: string, spdx: Json -> bool, slsa: Json -> bool,
                     index: Json, blobs: Blobs, at: nat)
    requires Admissible(ReleasePolicy(release, revision, spdx, slsa), index, blobs, at)
    ensures var items := Descriptors(ReleasePolicy(release, revision, spdx, slsa), index, blobs);
      && at < |items| && Field(items[at], "mediaType") == Str("application/vnd.oci.image.manifest.v1+json")
      && Field(items[at], "platform") == Obj(map["architecture" := Str("amd64"), "os" := Str("linux")])
      && exists doc, config, layers, settings ::
           ReleaseConfig(blobs, items[at], doc, config, layers, settings, release, revision)
  {
    var p := ReleasePolicy(release, revision, spdx, slsa);
    ImageMeans(p, index, blobs, at);
    var items := Descriptors(p, index, blobs);
    var doc, config, settings, layers :| ImageWith(p, blobs, items[at], doc, config, settings, layers);
    assert ReleaseConfig(blobs, items[at], doc, config, layers, settings, release, revision);
  }

  ghost predicate ReleaseConfig(blobs: Blobs, d: Json, doc: Json, config: Json, layers: seq<Json>, settings: Json,
                                release: string, revision: string)
  {
    var labels := Field(Field(settings, "config"), "Labels");
    && Leads(blobs, d, doc) && ManifestWith(doc, config, layers) && Leads(blobs, config, settings)
    && Field(labels, "org.opencontainers.image.revision") == Str(revision)
    && Field(labels, "org.opencontainers.image.version") == Str(release)
    && Field(labels, "io.tritium.artifact.schema") == Str("3")
    && Field(labels, "io.tritium.startup-receipt.schema") == Str("1")
    && Field(Field(settings, "config"), "User") !in {Null, Str(""), Str("0"), Str("0:0")}
    && Field(Field(settings, "config"), "Entrypoint") == Arr([Str("/usr/local/bin/tritium-serve")])
  }

  /** Every layer of such a manifest is an SPDX or an SLSA statement about the image. */
  lemma ReleaseStatement(release: string, revision: string, spdx: Json -> bool, slsa: Json -> bool,
                         blobs: Blobs, layer: Json, image: Json, kind: string, payload: Json)
    requires StatementLayer(ReleasePolicy(release, revision, spdx, slsa), blobs, layer, image, kind, payload)
    ensures Leads(blobs, layer, payload) && Field(layer, "mediaType") == Str("application/vnd.in-toto+json")
    ensures Field(Field(layer, "annotations"), "in-toto.io/predicate-type") == Str(kind)
    ensures Field(payload, "_type") == Str("https://in-toto.io/Statement/v1")
    ensures Field(payload, "predicateType") == Str(kind) && AboutImage(payload, image)
    ensures || (kind == "https://spdx.dev/Document" && spdx(Field(payload, "predicate")))
            || (kind == "https://slsa.dev/provenance/v1" && slsa(Field(payload, "predicate")))
  {}

  /** A release image is accepted exactly when its layout is admissible for the release. */
  method InspectRelease(release: string, revision: string, spdx: Json -> bool, slsa: Json -> bool,
                        index: Json, blobs: Blobs)
    returns (ok: bool)
    ensures ok <==> exists at: nat :: Admissible(ReleasePolicy(release, revision, spdx, slsa), index, blobs, at)
    ensures ok ==> exists at: nat ::
      var p := ReleasePolicy(release, revision, spdx, slsa);
      Admissible(p, index, blobs, at) && AllBound(Descriptors(p, index, blobs), at)
  {
    ok := InspectGraph(ReleasePolicy(release, revision, spdx, slsa), index, blobs);
    if ok {
      ghost var at: nat :| Admissible(ReleasePolicy(release, revision, spdx, slsa), index, blobs, at);
      ReleaseBound(release, revision, spdx, slsa, index, blobs, at);
    }
  }
}
