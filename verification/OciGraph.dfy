/** The descriptor graph of an OCI layout (scripts/oci-archive.py): an index, perhaps wrapped in one
    more index, one image and its attestations. Blobs are keyed by their digest. */
module OciGraph {
  import opened Text
  import opened JsonPatch

  /** A blob's size, and the JSON object in it when it was retained and holds one. */
  datatype Blob = Blob(size: nat, document: Option<Json>)

  type Blobs = map<string, Blob>

  /** The names and the checks that the release fixes: media types and the platform of the image;
      the annotation keys of attestations and of their layers; the type of a statement; and what
      is demanded of the image's configuration and of a predicate. */
  datatype Policy = Policy(
    indexType: string, manifestType: string, platform: Json, statementType: string,
    kindKey: string, kind: string, digestKey: string, predicateKey: string,
    statement: string, predicates: set<string>, runtime: Json -> bool, accepts: (string, Json) -> bool)

  datatype Role = Wrapper | Image | ImageConfig | ImageLayer | Attestation | AttestationConfig | AttestationLayer

  /** A descriptor and what it is used as. */
  datatype Ref = Ref(role: Role, descriptor: Json)

  /** A member of an object, or null. */
  function Field(d: Json, key: string): Json {
    if d.Obj? && key in d.fields then d.fields[key] else Null
  }

  function Items(j: Json): seq<Json> { if j.Arr? then j.items else [] }

  /** "sha256:" and 64 hexadecimal digits. */
  predicate IsDigest(j: Json) {
    && j.Str? && |j.s| == 71 && (forall i :: 0 <= i < 7 ==> j.s[i] == "sha256:"[i])
    && forall i :: 7 <= i < 71 ==> j.s[i] in "0123456789abcdef"
  }

  /** The blob that a descriptor names. */
  function Name(d: Json): string {
    var digest := Field(d, "digest");
    if digest.Str? then digest.s else ""
  }

  predicate Resolves(blobs: Blobs, d: Json) {
    && d.Obj? && IsDigest(Field(d, "digest")) && Name(d) in blobs
    && Field(d, "size") == Num(blobs[Name(d)].size)
  }

  /** The JSON object that a descriptor leads to, or null. */
  function Document(blobs: Blobs, d: Json): Json {
    if Resolves(blobs, d) && blobs[Name(d)].document.Some? then blobs[Name(d)].document.value else Null
  }

  predicate IsImage(p: Policy, d: Json) {
    d.Obj? && Field(d, "mediaType") == Str(p.manifestType) && Field(d, "platform") == p.platform
  }

  predicate IsWrapped(p: Policy, items: seq<Json>) {
    |items| == 1 && items[0].Obj? && Field(items[0], "mediaType") == Str(p.indexType)
  }

  function Member(p: Policy, d: Json): Ref { Ref(if IsImage(p, d) then Image else Attestation, d) }

  ghost function Members(p: Policy, items: seq<Json>): set<Ref> { set d <- items :: Member(p, d) }

  /** What a manifest refers to, as the configuration and as the layers of its kind. */
  ghost function Parts(manifest: Json, config: Role, layer: Role): set<Ref> {
    {Ref(config, Field(manifest, "config"))} + set d <- Items(Field(manifest, "layers")) :: Ref(layer, d)
  }

  /** What a descriptor leads to directly. */
  ghost function Children(p: Policy, blobs: Blobs, r: Ref): set<Ref> {
    var document := Document(blobs, r.descriptor);
    match r.role
    case Wrapper => Members(p, Items(Field(document, "manifests")))
    case Image => Parts(document, ImageConfig, ImageLayer)
    case Attestation => Parts(document, AttestationConfig, AttestationLayer)
    case _ => {}
  }

  ghost function Roots(p: Policy, index: Json): set<Ref> {
    var items := Items(Field(index, "manifests"));
    if IsWrapped(p, items) then {Ref(Wrapper, items[0])} else Members(p, items)
  }

  /** A walk from index.json along descriptors. */
  ghost predicate IsWalk(p: Policy, index: Json, blobs: Blobs, walk: seq<Ref>) {
    && walk != [] && walk[0] in Roots(p, index)
    && forall i :: 0 < i < |walk| ==> walk[i] in Children(p, blobs, walk[i - 1])
  }

  ghost predicate Reachable(p: Policy, index: Json, blobs: Blobs, r: Ref) {
    exists walk :: IsWalk(p, index, blobs, walk) && walk[|walk| - 1] == r
  }

  predicate IsManifest(document: Json) {
    Field(document, "schemaVersion") == Num(2) && Field(document, "config").Obj? && Field(document, "layers").Arr?
  }

  predicate IsIndex(document: Json) {
    Field(document, "schemaVersion") == Num(2) && Field(document, "manifests").Arr?
  }

  function PredicateOf(p: Policy, layer: Json): Json { Field(Field(layer, "annotations"), p.predicateKey) }

  function KindOf(p: Policy, layer: Json): string {
    if PredicateOf(p, layer).Str? then PredicateOf(p, layer).s else ""
  }

  /** An in-toto statement of the annotated type about the image, or about no subject at all. */
  predicate IsStatement(p: Policy, layer: Json, payload: Json, image: Json) {
    var subjects := Field(payload, "subject");
    && Field(layer, "mediaType") == Str(p.statementType) && Field(payload, "_type") == Str(p.statement)
    && PredicateOf(p, layer).Str? && Field(payload, "predicateType") == PredicateOf(p, layer)
    && Field(payload, "predicate").Obj? && subjects.Arr?
    && (subjects.items == [] || exists s <- subjects.items :: Names(s, image))
    && PredicateOf(p, layer).s in p.predicates && p.accepts(PredicateOf(p, layer).s, Field(payload, "predicate"))
  }

  /** A subject names the image manifest. */
  predicate Names(subject: Json, image: Json) {
    var hex := Field(Field(subject, "digest"), "sha256");
    hex.Str? && image == Str("sha256:" + hex.s)
  }

  predicate IsBound(p: Policy, d: Json, image: Json) {
    var annotations := Field(d, "annotations");
    Field(annotations, p.kindKey) == Str(p.kind) && Field(annotations, p.digestKey) == image
  }

  /** What is demanded of one descriptor and its blob. */
  predicate Proper(p: Policy, blobs: Blobs, image: Json, r: Ref) {
    var d := r.descriptor;
    var document := Document(blobs, d);
    && Resolves(blobs, d)
    && match r.role
       case Wrapper => document.Obj? && IsIndex(document)
       case Image => document.Obj? && IsManifest(document)
       case ImageConfig => document.Obj? && p.runtime(document)
       case ImageLayer => true
       case Attestation =>
         && IsBound(p, d, image) && document.Obj? && IsManifest(document)
         && Items(Field(document, "layers")) != []
       case AttestationConfig => true
       case AttestationLayer => document.Obj? && IsStatement(p, d, document, image)
  }
}
