/** Publication of a release candidate (scripts/assemble-release-candidate.py): generated
    SBOMs, then a provenance directory, then the manifest, with rollback when anything fails.
    A path is the list of its components below the candidate directory. */
module Publication {
  type Path = seq<string>

  const MANIFEST: Path := ["manifest.json"]
  const PROVENANCE: Path := ["provenance"]

  /** The files and directories below the candidate directory, which is the directory []. */
  datatype Tree = Tree(files: map<Path, string>, dirs: set<Path>)
  {
    predicate Has(p: Path) { p in files || p in dirs }

    /** Every file and every directory lies in a directory. */
    ghost predicate Valid() {
      && [] !in files && (forall p, k :: p in files && 0 <= k < |p| ==> p[..k] in dirs)
      && (forall p, k :: p in dirs && 0 <= k < |p| ==> p[..k] in dirs)
    }

    /** A file may be created at `p`: it is below the root and its parents are directories. */
    predicate Contains(p: Path) {
      p != [] && ".." !in p && forall k :: 0 <= k < |p| ==> p[..k] in dirs
    }

    function With(p: Path, content: string): Tree { Tree(files[p := content], dirs) }

    function Without(p: Path): Tree { Tree(files - {p}, dirs) }
  }

  /** An artifact to publish. `generates` says that the tool writes its SBOM if it is absent;
      `document` is that SBOM and `statement` its provenance. */
  datatype Artifact = Artifact(
    id: string, path: Path, sbom: Path, generates: bool, document: string, statement: string)

  function ProvenancePath(id: string): Path { PROVENANCE + [id + ".intoto.json"] }

  /** Validated inputs name at least one artifact, and no artifact id twice. */
  predicate Accepted(artifacts: seq<Artifact>) { artifacts != [] && UniqueIds(artifacts) }

  predicate UniqueIds(artifacts: seq<Artifact>) {
    artifacts == [] ||
    var n := |artifacts| - 1;
    UniqueIds(artifacts[..n]) && forall a <- artifacts[..n] :: a.id != artifacts[n].id
  }

  lemma {:induction false} UniqueIdsMean(artifacts: seq<Artifact>, i: nat, j: nat)
    requires UniqueIds(artifacts) && i < j < |artifacts|
    ensures artifacts[i].id != artifacts[j].id
  {
    var n := |artifacts| - 1;
    if j < n {
      UniqueIdsMean(artifacts[..n], i, j);
    } else {
      assert artifacts[..n][i] in artifacts[..n];
    }
  }

  /** And that is all that is meant by it. */
  lemma {:induction false} DistinctIdsAreUnique(artifacts: seq<Artifact>)
    requires forall i, j :: 0 <= i < j < |artifacts| ==> artifacts[i].id != artifacts[j].id
    ensures UniqueIds(artifacts)
  {
    if artifacts != [] { DistinctIdsAreUnique(artifacts[..|artifacts| - 1]); }
  }

  ghost function Sboms(artifacts: seq<Artifact>): set<Path> { set a <- artifacts :: a.sbom }

  /** The SBOMs that the tool may write. */
  ghost function Generated(artifacts: seq<Artifact>): set<Path> {
    if artifacts == [] then {}
    else
      var a := artifacts[|artifacts| - 1];
      Generated(artifacts[..|artifacts| - 1]) + if a.generates then {a.sbom} else {}
  }

  lemma {:induction false} GeneratedMeans(artifacts: seq<Artifact>, p: Path)
    ensures p in Generated(artifacts) <==> exists a <- artifacts :: a.generates && a.sbom == p
    decreases |artifacts|
  {
    if artifacts != [] {
      var n := |artifacts| - 1;
      GeneratedMeans(artifacts[..n], p);
      assert artifacts == artifacts[..n] + [artifacts[n]];
    }
  }

  function ProvenancePaths(artifacts: seq<Artifact>): seq<Path> {
    seq(|artifacts|, i requires 0 <= i < |artifacts| => ProvenancePath(artifacts[i].id))
  }

  ghost function Provenances(artifacts: seq<Artifact>): set<Path> { set p <- ProvenancePaths(artifacts) }

  /** What a manifest of `artifacts` names. */
  ghost function Named(artifacts: seq<Artifact>): set<Path> {
    (set a <- artifacts :: a.path) + Sboms(artifacts) + Provenances(artifacts)
  }

  /** The artifact is there, and its SBOM is there or can be written. */
  ghost predicate Ready(t: Tree, a: Artifact) {
    a.path in t.files && (a.sbom in t.files || (a.generates && a.sbom !in t.dirs && t.Contains(a.sbom)))
  }

  /** The input is accepted and every SBOM can be had. */
  ghost predicate Collectable(t: Tree, artifacts: seq<Artifact>) {
    Accepted(artifacts) && !t.Has(MANIFEST) && !t.Has(PROVENANCE) && forall a <- artifacts :: Ready(t, a)
  }

  /** What a run without failures needs. */
  ghost predicate Possible(t: Tree, artifacts: seq<Artifact>) {
    Collectable(t, artifacts) && MANIFEST !in Generated(artifacts) && PROVENANCE !in Generated(artifacts)
  }

  /** A manifest is never there without the files that it names. */
  ghost predicate Sound(t: Tree, artifacts: seq<Artifact>) {
    MANIFEST in t.files ==> Named(artifacts) <= t.files.Keys
  }

  /** `t` is `base` and the files `extra`. */
  ghost predicate Grown(base: Tree, t: Tree, extra: set<Path>) {
    && t.dirs == base.dirs && extra !! base.files.Keys && t.files.Keys == base.files.Keys + extra
    && forall p :: p in base.files ==> t.files[p] == base.files[p]
  }

  /** One change of the tree. Writing and creating a file are one kind. */
  datatype Change = Put(path: Path, text: string) | Remove(path: Path) | MakeDir(path: Path) | RemoveDir(path: Path)

  function Changed(t: Tree, c: Change): Tree {
    match c
    case Put(p, text) => t.With(p, text)
    case Remove(p) => t.Without(p)
    case MakeDir(p) => Tree(t.files, t.dirs + {p})
    case RemoveDir(p) => Tree(t.files, t.dirs - {p})
  }

  ghost predicate OneChange(t: Tree, u: Tree) { exists c :: u == Changed(t, c) }

  /** A history of trees, each one change after the one before it. */
  ghost predicate Linked(history: seq<Tree>) {
    history != [] && forall i :: LinkedAt(history, i)
  }

  ghost predicate LinkedAt(history: seq<Tree>, i: int) {
    0 < i < |history| ==> OneChange(history[i - 1], history[i])
  }

  lemma LinkedSnoc(history: seq<Tree>, c: Change)
    requires Linked(history)
    ensures Linked(history + [Changed(history[|history| - 1], c)])
  {
    var last := history[|history| - 1];
    var longer := history + [Changed(last, c)];
    assert OneChange(last, Changed(last, c));
    forall i ensures LinkedAt(longer, i) { assert LinkedAt(history, i); }
  }

  /** The history went on, and since `before` every tree was `base` and some of the files `extra`. */
  ghost predicate Within(before: seq<Tree>, after: seq<Tree>, base: Tree, extra: set<Path>) {
    before <= after && forall i :: |before| <= i < |after| ==> Between(base, after[i], extra)
  }

  lemma WithinJoin(h: seq<Tree>, i: seq<Tree>, j: seq<Tree>, base: Tree, mid: Tree, extra: set<Path>, more: set<Path>)
    requires Within(h, i, base, extra) && Within(i, j, mid, more) && Between(base, mid, extra) && more <= extra
    ensures Within(h, j, base, extra)
  {
    forall k | |h| <= k < |j| ensures Between(base, j[k], extra) {
      if k < |i| { assert j[k] == i[k]; } else { assert Between(mid, j[k], more); }
    }
  }

  /** `t` is `base` and some of the files `extra`. */
  ghost predicate Between(base: Tree, t: Tree, extra: set<Path>) {
    t.dirs == base.dirs && base.files.Keys <= t.files.Keys <= base.files.Keys + extra
  }

  lemma ProvenanceInjective(a: string, b: string)
    requires ProvenancePath(a) == ProvenancePath(b)
    ensures a == b
  {
    assert ProvenancePath(a)[1] == a + ".intoto.json" && ProvenancePath(b)[1] == b + ".intoto.json";
    assert a == (a + ".intoto.json")[..|a|] && b == (b + ".intoto.json")[..|b|];
  }

  /** `t` and the first `i` of the files `names`, with their contents. */
  function Added(t: Tree, names: seq<Path>, contents: seq<string>, i: nat): Tree
    requires i <= |names| == |contents|
  {
    if i == 0 then t else Added(t, names, contents, i - 1).With(names[i - 1], contents[i - 1])
  }

  ghost predicate Distinct(names: seq<Path>) {
    forall i, j :: 0 <= i < j < |names| ==> names[i] != names[j]
  }

  ghost function Firsts(names: seq<Path>, i: nat): set<Path>
    requires i <= |names|
    ensures forall p :: p in Firsts(names, i) <==> exists k :: 0 <= k < i && names[k] == p
  {
    if i == 0 then {} else Firsts(names, i - 1) + {names[i - 1]}
  }

  lemma {:induction false} AddedGrown(t: Tree, names: seq<Path>, contents: seq<string>, i: nat)
    requires i <= |names| == |contents| && Distinct(names) && forall k :: 0 <= k < |names| ==> !t.Has(names[k])
    ensures Grown(t, Added(t, names, contents, i), Firsts(names, i))
    ensures i < |names| ==> !Added(t, names, contents, i).Has(names[i])
  {
    if i > 0 { AddedGrown(t, names, contents, i - 1); }
  }

  lemma {:induction false} AddedContents(t: Tree, names: seq<Path>, contents: seq<string>, i: nat, k: nat)
    requires k < i <= |names| == |contents| && Distinct(names)
    ensures names[k] in Added(t, names, contents, i).files
    ensures Added(t, names, contents, i).files[names[k]] == contents[k]
  {
    if k < i - 1 { AddedContents(t, names, contents, i - 1, k); }
  }

  lemma FirstsAll(names: seq<Path>)
    ensures Firsts(names, |names|) == set p <- names
  {}

  /** Adding every name, and then one more. */
  lemma AddedWhole(t: Tree, names: seq<Path>, contents: seq<string>, last: Path, text: string)
    requires |names| == |contents| && Distinct(names) && last !in names && !t.Has(last)
    requires forall k :: 0 <= k < |names| ==> !t.Has(names[k])
    ensures var whole := Added(t, names, contents, |names|).With(last, text);
            && Grown(t, whole, (set p <- names) + {last}) && whole.files[last] == text
            && forall k :: 0 <= k < |names| ==> whole.files[names[k]] == contents[k]
  {
    AddedGrown(t, names, contents, |names|);
    FirstsAll(names);
    forall k | 0 <= k < |names| ensures Added(t, names, contents, |names|).files[names[k]] == contents[k] {
      AddedContents(t, names, contents, |names|, k);
    }
  }

  function Statements(artifacts: seq<Artifact>): seq<string> {
    seq(|artifacts|, i requires 0 <= i < |artifacts| => artifacts[i].statement)
  }

  /** Unique ids give provenance files that do not collide. */
  lemma ProvenanceDistinct(artifacts: seq<Artifact>)
    requires Accepted(artifacts)
    ensures Distinct(ProvenancePaths(artifacts))
  {
    var names := ProvenancePaths(artifacts);
    forall i, j | 0 <= i < j < |names| ensures names[i] != names[j] {
      UniqueIdsMean(artifacts, i, j);
      if names[i] == names[j] { ProvenanceInjective(artifacts[i].id, artifacts[j].id); }
    }
  }

  /** Nothing lies below the provenance directory. */
  ghost predicate Unissued(t: Tree) { forall p :: PROVENANCE < p ==> !t.Has(p) }

  /** Nothing lies below a directory that is not there. */
  lemma NothingBelow(t: Tree)
    requires t.Valid() && PROVENANCE !in t.dirs
    ensures Unissued(t)
  {
    forall p | PROVENANCE < p ensures !t.Has(p) { assert p[..1] == PROVENANCE; }
  }

  /** `t` is `base`, the provenance of `artifacts` and their manifest. */
  ghost predicate Published(base: Tree, t: Tree, artifacts: seq<Artifact>, manifest: string) {
    && Grown(base.(dirs := base.dirs + {PROVENANCE}), t, Provenances(artifacts) + {MANIFEST})
    && t.files[MANIFEST] == manifest
    && forall k :: 0 <= k < |artifacts| ==> t.files[ProvenancePaths(artifacts)[k]] == artifacts[k].statement
  }

  /** The provenance paths are free in a directory that was just made. */
  lemma EmptyProvenance(t: Tree, artifacts: seq<Artifact>)
    requires Accepted(artifacts) && !t.Has(PROVENANCE) && Unissued(t)
    ensures var made := t.(dirs := t.dirs + {PROVENANCE}); var names := ProvenancePaths(artifacts);
            && Distinct(names) && MANIFEST !in names
            && forall k :: 0 <= k < |names| ==> !made.Has(names[k]) && PROVENANCE < names[k]
  {
    ProvenanceDistinct(artifacts);
    var names := ProvenancePaths(artifacts);
    forall k | 0 <= k < |names| ensures PROVENANCE < names[k] && !t.Has(names[k]) && |names[k]| == 2 {
      assert names[k] == ProvenancePath(artifacts[k].id);
    }
  }

  /** Writing every provenance file and then the manifest publishes. */
  lemma WholeIsPublished(t: Tree, made: Tree, names: seq<Path>, texts: seq<string>, artifacts: seq<Artifact>,
                         manifest: string)
    requires names == ProvenancePaths(artifacts) && texts == Statements(artifacts)
    requires made == t.(dirs := t.dirs + {PROVENANCE}) && !made.Has(MANIFEST)
    requires Distinct(names) && MANIFEST !in names && forall k :: 0 <= k < |names| ==> !made.Has(names[k])
    ensures Published(t, Added(made, names, texts, |names|).With(MANIFEST, manifest), artifacts, manifest)
  {
    AddedWhole(made, names, texts, MANIFEST, manifest);
    var whole := Added(made, names, texts, |names|).With(MANIFEST, manifest);
    forall k | 0 <= k < |artifacts| ensures whole.files[names[k]] == artifacts[k].statement {
      assert texts[k] == artifacts[k].statement;
    }
  }

  /** The SBOM phase writes nothing below the provenance directory, which is not there. */
  lemma StillEmpty(t: Tree, after: Tree, written: seq<Path>)
    requires Unissued(t) && !t.Has(PROVENANCE) && Grown(t, after, set p <- written)
    requires forall p <- written :: after.Contains(p)
    ensures Unissued(after)
  {
    forall p | PROVENANCE < p ensures !after.Has(p) {
      assert !t.Has(p) && p[..1] == PROVENANCE;
      assert !after.Contains(p);
    }
  }

  /** Since `before`, a manifest was there only together with the files `needed`. */
  ghost predicate Backed(before: seq<Tree>, after: seq<Tree>, needed: set<Path>) {
    && before <= after
    && forall i :: |before| <= i < |after| && MANIFEST in after[i].files ==> needed <= after[i].files.Keys
  }

  lemma BackedJoin(h: seq<Tree>, i: seq<Tree>, j: seq<Tree>, needed: set<Path>)
    requires Backed(h, i, needed) && Backed(i, j, needed)
    ensures Backed(h, j, needed)
  {
    forall k | |h| <= k < |j| && MANIFEST in j[k].files ensures needed <= j[k].files.Keys {
      if k < |i| { assert j[k] == i[k]; }
    }
  }

  /** Every tree since `before` was sound. */
  ghost predicate SoundSince(before: seq<Tree>, after: seq<Tree>, artifacts: seq<Artifact>) {
    before <= after && forall i :: |before| <= i < |after| ==> Sound(after[i], artifacts)
  }

  /** Between the SBOM writes no manifest is there, unless an SBOM is generated under its name. */
  lemma SbomPhaseSound(before: seq<Tree>, after: seq<Tree>, t: Tree, artifacts: seq<Artifact>)
    requires !t.Has(MANIFEST) && Within(before, after, t, Generated(artifacts)) && MANIFEST !in Generated(artifacts)
    ensures SoundSince(before, after, artifacts)
  {}

  /** A manifest without any provenance is not sound. */
  lemma ClashUnsound(t: Tree, artifacts: seq<Artifact>)
    requires artifacts != [] && MANIFEST in t.files && Unissued(t)
    ensures !Sound(t, artifacts)
  {
    var p := ProvenancePaths(artifacts)[0];
    assert p == ProvenancePath(artifacts[0].id) && PROVENANCE < p && !t.Has(p);
    assert p in Named(artifacts);
  }

  /** The tree at the end of the SBOM phase is such a tree when an SBOM has taken the name. */
  lemma ClashStands(before: seq<Tree>, after: seq<Tree>, t: Tree, artifacts: seq<Artifact>)
    requires before != [] && before[|before| - 1] == t && before <= after && artifacts != []
    requires MANIFEST !in t.files
    requires var now := after[|after| - 1];
      (forall a <- artifacts :: a.sbom in now.files) && Unissued(now)
    requires MANIFEST in Generated(artifacts)
    ensures !SoundSince(before, after, artifacts)
  {
    var now := after[|after| - 1];
    GeneratedMeans(artifacts, MANIFEST);
    assert MANIFEST in now.files;
    assert |after| > |before|;
    ClashUnsound(now, artifacts);
  }

  lemma SoundJoin(h: seq<Tree>, i: seq<Tree>, j: seq<Tree>, artifacts: seq<Artifact>)
    requires h <= i <= j
    ensures SoundSince(h, j, artifacts) <==> SoundSince(h, i, artifacts) && SoundSince(i, j, artifacts)
  {
    assert forall k :: 0 <= k < |i| ==> i[k] == j[k];
  }

  /** A candidate whose SBOM is called manifest.json passes every check of the SBOM phase, and the
      SBOM then stands there as a manifest without its provenance. */
  lemma ClashExample() returns (t: Tree, a: Artifact)
    ensures t.Valid() && Accepted([a]) && !t.Has(MANIFEST) && !t.Has(PROVENANCE) && Ready(t, a)
    ensures a.sbom == MANIFEST && !Sound(t.With(a.sbom, a.document), [a])
  {
    t := Tree(map[["a"] := ""], {[]});
    a := Artifact("a", ["a"], MANIFEST, true, "", "");
    assert [a][..0] == [];
    assert MANIFEST[..0] == [] && ["a"][..0] == [];
    assert ".." != "manifest.json" by { assert ".."[0] != "manifest.json"[0]; }
    assert "a" != "manifest.json" && "a" != "provenance" by { assert |"a"| != |"provenance"|; }
    assert MANIFEST[0] != PROVENANCE[0] by { assert "manifest.json"[0] != "provenance"[0]; }
    ClashUnsound(t.With(a.sbom, a.document), [a]);
  }

  /** While only the files `extra` are added, no manifest is there. */
  lemma NoManifestYet(h: seq<Tree>, i: seq<Tree>, t: Tree, extra: set<Path>, needed: set<Path>)
    requires Within(h, i, t, extra) && MANIFEST !in t.files && MANIFEST !in extra
    ensures Backed(h, i, needed)
  {}

  /** Once the files `extra` are there, the manifest comes on top of them. */
  lemma ManifestOnTop(i: seq<Tree>, j: seq<Tree>, t: Tree, mid: Tree, extra: set<Path>)
    requires Within(i, j, mid, {MANIFEST}) && Grown(t, mid, extra)
    ensures Backed(i, j, t.files.Keys + extra)
  {}

  lemma AllAdded(t: Tree, names: seq<Path>, contents: seq<string>)
    requires |names| == |contents| && Distinct(names) && forall k :: 0 <= k < |names| ==> !t.Has(names[k])
    ensures Grown(t, Added(t, names, contents, |names|), set p <- names)
  {
    AddedGrown(t, names, contents, |names|);
    FirstsAll(names);
  }

  /** Every file that the SBOM phase wrote is the generated SBOM of an artifact. */
  ghost predicate Sourced(written: seq<Path>, now: Tree, artifacts: seq<Artifact>) {
    written == [] ||
    var p := written[|written| - 1];
    Sourced(written[..|written| - 1], now, artifacts) && p in now.files && IsSbom(p, now.files[p], artifacts)
  }

  lemma {:induction false} SourcedMeans(written: seq<Path>, now: Tree, artifacts: seq<Artifact>, p: Path)
    requires Sourced(written, now, artifacts) && p in written
    ensures p in now.files && IsSbom(p, now.files[p], artifacts)
    decreases |written|
  {
    var n := |written| - 1;
    if p != written[n] { SourcedMeans(written[..n], now, artifacts, p); }
  }

  lemma {:induction false} SourcedKept(written: seq<Path>, mid: Tree, now: Tree, artifacts: seq<Artifact>)
    requires Sourced(written, mid, artifacts)
    requires forall p :: p in mid.files ==> p in now.files && now.files[p] == mid.files[p]
    ensures Sourced(written, now, artifacts)
    decreases |written|
  {
    if written != [] { SourcedKept(written[..|written| - 1], mid, now, artifacts); }
  }

  ghost predicate IsSbom(p: Path, text: string, artifacts: seq<Artifact>) {
    exists a <- artifacts :: a.generates && a.sbom == p && a.document == text
  }

  /** The SBOM phase is over: the files `written` were added to `t`, all artifacts and SBOMs are
      there, and nothing is below the provenance directory. */
  ghost predicate Gathered(t: Tree, now: Tree, written: seq<Path>, artifacts: seq<Artifact>) {
    && Grown(t, now, set p <- written) && (set p <- written) <= Generated(artifacts)
    && (forall a <- artifacts :: a.path in now.files && a.sbom in now.files)
    && Unissued(now)
  }

  /** The SBOM phase keeps the trees sound unless an SBOM is generated as manifest.json; if it is and
      the phase completes, it does not. */
  lemma SbomPhase(before: seq<Tree>, after: seq<Tree>, t: Tree, ok: bool, written: seq<Path>, artifacts: seq<Artifact>)
    requires before != [] && before[|before| - 1] == t && artifacts != [] && !t.Has(MANIFEST)
    requires Within(before, after, t, Generated(artifacts))
    requires ok ==> Gathered(t, after[|after| - 1], written, artifacts)
    ensures MANIFEST !in Generated(artifacts) ==> SoundSince(before, after, artifacts)
    ensures ok && MANIFEST in Generated(artifacts) ==> !SoundSince(before, after, artifacts)
  {
    if MANIFEST !in Generated(artifacts) {
      SbomPhaseSound(before, after, t, artifacts);
    } else if ok {
      ClashStands(before, after, t, artifacts);
    }
  }

  /** A name that is not generated is there only if it was there before. */
  lemma GatheredNames(t: Tree, now: Tree, written: seq<Path>, artifacts: seq<Artifact>)
    requires Gathered(t, now, written, artifacts)
    ensures MANIFEST !in Generated(artifacts) && !t.Has(MANIFEST) ==> !now.Has(MANIFEST)
    ensures PROVENANCE !in Generated(artifacts) && !t.Has(PROVENANCE) ==> !now.Has(PROVENANCE)
  {}

  /** The candidate is complete: the manifest and all that it names are there, and nothing but
      generated SBOMs, provenance and the manifest was added to `t`. */
  ghost predicate Completed(t: Tree, now: Tree, artifacts: seq<Artifact>, manifest: string) {
    && MANIFEST in now.files && now.files[MANIFEST] == manifest && Named(artifacts) <= now.files.Keys
    && now.dirs == t.dirs + {PROVENANCE}
    && now.files.Keys <= t.files.Keys + Generated(artifacts) + Provenances(artifacts) + {MANIFEST}
    && forall p :: p in t.files ==> p in now.files && now.files[p] == t.files[p]
  }

  /** What the new files hold: each artifact's provenance, and otherwise generated SBOMs. */
  ghost predicate Filled(t: Tree, now: Tree, artifacts: seq<Artifact>) {
    && (forall a <- artifacts :: Issued(now, a)) && ["manifest.json"] in now.files
    && forall p :: p in now.files && p !in t.files && p != MANIFEST && p !in Provenances(artifacts) ==>
         IsSbom(p, now.files[p], artifacts)
  }

  /** The provenance of the artifact is in its file. */
  ghost predicate Issued(now: Tree, a: Artifact) {
    var p := ["provenance", a.id + ".intoto.json"];
    p in now.files && now.files[p] == a.statement
  }

  lemma PublishedCompletes(t: Tree, base: Tree, now: Tree, written: seq<Path>, artifacts: seq<Artifact>,
                           manifest: string)
    requires Gathered(t, base, written, artifacts)
    requires Published(base, now, artifacts, manifest)
    ensures Completed(t, now, artifacts, manifest)
  {
    assert Named(artifacts) <= base.files.Keys + Provenances(artifacts);
  }

  lemma PublishedFills(t: Tree, base: Tree, now: Tree, written: seq<Path>, artifacts: seq<Artifact>, manifest: string)
    requires Grown(t, base, set p <- written) && Sourced(written, base, artifacts)
    requires Published(base, now, artifacts, manifest)
    ensures Filled(t, now, artifacts)
  {
    forall a | a in artifacts ensures Issued(now, a) {
      var k :| 0 <= k < |artifacts| && artifacts[k] == a;
      assert ProvenancePaths(artifacts)[k] in ProvenancePaths(artifacts);
      assert ProvenancePaths(artifacts)[k] == ["provenance", a.id + ".intoto.json"];
    }
    forall p | p in now.files && p !in t.files && p != MANIFEST && p !in Provenances(artifacts)
      ensures IsSbom(p, now.files[p], artifacts)
    {
      assert p in base.files && p in written;
      SourcedMeans(written, base, artifacts, p);
    }
  }

  /** The SBOM phase has written these files, and nothing else has changed. */
  ghost predicate Written(t: Tree, now: Tree, written: seq<Path>, artifacts: seq<Artifact>) {
    && Grown(t, now, set p <- written) && (set p <- written) <= Generated(artifacts)
    && forall p <- written :: p !in now.dirs && now.Contains(p)
  }

  /** The first `i` artifacts and their SBOMs are there. */
  ghost predicate Present(now: Tree, artifacts: seq<Artifact>, i: nat) {
    i <= |artifacts| && forall k :: 0 <= k < i ==> artifacts[k].path in now.files && artifacts[k].sbom in now.files
  }

  lemma WrittenNext(t: Tree, mid: Tree, now: Tree, written: seq<Path>, artifacts: seq<Artifact>, i: nat, made: bool)
    requires i < |artifacts| && Written(t, mid, written, artifacts) && Present(mid, artifacts, i)
    requires var a := artifacts[i];
      if made then a.generates && !mid.Has(a.sbom) && mid.Contains(a.sbom) && now == mid.With(a.sbom, a.document)
      else now == mid
    ensures Written(t, now, if made then written + [artifacts[i].sbom] else written, artifacts)
    ensures Present(now, artifacts, i)
    ensures artifacts[i].path in mid.files && artifacts[i].sbom in now.files ==> Present(now, artifacts, i + 1)
  {
    GeneratedMeans(artifacts, artifacts[i].sbom);
  }

  lemma SourcedNext(mid: Tree, now: Tree, written: seq<Path>, artifacts: seq<Artifact>, a: Artifact)
    requires a in artifacts && a.generates && Sourced(written, mid, artifacts)
    requires !mid.Has(a.sbom) && now == mid.With(a.sbom, a.document)
    ensures Sourced(written + [a.sbom], now, artifacts)
  {
    SourcedKept(written, mid, now, artifacts);
    assert (written + [a.sbom])[..|written|] == written;
    assert IsSbom(a.sbom, a.document, artifacts);
  }

  /** How an operation goes: it succeeds, or it ends with an exception, or an interrupt such as
      KeyboardInterrupt comes in its place. The handlers of the assembly take exceptions only. */
  datatype Fault = Passed | Error | Interrupt

  /** What is left of the coming faults. */
  ghost predicate Left(after: seq<Fault>, before: seq<Fault>) { forall f <- after :: f in before }

  ghost predicate Calm(faults: seq<Fault>) { forall f <- faults :: f == Passed }

  class Candidate {
    /** The trees so far; the last of them is there now. */
    var history: seq<Tree>
    /** How the coming operations go. */
    var faults: seq<Fault>
    /** An interrupt is under way. */
    var interrupted: bool

    ghost predicate Valid()
      reads this
    {
      Linked(history)
    }

    function Now(): Tree
      requires history != []
      reads this
    {
      history[|history| - 1]
    }

    /** The next operation does not succeed. */
    method Fails() returns (fails: bool)
      requires !interrupted
      modifies this`faults, this`interrupted
      ensures Left(faults, old(faults)) && (interrupted ==> Interrupt in old(faults)) && (fails ==> !Calm(old(faults)))
      ensures old(faults) == [] ==> faults == [] && !fails && !interrupted
      ensures old(faults) != [] ==>
        && faults == old(faults)[1..] && fails == (old(faults)[0] != Passed)
        && interrupted == (old(faults)[0] == Interrupt)
    {
      if faults == [] { return false; }
      assert faults[0] in faults;
      fails, interrupted := faults[0] != Passed, faults[0] == Interrupt;
      faults := faults[1..];
    }

    /** Where the faults were `before`, an interrupt that is under way is one of them. */
    ghost predicate Ended(ok: bool, before: seq<Fault>)
      reads this
    {
      Left(faults, before) && (interrupted ==> !ok && Interrupt in before)
    }

    /** The only way in which the tree changes. */
    method Make(c: Change)
      requires Valid()
      modifies this`history
      ensures Valid() && history == old(history) + [Changed(old(Now()), c)]
    {
      LinkedSnoc(history, c);
      history := history + [Changed(Now(), c)];
    }

    /** Create a file, write it and sync it; a failure after creation removes it again. */
    method WriteFsynced(p: Path, content: string) returns (ok: bool)
      requires !interrupted && Valid()
      modifies this
      ensures Valid() && Ended(ok, old(faults))
      ensures ok ==> !old(Now()).Has(p) && Now() == old(Now()).With(p, content)
      ensures !ok ==> Now() == old(Now()) && (!Calm(old(faults)) || old(Now()).Has(p))
      ensures Within(old(history), history, old(Now()), {p})
    {
      ok := false;
      var refused := Fails();
      if refused || Now().Has(p) { return; }
      Make(Put(p, ""));
      var broken := Fails();
      if broken {
        Make(Remove(p));
        assert Now().files == old(Now()).files;
        return;
      }
      Make(Put(p, content));
      ok := true;
    }

    /** Publish a generated SBOM under its name; a failure after that removes it again. */
    method WriteSbom(p: Path, content: string) returns (ok: bool)
      requires !interrupted && Valid()
      modifies this
      ensures Valid() && Ended(ok, old(faults))
      ensures ok ==> !old(Now()).Has(p) && old(Now()).Contains(p) && Now() == old(Now()).With(p, content)
      ensures ok ==> p != [] && ".." !in p && forall k :: 0 <= k < |p| ==> p[..k] in old(Now()).dirs
      ensures !ok ==> Now() == old(Now())
      ensures !ok ==> !Calm(old(faults)) || old(Now()).Has(p) || !old(Now()).Contains(p)
      ensures Within(old(history), history, old(Now()), {p})
    {
      ok := false;
      var refused := Fails();
      if refused || Now().Has(p) || !Now().Contains(p) { return; }
      Make(Put(p, content));
      var broken := Fails();
      if broken {
        Make(Remove(p));
        assert Now().files == old(Now()).files;
        return;
      }
      ok := true;
    }

    /** Remove files that were added to `base`. */
    method Unlink(paths: seq<Path>, ghost base: Tree)
      requires Valid() && Grown(base, Now(), set p <- paths)
      modifies this`history
      ensures Valid() && Now() == base
      ensures Within(old(history), history, base, set p <- paths)
    {
      for i := 0 to |paths|
        invariant Valid() && Now().dirs == base.dirs
        invariant Now().files.Keys == old(Now()).files.Keys - (set p <- paths[..i])
        invariant forall p :: p in base.files ==> p in Now().files && Now().files[p] == base.files[p]
        invariant Within(old(history), history, base, set p <- paths)
      {
        Make(Remove(paths[i]));
      }
      assert paths[..|paths|] == paths;
      assert Now().files == base.files;
    }

    /** The same, at the end of a phase that began with `base` after the trees `start`. */
    method UnlinkSince(paths: seq<Path>, ghost start: seq<Tree>, ghost base: Tree, ghost extra: set<Path>)
      requires Valid() && Grown(base, Now(), set p <- paths) && (set p <- paths) <= extra
      requires Within(start, history, base, extra)
      modifies this`history
      ensures Valid() && Now() == base && Within(start, history, base, extra)
    {
      Unlink(paths, base);
      WithinJoin(start, old(history), history, base, base, extra, set p <- paths);
    }

    /** The SBOM phase for one artifact. */
    method CollectSbom(a: Artifact) returns (ok: bool, written: bool)
      requires !interrupted && Valid()
      modifies this
      ensures Valid() && Ended(ok, old(faults))
      ensures written ==> a.generates && !old(Now()).Has(a.sbom) && old(Now()).Contains(a.sbom)
      ensures written ==> Now() == old(Now()).With(a.sbom, a.document)
      ensures !written ==> Now() == old(Now())
      ensures ok ==> a.sbom in Now().files && a.path in old(Now()).files
      ensures !ok ==> !Calm(old(faults)) || !Ready(old(Now()), a)
      ensures Within(old(history), history, old(Now()), if a.generates then {a.sbom} else {})
    {
      ok, written := false, false;
      if a.path !in Now().files { return; }
      if a.generates && !Now().Has(a.sbom) {
        written := WriteSbom(a.sbom, a.document);
        if !written { return; }
      }
      if a.sbom !in Now().files { return; }
      var invalid := Fails();
      ok := !invalid;
    }

    /** The SBOM phase: all SBOMs are there, or those that were written are removed again. */
    method CollectSboms(artifacts: seq<Artifact>) returns (ok: bool, written: seq<Path>)
      requires !interrupted && Valid()
      modifies this
      ensures Valid() && Ended(ok, old(faults))
      ensures !ok && !interrupted ==> Now() == old(Now())
      ensures interrupted ==> Grown(old(Now()), Now(), set p <- written)
      ensures !ok ==> !Calm(old(faults)) || exists a <- artifacts :: !Ready(old(Now()), a)
      ensures ok ==> Grown(old(Now()), Now(), set p <- written) && (set p <- written) <= Generated(artifacts)
      ensures ok ==> Sourced(written, Now(), artifacts)
      ensures ok ==> forall p <- written :: p !in Now().dirs && Now().Contains(p)
      ensures ok ==> forall a <- artifacts :: a.path in Now().files && a.sbom in Now().files
      ensures Within(old(history), history, old(Now()), Generated(artifacts))
    {
      ok, written := true, [];
      for i := 0 to |artifacts|
        invariant Valid() && Ended(ok, old(faults))
        invariant Written(old(Now()), Now(), written, artifacts) && Present(Now(), artifacts, i)
        invariant Sourced(written, Now(), artifacts)
        invariant Within(old(history), history, old(Now()), Generated(artifacts))
      {
        var a := artifacts[i];
        ghost var before, past := Now(), history;
        assert Ready(old(Now()), a) ==> Ready(before, a);
        var made;
        ok, made := CollectSbom(a);
        GeneratedMeans(artifacts, a.sbom);
        ghost var extra := if a.generates then {a.sbom} else {};
        WithinJoin(old(history), past, history, old(Now()), before, Generated(artifacts), extra);
        WrittenNext(old(Now()), before, Now(), written, artifacts, i, made);
        if made {
          SourcedNext(before, Now(), written, artifacts, a);
          written := written + [a.sbom];
        }
        if !ok {
          assert !Calm(old(faults)) || !Ready(old(Now()), a);
          if interrupted { return; }
          UnlinkSince(written, old(history), old(Now()), Generated(artifacts));
          return;
        }
      }
    }

    /** Write the provenance files one by one, stopping at the first failure. */
    method WriteAll(names: seq<Path>, contents: seq<string>) returns (ok: bool, ghost count: nat)
      requires !interrupted && Valid()
      requires |names| == |contents| && Distinct(names) && forall k :: 0 <= k < |names| ==> !Now().Has(names[k])
      modifies this
      ensures Valid() && Ended(ok, old(faults))
      ensures count <= |names| && Now() == Added(old(Now()), names, contents, count)
      ensures if ok then count == |names| else !Calm(old(faults))
      ensures Within(old(history), history, old(Now()), set p <- names)
    {
      ok, count := true, 0;
      for i := 0 to |names|
        invariant Valid() && ok && count == i && Ended(ok, old(faults))
        invariant Now() == Added(old(Now()), names, contents, i)
        invariant Within(old(history), history, old(Now()), set p <- names)
      {
        ghost var before, past := Now(), history;
        AddedGrown(old(Now()), names, contents, i);
        ok := WriteFsynced(names[i], contents[i]);
        WithinJoin(old(history), past, history, old(Now()), before, set p <- names, {names[i]});
        if !ok { return; }
        count := i + 1;
      }
    }

    /** Remove the provenance directory and what is in it. */
    method RemoveProvenance(ghost base: Tree, ghost extra: set<Path>)
      requires Valid()
      requires Grown(base.(dirs := base.dirs + {PROVENANCE}), Now(), extra) && PROVENANCE !in base.dirs
      requires (forall p :: p in extra ==> PROVENANCE < p) && Unissued(base)
      modifies this`history
      ensures Valid() && Now() == base && old(history) <= history
      ensures forall i :: |old(history)| <= i < |history| ==> history[i].files.Keys <= old(Now()).files.Keys
    {
      var inside := set p | p in Now().files && PROVENANCE < p;
      forall p | p in inside ensures p in extra { assert !base.Has(p); }
      assert inside == extra;
      while inside != {}
        invariant Valid() && old(history) <= history
        invariant inside <= extra && Grown(base.(dirs := base.dirs + {PROVENANCE}), Now(), inside)
        invariant forall i :: |old(history)| <= i < |history| ==> history[i].files.Keys <= old(Now()).files.Keys
      {
        var p :| p in inside;
        Make(Remove(p));
        inside := inside - {p};
      }
      Make(RemoveDir(PROVENANCE));
      assert Now().files == base.files;
    }

    /** Write the manifest and validate the candidate; a failure removes the manifest. */
    method IssueManifest(manifest: string) returns (ok: bool)
      requires !interrupted && Valid()
      modifies this
      ensures Valid() && Ended(ok, old(faults)) && (ok ==> !old(Now()).Has(MANIFEST))
      ensures ok ==> Now() == old(Now()).With(MANIFEST, manifest)
      ensures !ok && !interrupted ==> Now() == old(Now())
      ensures !ok ==> !Calm(old(faults)) || old(Now()).Has(MANIFEST)
      ensures Within(old(history), history, old(Now()), {MANIFEST})
    {
      ok := WriteFsynced(MANIFEST, manifest);
      if !ok { return; }
      var bad := Fails();
      if !bad { bad := Fails(); }
      ok := !bad;
      if bad && !interrupted {
        Make(Remove(MANIFEST));
        assert Now().files == old(Now()).files;
      }
    }

    /** Sync the two directories, and then write the manifest. */
    method IssueSynced(manifest: string) returns (ok: bool)
      requires !interrupted && Valid()
      modifies this
      ensures Valid() && Ended(ok, old(faults)) && (ok ==> !old(Now()).Has(MANIFEST))
      ensures ok ==> Now() == old(Now()).With(MANIFEST, manifest)
      ensures !ok && !interrupted ==> Now() == old(Now())
      ensures !ok ==> !Calm(old(faults)) || old(Now()).Has(MANIFEST)
      ensures Within(old(history), history, old(Now()), {MANIFEST})
    {
      var unsynced := Fails();
      if !unsynced { unsynced := Fails(); }
      if unsynced { return false; }
      ok := IssueManifest(manifest);
    }

    /** Write the provenance, then the manifest; after a failure the provenance that was written
        stays for the caller to remove. */
    method Issue(names: seq<Path>, contents: seq<string>, manifest: string) returns (ok: bool, ghost count: nat)
      requires !interrupted && Valid()
      requires |names| == |contents| && Distinct(names) && MANIFEST !in names
      requires forall k :: 0 <= k < |names| ==> !Now().Has(names[k])
      modifies this
      ensures Valid() && Ended(ok, old(faults)) && count <= |names|
      ensures ok ==> !old(Now()).Has(MANIFEST) && count == |names|
      ensures ok ==> Now() == Added(old(Now()), names, contents, count).With(MANIFEST, manifest)
      ensures !ok && !interrupted ==> Now() == Added(old(Now()), names, contents, count)
      ensures !ok ==> !Calm(old(faults)) || old(Now()).Has(MANIFEST)
      ensures old(history) <= history
      ensures MANIFEST !in old(Now()).files ==>
                Backed(old(history), history, old(Now()).files.Keys + set p <- names)
    {
      ghost var needed := old(Now()).files.Keys + set p <- names;
      ok, count := WriteAll(names, contents);
      if MANIFEST !in old(Now()).files {
        NoManifestYet(old(history), history, old(Now()), (set p <- names), needed);
      }
      if !ok { return; }
      ghost var before, past := Now(), history;
      AllAdded(old(Now()), names, contents);
      ok := IssueSynced(manifest);
      ManifestOnTop(past, history, old(Now()), before, set p <- names);
      if MANIFEST !in old(Now()).files { BackedJoin(old(history), past, history, needed); }
    }

    /** Fill the provenance directory that was just made in `t` and write the manifest, or undo all of it. */
    method Fill(artifacts: seq<Artifact>, manifest: string, ghost t: Tree) returns (ok: bool)
      requires !interrupted && Valid() && Accepted(artifacts) && Unissued(t) && !t.Has(PROVENANCE)
      requires Now() == t.(dirs := t.dirs + {PROVENANCE})
      modifies this
      ensures Valid() && old(history) <= history && Ended(ok, old(faults))
      ensures ok ==> Published(t, Now(), artifacts, manifest) && !t.Has(MANIFEST)
      ensures !ok && !interrupted ==> Now() == t
      ensures !ok ==> !Calm(old(faults)) || t.Has(MANIFEST)
      ensures MANIFEST !in t.files ==> Backed(old(history), history, t.files.Keys + Provenances(artifacts))
    {
      ghost var base, needed := Now(), t.files.Keys + Provenances(artifacts);
      ghost var count;
      EmptyProvenance(t, artifacts);
      ok, count := Issue(ProvenancePaths(artifacts), Statements(artifacts), manifest);
      if ok {
        WholeIsPublished(t, base, ProvenancePaths(artifacts), Statements(artifacts), artifacts, manifest);
      } else if !interrupted {
        AddedGrown(base, ProvenancePaths(artifacts), Statements(artifacts), count);
        ghost var past := history;
        RemoveProvenance(t, Firsts(ProvenancePaths(artifacts), count));
        if MANIFEST !in t.files { BackedJoin(old(history), past, history, needed); }
      }
    }

    /** Create the provenance directory, fill it and write the manifest, or undo all of it. */
    method Publish(artifacts: seq<Artifact>, manifest: string) returns (ok: bool)
      requires !interrupted && Valid() && Accepted(artifacts) && Unissued(Now())
      modifies this
      ensures Valid() && old(history) <= history && Ended(ok, old(faults))
      ensures ok ==> Published(old(Now()), Now(), artifacts, manifest)
      ensures !ok && !interrupted ==> Now() == old(Now())
      ensures ok ==> !old(Now()).Has(MANIFEST) && !old(Now()).Has(PROVENANCE)
      ensures !ok ==> !Calm(old(faults)) || old(Now()).Has(MANIFEST) || old(Now()).Has(PROVENANCE)
      ensures MANIFEST !in old(Now()).files ==>
                Backed(old(history), history, old(Now()).files.Keys + Provenances(artifacts))
    {
      ok := false;
      var refused := Fails();
      if refused || Now().Has(PROVENANCE) { return; }
      Make(MakeDir(PROVENANCE));
      ghost var start := history;
      ok := Fill(artifacts, manifest, old(Now()));
      if MANIFEST !in old(Now()).files {
        BackedJoin(old(history), start, history, old(Now()).files.Keys + Provenances(artifacts));
      }
    }

    /** The publication phase, after the SBOM phase added the files `written` to `start`. */
    method Finish(artifacts: seq<Artifact>, manifest: string, written: seq<Path>, ghost start: Tree)
      returns (ok: bool)
      requires !interrupted && Valid() && Accepted(artifacts) && Gathered(start, Now(), written, artifacts)
      modifies this
      ensures Valid() && old(history) <= history && Ended(ok, old(faults))
      ensures ok ==> Published(old(Now()), Now(), artifacts, manifest)
      ensures !ok && !interrupted ==> Now() == start
      ensures ok ==> !old(Now()).Has(MANIFEST) && !old(Now()).Has(PROVENANCE)
      ensures !ok ==> !Calm(old(faults)) || old(Now()).Has(MANIFEST) || old(Now()).Has(PROVENANCE)
      ensures MANIFEST !in old(Now()).files ==> SoundSince(old(history), history, artifacts)
    {
      ghost var needed := Now().files.Keys + Provenances(artifacts);
      assert Named(artifacts) <= needed;
      ok := Publish(artifacts, manifest);
      if !ok && !interrupted {
        ghost var past := history;
        Unlink(written, start);
        if MANIFEST !in old(Now()).files {
          NoManifestYet(past, history, start, (set p <- written), needed);
          BackedJoin(old(history), past, history, needed);
        }
      }
    }

    /** The SBOM phase, for an accepted input and free names, and what it says about the manifest. */
    method CollectFree(artifacts: seq<Artifact>) returns (ok: bool, written: seq<Path>)
      requires !interrupted && Valid() && Unissued(Now()) && Accepted(artifacts)
      requires !Now().Has(MANIFEST) && !Now().Has(PROVENANCE)
      modifies this
      ensures Valid() && old(history) <= history && Ended(ok, old(faults))
      ensures ok ==> Gathered(old(Now()), Now(), written, artifacts) && Sourced(written, Now(), artifacts)
      ensures !ok && !interrupted ==> Now() == old(Now())
      ensures !ok ==> !Calm(old(faults)) || !Collectable(old(Now()), artifacts)
      ensures MANIFEST !in Generated(artifacts) ==> SoundSince(old(history), history, artifacts)
      ensures ok && MANIFEST in Generated(artifacts) ==> !SoundSince(old(history), history, artifacts)
    {
      ok, written := CollectSboms(artifacts);
      if ok { StillEmpty(old(Now()), Now(), written); }
      SbomPhase(old(history), history, old(Now()), ok, written, artifacts);
    }

    /** The two phases, for an accepted input and free names. */
    method AssembleFree(artifacts: seq<Artifact>, manifest: string) returns (ok: bool)
      requires !interrupted && Valid() && Unissued(Now()) && Accepted(artifacts)
      requires !Now().Has(MANIFEST) && !Now().Has(PROVENANCE)
      modifies this
      ensures Valid() && old(history) <= history && Ended(ok, old(faults))
      ensures ok ==> Completed(old(Now()), Now(), artifacts, manifest) && Filled(old(Now()), Now(), artifacts)
      ensures !ok && !interrupted ==> Now() == old(Now())
      ensures Possible(old(Now()), artifacts) && Calm(old(faults)) ==> ok
      ensures MANIFEST !in Generated(artifacts) ==> SoundSince(old(history), history, artifacts)
      ensures MANIFEST in Generated(artifacts) && Collectable(old(Now()), artifacts) && Calm(old(faults)) ==>
                !SoundSince(old(history), history, artifacts)
    {
      var written;
      ok, written := CollectFree(artifacts);
      if !ok { return; }
      ghost var base, past := Now(), history;
      GatheredNames(old(Now()), base, written, artifacts);
      ok := Finish(artifacts, manifest, written, old(Now()));
      SoundJoin(old(history), past, history, artifacts);
      if ok {
        PublishedCompletes(old(Now()), base, Now(), written, artifacts, manifest);
        PublishedFills(old(Now()), base, Now(), written, artifacts, manifest);
      }
    }

    /** Assemble a candidate. An exception undoes everything; an interrupt leaves one of the trees in
        between. */
    method Assemble(artifacts: seq<Artifact>, manifest: string) returns (ok: bool)
      requires !interrupted && Valid() && Now().Valid()
      modifies this
      ensures Valid() && old(history) <= history && Ended(ok, old(faults))
      ensures ok ==> Completed(old(Now()), Now(), artifacts, manifest) && Filled(old(Now()), Now(), artifacts)
      ensures !ok && !interrupted ==> Now() == old(Now())
      ensures interrupted && MANIFEST !in Generated(artifacts) ==> Now() == old(Now()) || Sound(Now(), artifacts)
      ensures Possible(old(Now()), artifacts) && Calm(old(faults)) ==> ok
      ensures MANIFEST !in Generated(artifacts) ==> SoundSince(old(history), history, artifacts)
      ensures Collectable(old(Now()), artifacts) && Calm(old(faults)) ==>
                (SoundSince(old(history), history, artifacts) <==> MANIFEST !in Generated(artifacts))
    {
      ok := false;
      if Now().Has(MANIFEST) || !Accepted(artifacts) || Now().Has(PROVENANCE) { return; }
      NothingBelow(Now());
      ok := AssembleFree(artifacts, manifest);
    }
  }
}
