/** Binding an SBOM is one renaming of one graph (scripts/generate-crate-sboms.py), and when it is not. */
module SbomTheorems {
  import opened Text
  import opened SbomRename
  import opened SbomGraph

  /** The components follow the renaming that the dependencies follow, exactly when components that
      share a local reference share their name and version too. */
  lemma OneRenaming(b: Binding, cs: seq<Component>)
    ensures (forall c <- cs :: Own(b, c) == Apply(Noted(b, Start(b), cs), Plain(c.ref))) <==> Coherent(b, cs)
  {
    var m := Noted(b, Start(b), cs);
    if Coherent(b, cs) {
      forall c | c in cs ensures Own(b, c) == Apply(m, Plain(c.ref)) { OwnFollows(b, cs, c); }
    }
    if forall c <- cs :: Own(b, c) == Apply(m, Plain(c.ref)) {
      forall c, d | c in cs && d in cs && Renames(b, c) && c.ref == d.ref ensures Label(c) == Label(d) {
        assert Own(b, c) == NewName(b, c) && Own(b, d) == NewName(b, d);
        SameName(b, c, d);
      }
    }
  }

  lemma OwnFollows(b: Binding, cs: seq<Component>, c: Component)
    requires Coherent(b, cs) && c in cs
    ensures Own(b, c) == Apply(Noted(b, Start(b), cs), Plain(c.ref))
  {
    var m, x := Noted(b, Start(b), cs), Plain(c.ref);
    NotedMeans(b, cs, x);
    if Renames(b, c) {
      var k :| 0 <= k < |cs| && cs[k] == c;
      assert RenamesFrom(b, cs[k], x);
      var i :| LastBearer(b, cs, x, i) && m[x] == NewName(b, cs[i]);
      var d := cs[i];
      assert c.ref.Some? && d.ref.Some? by { LocalIsText(b, c); LocalIsText(b, d); }
      SameName(b, c, d);
    }
  }

  lemma LocalIsText(b: Binding, c: Component)
    requires Renames(b, c)
    ensures c.ref.Some?
  {
    assert |PATH| > 0 && |FILE| > 0;
  }

  ghost predicate InjectiveOn(m: Renaming, refs: set<string>) {
    forall x, y :: x in refs && y in refs && Apply(m, x) == Apply(m, y) ==> x == y
  }

  /** A reference that is left alone is not one of the new names. */
  ghost predicate Untouched(m: Renaming, refs: set<string>) {
    forall x, k :: x in refs && x !in m && k in m ==> x != m[k]
  }

  /** Among references that include the renamed ones, no two are merged exactly when no reference
      that is left alone equals a new name. */
  lemma MergesNothing(m: Renaming, refs: set<string>)
    requires Injective(m) && m.Keys <= refs
    ensures InjectiveOn(m, refs) <==> Untouched(m, refs)
  {
    if InjectiveOn(m, refs) {
      forall x, k | x in refs && x !in m && k in m ensures x != m[k] {
        assert Apply(m, x) == x && Apply(m, k) == m[k];
      }
    }
  }

  ghost predicate Edge(ds: seq<Dependency>, u: string, v: string) {
    exists i :: 0 <= i < |ds| && ds[i].ref == u && ds[i].dependsOn.Some? && v in ds[i].dependsOn.value
  }

  /** Every edge is kept. */
  lemma EdgeKept(m: Renaming, ds: seq<Dependency>, u: string, v: string)
    requires Edge(ds, u, v)
    ensures Edge(MovedAll(m, ds), Apply(m, u), Apply(m, v))
  {
    var i :| 0 <= i < |ds| && ds[i].ref == u && ds[i].dependsOn.Some? && v in ds[i].dependsOn.value;
    var edges := ds[i].dependsOn.value;
    var j :| 0 <= j < |edges| && edges[j] == v;
    assert MovedEdges(m, edges)[j] == Apply(m, v);
    assert MovedAll(m, ds)[i] == Moved(m, ds[i]);
  }

  /** The references of the dependency graph. */
  ghost predicate Mentions(ds: seq<Dependency>, refs: set<string>) {
    forall i :: 0 <= i < |ds| ==>
      ds[i].ref in refs && (ds[i].dependsOn.Some? ==> forall e <- ds[i].dependsOn.value :: e in refs)
  }

  /** No edge is made up. */
  lemma EdgeReflected(m: Renaming, ds: seq<Dependency>, refs: set<string>, u: string, v: string)
    requires InjectiveOn(m, refs) && Mentions(ds, refs) && u in refs && v in refs
    requires Edge(MovedAll(m, ds), Apply(m, u), Apply(m, v))
    ensures Edge(ds, u, v)
  {
    var moved := MovedAll(m, ds);
    var i :| 0 <= i < |moved| && moved[i].ref == Apply(m, u)
      && moved[i].dependsOn.Some? && Apply(m, v) in moved[i].dependsOn.value;
    assert moved[i] == Moved(m, ds[i]);
    var edges := ds[i].dependsOn.value;
    var j :| 0 <= j < |edges| && MovedEdges(m, edges)[j] == Apply(m, v);
    assert edges[j] in edges;
  }

  /** The components `ys` are the components `xs`, place by place, under their new references. */
  ghost predicate Follows(b: Binding, xs: seq<Component>, ys: seq<Component>) {
    && |xs| == |ys|
    && forall i :: 0 <= i < |xs| ==>
         && ys[i].ref == Some(Own(b, xs[i])) && ys[i].name == xs[i].name && ys[i].version == xs[i].version
         && |ys[i].nested| == |xs[i].nested|
         && ys[i].purl == if Contains(Plain(xs[i].purl), "file://")
                          then Some("pkg:cargo/" + b.quote(Plain(xs[i].name)) + "@" + b.quote(Plain(xs[i].version)))
                          else xs[i].purl
  }

  lemma FollowsJoin(b: Binding, xs: seq<Component>, ys: seq<Component>, us: seq<Component>, vs: seq<Component>)
    requires Follows(b, xs, ys) && Follows(b, us, vs)
    ensures Follows(b, xs + us, ys + vs)
  {}

  lemma {:induction false} TreeFollows(b: Binding, c: Component)
    ensures Follows(b, Pre(c), Pre(BoundTree(b, c)))
    decreases c
  {
    ForestFollows(b, c.nested);
    FollowsJoin(b, [c], [BoundTree(b, c)], PreAll(c.nested), PreAll(BoundAll(b, c.nested)));
  }

  lemma {:induction false} ForestFollows(b: Binding, cs: seq<Component>)
    ensures |BoundAll(b, cs)| == |cs| && Follows(b, PreAll(cs), PreAll(BoundAll(b, cs)))
    decreases cs
  {
    if cs != [] {
      var n := |cs| - 1;
      ForestFollows(b, cs[..n]);
      TreeFollows(b, cs[n]);
      assert BoundAll(b, cs)[..n] == BoundAll(b, cs[..n]);
      FollowsJoin(b, PreAll(cs[..n]), PreAll(BoundAll(b, cs[..n])), Pre(cs[n]), Pre(BoundTree(b, cs[n])));
    }
  }

  /** The component tree keeps its shape: in visiting order every component has as many children as
      before and the reference that the dependencies use for it, when components that share a local
      reference share name and version. */
  lemma ComponentsFollow(b: Binding, sbom: Sbom, i: nat)
    requires Coherent(b, Everything(sbom)) && i < |Everything(sbom)|
    ensures |Everything(Result(b, sbom))| == |Everything(sbom)|
    ensures var c, d := Everything(sbom)[i], Everything(Result(b, sbom))[i];
      && d.ref == Some(Apply(Final(b, sbom), Plain(c.ref))) && |d.nested| == |c.nested|
      && d.name == c.name && d.version == c.version
  {
    TreeFollows(b, sbom.root);
    ForestFollows(b, sbom.components);
    FollowsJoin(b, Pre(sbom.root), Pre(BoundTree(b, sbom.root)),
                PreAll(sbom.components), PreAll(BoundAll(b, sbom.components)));
    OwnFollows(b, Everything(sbom), Everything(sbom)[i]);
  }

  /** Whatever the document, each component ends with the reference that its own fields give: the root's
      becomes the artifact, a local one is replaced, any other is kept; and a local package URL is replaced
      by one of its name and version. */
  lemma ComponentsBound(b: Binding, sbom: Sbom, i: nat)
    requires i < |Everything(sbom)|
    ensures |Everything(Result(b, sbom))| == |Everything(sbom)|
    ensures var c, d := Everything(sbom)[i], Everything(Result(b, sbom))[i];
      var ref, name, version := Plain(c.ref), Plain(c.name), Plain(c.version);
      && (ref == b.root ==> d.ref == Some(b.artifact))
      && (ref != b.root && ("path+file:" <= ref || Contains(ref, "file://")) ==>
            d.ref == Some("cargo-local:" + name + "@" + version + ":" + b.digest(ref)))
      && (ref != b.root && !("path+file:" <= ref) && !Contains(ref, "file://") ==> d.ref == Some(ref))
      && d.purl == if Contains(Plain(c.purl), "file://")
                   then Some("pkg:cargo/" + b.quote(name) + "@" + b.quote(version)) else c.purl
  {
    TreeFollows(b, sbom.root);
    ForestFollows(b, sbom.components);
    FollowsJoin(b, Pre(sbom.root), Pre(BoundTree(b, sbom.root)),
                PreAll(sbom.components), PreAll(BoundAll(b, sbom.components)));
  }

  ghost predicate LocalPath(s: string) { Contains(s, "file://") || Contains(s, "path+file:") }

  /** What is known of an accepted document: its components have references, the local ones also names and
      versions, one dependency entry is the root's, and no text of the result names a local path. */
  lemma AcceptedMeans(b: Binding, sbom: Sbom, name: string, version: string)
    requires Binds(b, sbom, name, version)
    ensures sbom.root.ref == Some(b.root) && sbom.root.name == Some(name) && sbom.root.version == Some(version)
    ensures forall c <- Everything(sbom) :: exists ref :: c.ref == Some(ref) && ref != ""
    ensures forall c <- Everything(sbom) ::
      && (Plain(c.ref) != b.root && ("path+file:" <= Plain(c.ref) || Contains(Plain(c.ref), "file://")) ==>
            c.name.Some? && c.version.Some?)
      && (Contains(Plain(c.purl), "file://") ==> c.name.Some? && c.version.Some?)
    ensures exists i :: 0 <= i < |sbom.dependencies| && sbom.dependencies[i].ref == b.root
    ensures forall i, j :: 0 <= i < j < |sbom.dependencies| ==>
      sbom.dependencies[i].ref != b.root || sbom.dependencies[j].ref != b.root
    ensures forall c <- Everything(Result(b, sbom)), s <- [c.ref, c.name, c.version, c.purl] :: !LocalPath(Plain(s))
    ensures forall d <- Result(b, sbom).dependencies ::
      d.dependsOn.Some? && forall s <- [d.ref] + d.dependsOn.value :: !LocalPath(s)
  {
    OneRoot(b.root, sbom.dependencies);
    forall c | c in Everything(sbom) ensures exists ref :: c.ref == Some(ref) && ref != "" {
      assert Accepts(b, c) && c.ref == Some(Plain(c.ref));
    }
    forall c, s | c in Everything(Result(b, sbom)) && s in [c.ref, c.name, c.version, c.purl]
      ensures !LocalPath(Plain(s))
    {
      assert CleanComponent(c);
    }
    var ds := Result(b, sbom).dependencies;
    forall d | d in ds
      ensures d.dependsOn.Some? && forall s <- [d.ref] + d.dependsOn.value :: !LocalPath(s)
    {
      var i :| 0 <= i < |ds| && ds[i] == d;
      assert sbom.dependencies[i] in sbom.dependencies;
      assert CleanDependency(d);
    }
  }

  lemma {:induction false} NoRoots(root: string, ds: seq<Dependency>, i: nat)
    requires i < |ds| && RootNodes(root, ds) == 0
    ensures ds[i].ref != root
  {
    if i < |ds| - 1 { NoRoots(root, ds[..|ds| - 1], i); }
  }

  lemma {:induction false} OneRoot(root: string, ds: seq<Dependency>)
    requires RootNodes(root, ds) == 1
    ensures exists i :: 0 <= i < |ds| && ds[i].ref == root
    ensures forall i, j :: 0 <= i < j < |ds| ==> ds[i].ref != root || ds[j].ref != root
  {
    var n := |ds| - 1;
    if ds[n].ref == root {
      forall i | 0 <= i < n ensures ds[i].ref != root { NoRoots(root, ds[..n], i); }
    } else {
      OneRoot(root, ds[..n]);
      var i :| 0 <= i < n && ds[..n][i].ref == root;
      assert ds[i].ref == root;
      forall i, j | 0 <= i < j < |ds| ensures ds[i].ref != root || ds[j].ref != root {
        if j < n { assert ds[..n][i] == ds[i] && ds[..n][j] == ds[j]; }
      }
    }
  }

  /** An accepted SBOM is a graph whose renaming is one-to-one: the root becomes the artifact and the
      edges are exactly the old ones, provided no reference that is left alone is a new name. */
  lemma BindingIsIsomorphism(b: Binding, sbom: Sbom, name: string, version: string, refs: set<string>,
                             u: string, v: string)
    requires Binds(b, sbom, name, version) && Final(b, sbom).Keys <= refs && Mentions(sbom.dependencies, refs)
    requires Untouched(Final(b, sbom), refs) && u in refs && v in refs
    ensures Result(b, sbom).root.ref == Some(b.artifact) && Apply(Final(b, sbom), b.root) == b.artifact
    ensures Apply(Final(b, sbom), u) == Apply(Final(b, sbom), v) <==> u == v
    ensures Edge(Result(b, sbom).dependencies, Apply(Final(b, sbom), u), Apply(Final(b, sbom), v)) <==>
      Edge(sbom.dependencies, u, v)
  {
    var m := Final(b, sbom);
    NotedMeans(b, Everything(sbom), b.root);
    MergesNothing(m, refs);
    if Edge(sbom.dependencies, u, v) { EdgeKept(m, sbom.dependencies, u, v); }
    if Edge(MovedAll(m, sbom.dependencies), Apply(m, u), Apply(m, v)) {
      EdgeReflected(m, sbom.dependencies, refs, u, v);
    }
  }

  lemma LocalIsLocalText(s: string)
    requires IsLocal(s)
    ensures LocalText(s)
  {
    if PATH <= s { assert At(s, PATH, 0); }
  }

  /** In an accepted SBOM, a local reference at either end of an edge is the root's or a component's. */
  lemma LocalEndsAreComponents(b: Binding, sbom: Sbom, name: string, version: string, d: Dependency, x: string)
    requires Binds(b, sbom, name, version) && d in sbom.dependencies
    requires x == d.ref || (d.dependsOn.Some? && x in d.dependsOn.value)
    requires IsLocal(x)
    ensures x == b.root || exists c <- Everything(sbom) :: Plain(c.ref) == x
    ensures !LocalText(Apply(Final(b, sbom), x))
  {
    var m := Final(b, sbom);
    NotedMeans(b, Everything(sbom), x);
    if i :| 0 <= i < |Everything(sbom)| && RenamesFrom(b, Everything(sbom)[i], x) {
      assert Everything(sbom)[i] in Everything(sbom);
    }
    LocalIsLocalText(x);
    EndIsClean(m, sbom.dependencies, d, x);
  }

  lemma EndIsClean(m: Renaming, ds: seq<Dependency>, d: Dependency, x: string)
    requires d in ds && (x == d.ref || (d.dependsOn.Some? && x in d.dependsOn.value))
    requires forall e <- MovedAll(m, ds) :: CleanDependency(e)
    ensures !LocalText(Apply(m, x))
  {
    var i :| 0 <= i < |ds| && ds[i] == d;
    assert MovedAll(m, ds)[i] in MovedAll(m, ds) && MovedAll(m, ds)[i] == Moved(m, d);
    if x != d.ref {
      var edges := d.dependsOn.value;
      var j :| 0 <= j < |edges| && edges[j] == x;
      assert MovedEdges(m, edges)[j] in MovedEdges(m, edges);
    }
  }

  lemma OccurrenceHolds(s: string, p: string, i: int, k: nat)
    requires At(s, p, i) && k < |p|
    ensures p[k] in s
  {
    assert s[i..i + |p|][k] == s[i + k];
  }

  lemma WithoutChar(s: string, p: string, k: nat)
    requires k < |p| && p[k] !in s
    ensures !Contains(s, p) && !(p <= s)
  {
    if i :| 0 <= i <= |s| && At(s, p, i) { OccurrenceHolds(s, p, i, k); }
    if p <= s { OccurrenceHolds(s, p, 0, k); }
  }

  /** A text without a slash and a plus sign names no local path. */
  lemma PlainTextIsClean(s: string)
    requires '/' !in s && '+' !in s
    ensures !LocalText(s) && !IsLocal(s)
  {
    WithoutChar(s, FILE, 5);
    WithoutChar(s, PATH, 4);
  }

  function Leaf(ref: string, name: string): Component { Component(Some(ref), Some(name), Some("1"), None, []) }

  lemma LeavesInOrder(root: Component, c: Component, d: Component)
    requires root.nested == [] && c.nested == [] && d.nested == []
    ensures Pre(root) + PreAll([c, d]) == [root, c, d]
    ensures forall b :: BoundAll(b, [c, d]) == [BoundTree(b, c), BoundTree(b, d)]
  {
    assert [c, d][..1] == [c] && [c][..0] == [];
    assert Pre(root) == [root] && Pre(c) == [c] && Pre(d) == [d];
    assert PreAll([c]) == [c] && PreAll([c, d]) == [c] + [d];
  }

  /** An accepted SBOM in which a component that is left alone already bears the new name of another
      one: afterwards both have the same reference. */
  lemma MergeExample() returns (b: Binding, sbom: Sbom)
    ensures Binds(b, sbom, "n", "1") && |sbom.components| == 2 == |Result(b, sbom).components|
    ensures sbom.components[0].ref != sbom.components[1].ref
    ensures Result(b, sbom).components[0].ref == Result(b, sbom).components[1].ref
  {
    var local := PATH + "a";
    b := Binding("r", "art", (x: string) => "d", (x: string) => x);
    var taken := NewName(b, Leaf(local, "a"));
    sbom := Sbom(Leaf("r", "n"), [Leaf(local, "a"), Leaf(taken, "b")], [Dependency("r", Some([local]))]);
    assert taken == "cargo-local:" + "a" + "@" + "1" + ":" + "d";
    assert PATH <= local;
    assert |local| == 11 && |taken| == 17;
    MergeAccepted(b, sbom, local);
  }

  lemma MergeFinal(b: Binding, root: Component, c: Component, d: Component)
    requires Renames(b, c) && !Renames(b, d) && !Renames(b, root)
    ensures Noted(b, Start(b), [root, c, d]) == map[b.root := b.artifact, Plain(c.ref) := NewName(b, c)]
  {
    assert [root, c, d][..2] == [root, c] && [root, c][..1] == [root] && [root][..0] == [];
    assert Noted(b, Start(b), [root]) == Start(b);
    assert Noted(b, Start(b), [root, c]) == Start(b)[Plain(c.ref) := NewName(b, c)];
  }

  lemma LeafIsClean(ref: string, name: string)
    requires '/' !in ref && '+' !in ref && '/' !in name && '+' !in name
    ensures CleanComponent(Leaf(ref, name))
  {
    PlainTextIsClean(ref);
    PlainTextIsClean(name);
    PlainTextIsClean("1");
    PlainTextIsClean("");
  }

  lemma BoundLeaf(b: Binding, ref: string, name: string)
    ensures BoundTree(b, Leaf(ref, name)) == Leaf(Own(b, Leaf(ref, name)), name)
    ensures !LocalPurl(Leaf(ref, name))
  {
    assert |FILE| == 7;
  }

  lemma MergeAccepted(b: Binding, sbom: Sbom, ref: string)
    requires b.root == "r" && b.artifact == "art" && IsLocal(ref) && ref != "r"
    requires var taken := NewName(b, Leaf(ref, "a"));
             && '/' !in taken && '+' !in taken && |taken| > 3
             && sbom == Sbom(Leaf("r", "n"), [Leaf(ref, "a"), Leaf(taken, "b")], [Dependency("r", Some([ref]))])
    ensures Binds(b, sbom, "n", "1")
    ensures var taken := NewName(b, Leaf(ref, "a")); Result(b, sbom).components == [Leaf(taken, "a"), Leaf(taken, "b")]
  {
    var root, c := Leaf("r", "n"), Leaf(ref, "a");
    var taken := NewName(b, c);
    var d := Leaf(taken, "b");
    PlainTextIsClean(taken);
    PlainTextIsClean("r");
    PlainTextIsClean("art");
    LeavesInOrder(root, c, d);
    LeavesInOrder(Leaf("art", "n"), Leaf(taken, "a"), Leaf(taken, "b"));
    BoundLeaf(b, "r", "n");
    BoundLeaf(b, ref, "a");
    BoundLeaf(b, taken, "b");
    MergeFinal(b, root, c, d);
    LeafIsClean("art", "n");
    LeafIsClean(taken, "a");
    LeafIsClean(taken, "b");
    var ds, m := sbom.dependencies, Final(b, sbom);
    assert ds[..0] == [];
    assert MovedAll(m, ds) == [Dependency("art", Some([taken]))] by {
      assert MovedEdges(m, [ref]) == [taken];
    }
  }

  lemma SharedFinal(b: Binding, root: Component, c: Component, d: Component)
    requires Renames(b, c) && Renames(b, d) && !Renames(b, root) && c.ref == d.ref
    ensures Noted(b, Start(b), [root, c, d]) == map[b.root := b.artifact, Plain(d.ref) := NewName(b, d)]
  {
    assert [root, c, d][..2] == [root, c] && [root, c][..1] == [root] && [root][..0] == [];
    assert Noted(b, Start(b), [root]) == Start(b);
    assert Noted(b, Start(b), [root, c]) == Start(b)[Plain(c.ref) := NewName(b, c)];
  }

  lemma SharedAccepted(b: Binding, sbom: Sbom, ref: string)
    requires b.root == "r" && b.artifact == "art" && IsLocal(ref) && ref != "r"
    requires sbom == Sbom(Leaf("r", "n"), [Leaf(ref, "a"), Leaf(ref, "b")], [Dependency("r", Some([ref]))])
    requires var one, two := NewName(b, Leaf(ref, "a")), NewName(b, Leaf(ref, "b"));
             '/' !in one && '+' !in one && '/' !in two && '+' !in two && two != "art"
    ensures Binds(b, sbom, "n", "1")
    ensures var one, two := NewName(b, Leaf(ref, "a")), NewName(b, Leaf(ref, "b"));
            && Result(b, sbom).components == [Leaf(one, "a"), Leaf(two, "b")]
            && Result(b, sbom).dependencies == [Dependency("art", Some([two]))]
  {
    var root, c, d := Leaf("r", "n"), Leaf(ref, "a"), Leaf(ref, "b");
    var one, two := NewName(b, c), NewName(b, d);
    PlainTextIsClean("r");
    PlainTextIsClean("art");
    PlainTextIsClean(two);
    LeavesInOrder(root, c, d);
    LeavesInOrder(Leaf("art", "n"), Leaf(one, "a"), Leaf(two, "b"));
    BoundLeaf(b, "r", "n");
    BoundLeaf(b, ref, "a");
    BoundLeaf(b, ref, "b");
    SharedFinal(b, root, c, d);
    LeafIsClean("art", "n");
    LeafIsClean(one, "a");
    LeafIsClean(two, "b");
    var ds, m := sbom.dependencies, Final(b, sbom);
    assert ds[..0] == [];
    assert MovedAll(m, ds) == [Dependency("art", Some([two]))] by {
      assert MovedEdges(m, [ref]) == [two];
    }
  }

  /** An accepted SBOM in which two components share a local reference: afterwards they have different
      references, and the root depends on the second one only. */
  lemma SharedExample() returns (b: Binding, sbom: Sbom)
    ensures Binds(b, sbom, "n", "1") && |sbom.components| == 2 == |Result(b, sbom).components|
    ensures sbom.components[0].ref == sbom.components[1].ref && !Coherent(b, Everything(sbom))
    ensures sbom.dependencies == [Dependency(b.root, Some([Plain(sbom.components[0].ref)]))]
    ensures Result(b, sbom).components[0].ref != Result(b, sbom).components[1].ref
    ensures Result(b, sbom).dependencies == [Dependency(b.artifact, Some([Plain(Result(b, sbom).components[1].ref)]))]
  {
    var local := PATH + "a";
    b := Binding("r", "art", (x: string) => "d", (x: string) => x);
    sbom := Sbom(Leaf("r", "n"), [Leaf(local, "a"), Leaf(local, "b")], [Dependency("r", Some([local]))]);
    var one, two := NewName(b, Leaf(local, "a")), NewName(b, Leaf(local, "b"));
    assert one == "cargo-local:" + "a" + "@" + "1" + ":" + "d" && two == "cargo-local:" + "b" + "@" + "1" + ":" + "d";
    assert one[12] == 'a' && two[12] == 'b';
    assert PATH <= local && |local| == 11 && |two| == 17;
    SharedAccepted(b, sbom, local);
    LeavesInOrder(sbom.root, sbom.components[0], sbom.components[1]);
    var all := Everything(sbom);
    assert all[1] in all && all[2] in all && Renames(b, all[1]);
    assert Label(all[1])[0] == 'a' && Label(all[2])[0] == 'b';
  }
}
