/** What binding an SBOM does to its references and its dependency graph
    (scripts/generate-crate-sboms.py). */
module SbomGraph {
  import opened Text
  import opened SbomRename

  /** A dependency with one renaming applied to both ends of its edges. */
  function Moved(m: Renaming, d: Dependency): Dependency {
    Dependency(Apply(m, d.ref), if d.dependsOn.None? then None else Some(MovedEdges(m, d.dependsOn.value)))
  }

  function MovedEdges(m: Renaming, edges: seq<string>): seq<string> {
    seq(|edges|, i requires 0 <= i < |edges| => Apply(m, edges[i]))
  }

  ghost function RootNodes(root: string, ds: seq<Dependency>): nat {
    if ds == [] then 0 else RootNodes(root, ds[..|ds| - 1]) + if ds[|ds| - 1].ref == root then 1 else 0
  }

  /** Rewrite the dependencies in place, counting those of the root. */
  method MoveAll(root: string, ds: seq<Dependency>, m: Renaming)
    returns (ok: bool, moved: seq<Dependency>, rootNodes: nat)
    ensures ok == forall d <- ds :: d.dependsOn.Some?
    ensures ok ==> |moved| == |ds| && forall i :: 0 <= i < |ds| ==> moved[i] == Moved(m, ds[i])
    ensures ok ==> rootNodes == RootNodes(root, ds)
  {
    ok, moved, rootNodes := true, [], 0;
    for i := 0 to |ds|
      invariant forall k :: 0 <= k < i ==> ds[k].dependsOn.Some?
      invariant |moved| == i && forall k :: 0 <= k < i ==> moved[k] == Moved(m, ds[k])
      invariant rootNodes == RootNodes(root, ds[..i])
    {
      if ds[i].dependsOn.None? { return false, moved, rootNodes; }
      moved := moved + [Moved(m, ds[i])];
      assert ds[..i + 1][..i] == ds[..i];
      if ds[i].ref == root { rootNodes := rootNodes + 1; }
    }
    assert ds[..|ds|] == ds;
  }

  ghost predicate Injective(m: Renaming) { forall x, y :: x in m && y in m && m[x] == m[y] ==> x == y }

  lemma ValuesWithout(m: Renaming, x: string)
    requires x in m
    ensures m.Values == (m - {x}).Values + {m[x]}
  {
    var rest := m - {x};
    forall v | v in m.Values ensures v in rest.Values + {m[x]} {
      var k :| k in m && m[k] == v;
      if k != x { assert k in rest && rest[k] == v; }
    }
    forall v | v in rest.Values ensures v in m.Values {
      var k :| k in rest && rest[k] == v;
      assert k in m && m[k] == v;
    }
    assert x in m;
  }

  /** As many values as keys means that no two keys share a value. */
  lemma {:induction false} ValuesCount(m: Renaming)
    ensures |m.Values| <= |m|
    ensures |m.Values| == |m| <==> Injective(m)
    decreases |m|
  {
    if m != map[] {
      var x :| x in m;
      var rest := m - {x};
      assert rest.Keys == m.Keys - {x};
      assert |rest| == |m| - 1;
      ValuesCount(rest);
      ValuesWithout(m, x);
      if m[x] in rest.Values {
        var k :| k in rest && rest[k] == m[x];
        assert k in m && k != x && m[k] == m[x];
        assert rest.Values + {m[x]} == rest.Values;
      } else {
        assert |rest.Values + {m[x]}| == |rest.Values| + 1;
        assert forall k :: k in rest ==> rest[k] in rest.Values;
        assert Injective(m) <==> Injective(rest) by { InjectiveStep(m, x); }
      }
    } else {
      assert m.Values == {};
    }
  }

  lemma InjectiveStep(m: Renaming, x: string)
    requires x in m && m[x] !in (m - {x}).Values
    ensures Injective(m) <==> Injective(m - {x})
  {
    var rest := m - {x};
    assert forall k :: k in rest ==> rest[k] in rest.Values;
    assert forall k :: k in rest <==> k in m && k != x;
  }

  /** All components, the root first. */
  function Everything(sbom: Sbom): seq<Component> { Pre(sbom.root) + PreAll(sbom.components) }

  function Start(b: Binding): Renaming { map[b.root := b.artifact] }

  /** The renaming that binding arrives at. */
  function Final(b: Binding, sbom: Sbom): Renaming { Noted(b, Start(b), Everything(sbom)) }

  function MovedAll(m: Renaming, ds: seq<Dependency>): seq<Dependency> {
    seq(|ds|, i requires 0 <= i < |ds| => Moved(m, ds[i]))
  }

  function Result(b: Binding, sbom: Sbom): Sbom {
    Sbom(BoundTree(b, sbom.root), BoundAll(b, sbom.components), MovedAll(Final(b, sbom), sbom.dependencies))
  }

  predicate LocalText(s: string) { Contains(s, FILE) || Contains(s, PATH) }

  predicate CleanComponent(c: Component) {
    !LocalText(Plain(c.ref)) && !LocalText(Plain(c.name)) && !LocalText(Plain(c.version)) && !LocalText(Plain(c.purl))
  }

  predicate CleanDependency(d: Dependency) {
    !LocalText(d.ref) && (d.dependsOn.Some? ==> forall e <- d.dependsOn.value :: !LocalText(e))
  }

  /** No text of the document names a local path. */
  predicate Clean(sbom: Sbom) {
    (forall c <- Everything(sbom) :: CleanComponent(c)) && forall d <- sbom.dependencies :: CleanDependency(d)
  }

  /** What binding accepts. */
  ghost predicate Binds(b: Binding, sbom: Sbom, name: string, version: string) {
    && sbom.root.name == Some(name) && sbom.root.version == Some(version)
    && sbom.root.ref == Some(b.root) && b.root != ""
    && AcceptsAll(b, Everything(sbom)) && Injective(Final(b, sbom))
    && (forall d <- sbom.dependencies :: d.dependsOn.Some?) && RootNodes(b.root, sbom.dependencies) == 1
    && Clean(Result(b, sbom))
  }

  method BindSbom(sbom: Sbom, name: string, version: string, artifact: string,
                  digest: string -> string, quote: string -> string)
    returns (ok: bool, bound: Sbom)
    ensures ok <==> Binds(Binding(Plain(sbom.root.ref), artifact, digest, quote), sbom, name, version)
    ensures ok ==> bound == Result(Binding(Plain(sbom.root.ref), artifact, digest, quote), sbom)
  {
    ok, bound := false, sbom;
    var b := Binding(Plain(sbom.root.ref), artifact, digest, quote);
    if sbom.root.name != Some(name) || sbom.root.version != Some(version) || b.root == "" { return; }
    var root, components, m;
    ok, root, m := Normalize(b, sbom.root, Start(b));
    if !ok { return; }
    NotedKeyed(b, Start(b), Pre(sbom.root));
    ok, components, m := NormalizeAll(b, sbom.components, m);
    if !ok { return; }
    NotedJoin(b, Start(b), Pre(sbom.root), PreAll(sbom.components));
    ValuesCount(m);
    if |m.Values| != |m| { return false, bound; }
    var moved, rootNodes;
    ok, moved, rootNodes := MoveAll(b.root, sbom.dependencies, m);
    if !ok { return; }
    assert moved == MovedAll(m, sbom.dependencies);
    bound := Sbom(root, components, moved);
    ok := rootNodes == 1 && Clean(bound);
  }

  /** What a component is called, apart from its reference. */
  function Label(c: Component): string { Plain(c.name) + "@" + Plain(c.version) }

  /** Components that share a local reference also share their label. */
  ghost predicate Coherent(b: Binding, cs: seq<Component>) {
    forall c, d :: c in cs && d in cs && Renames(b, c) && c.ref == d.ref ==> Label(c) == Label(d)
  }

  lemma SameName(b: Binding, c: Component, d: Component)
    requires c.ref == d.ref
    ensures NewName(b, c) == NewName(b, d) <==> Label(c) == Label(d)
  {
    var prefix, suffix := "cargo-local:", ":" + b.digest(Plain(c.ref));
    assert NewName(b, c) == prefix + Label(c) + suffix;
    assert NewName(b, d) == prefix + Label(d) + suffix;
    if NewName(b, c) == NewName(b, d) {
      assert |Label(c)| == |Label(d)|;
      assert Label(c) == NewName(b, c)[12..12 + |Label(c)|];
      assert Label(d) == NewName(b, d)[12..12 + |Label(d)|];
    }
  }

  /** Component `i` is the last one with the local reference `x`. */
  ghost predicate LastBearer(b: Binding, cs: seq<Component>, x: string, i: int) {
    && 0 <= i < |cs| && Renames(b, cs[i]) && Plain(cs[i].ref) == x
    && forall j :: i < j < |cs| ==> Plain(cs[j].ref) != x
  }

  /** Some component is renamed from `x`. */
  ghost predicate Borne(b: Binding, cs: seq<Component>, x: string) {
    exists i :: 0 <= i < |cs| && RenamesFrom(b, cs[i], x)
  }

  ghost predicate RenamesFrom(b: Binding, c: Component, x: string) { Renames(b, c) && Plain(c.ref) == x }

  lemma BorneSnoc(b: Binding, cs: seq<Component>, x: string)
    requires cs != []
    ensures Borne(b, cs, x) <==> Borne(b, cs[..|cs| - 1], x) || RenamesFrom(b, cs[|cs| - 1], x)
  {
    var n := |cs| - 1;
    if i :| 0 <= i < n && RenamesFrom(b, cs[..n][i], x) { assert cs[i] == cs[..n][i]; }
    if i :| 0 <= i < |cs| && RenamesFrom(b, cs[i], x) { assert i < n ==> cs[..n][i] == cs[i]; }
  }

  lemma {:induction false} NotedNames(b: Binding, cs: seq<Component>, x: string)
    ensures x in Noted(b, Start(b), cs) <==> x == b.root || Borne(b, cs, x)
  {
    if cs != [] {
      NotedNames(b, cs[..|cs| - 1], x);
      BorneSnoc(b, cs, x);
    }
  }

  lemma {:induction false} NotedLast(b: Binding, cs: seq<Component>, x: string)
    requires x in Noted(b, Start(b), cs) && x != b.root
    ensures exists i :: LastBearer(b, cs, x, i) && Noted(b, Start(b), cs)[x] == NewName(b, cs[i])
  {
    if cs != [] {
      var n := |cs| - 1;
      if Renames(b, cs[n]) && Plain(cs[n].ref) == x {
        assert LastBearer(b, cs, x, n);
      } else {
        NotedLast(b, cs[..n], x);
        var i :| LastBearer(b, cs[..n], x, i) && Noted(b, Start(b), cs[..n])[x] == NewName(b, cs[..n][i]);
        assert cs[..n][i] == cs[i] && Plain(cs[n].ref) != x;
        assert LastBearer(b, cs, x, i);
      }
    }
  }

  /** The map renames exactly the root and the references of local components; a local reference
      has the new name of the last component that bears it. */
  lemma NotedMeans(b: Binding, cs: seq<Component>, x: string)
    ensures Keyed(b, Noted(b, Start(b), cs))
    ensures x in Noted(b, Start(b), cs) <==> x == b.root || Borne(b, cs, x)
    ensures x in Noted(b, Start(b), cs) && x != b.root ==>
      exists i :: LastBearer(b, cs, x, i) && Noted(b, Start(b), cs)[x] == NewName(b, cs[i])
  {
    NotedKeyed(b, Start(b), cs);
    NotedNames(b, cs, x);
    if x in Noted(b, Start(b), cs) && x != b.root { NotedLast(b, cs, x); }
  }
}
