/** Binding a crate SBOM to its artifact (scripts/generate-crate-sboms.py): the component tree is
    rewritten in place while a map of the renamed references is filled, and the dependency graph is
    then rewritten with that map. */
module SbomRename {
  import opened Text

  /** A component; a reference, name or version that is missing or not a string is None. */
  datatype Component = Component(
    ref: Option<string>, name: Option<string>, version: Option<string>, purl: Option<string>, nested: seq<Component>)

  /** A node of the dependency graph and its edges; None when they are not an array of strings. */
  datatype Dependency = Dependency(ref: string, dependsOn: Option<seq<string>>)

  datatype Sbom = Sbom(root: Component, components: seq<Component>, dependencies: seq<Dependency>)

  /** The root's reference, the artifact that it becomes, and the outside functions: the digest of a
      reference and percent-encoding. */
  datatype Binding = Binding(root: string, artifact: string, digest: string -> string, quote: string -> string)

  const FILE := "file://"
  const PATH := "path+file:"

  predicate IsLocal(s: string) { PATH <= s || Contains(s, FILE) }

  function Plain(o: Option<string>): string { if o.Some? then o.value else "" }

  /** The component is given a new name of its own. */
  predicate Renames(b: Binding, c: Component) { Plain(c.ref) != b.root && IsLocal(Plain(c.ref)) }

  predicate LocalPurl(c: Component) { Contains(Plain(c.purl), FILE) }

  /** What is demanded of one component. */
  predicate Accepts(b: Binding, c: Component) {
    Plain(c.ref) != "" && (Renames(b, c) || LocalPurl(c) ==> c.name.Some? && c.version.Some?)
  }

  function NewName(b: Binding, c: Component): string {
    "cargo-local:" + Plain(c.name) + "@" + Plain(c.version) + ":" + b.digest(Plain(c.ref))
  }

  function NewPurl(b: Binding, c: Component): string {
    "pkg:cargo/" + b.quote(Plain(c.name)) + "@" + b.quote(Plain(c.version))
  }

  /** The reference that a component ends up with. */
  function Own(b: Binding, c: Component): string {
    if Plain(c.ref) == b.root then b.artifact else if Renames(b, c) then NewName(b, c) else Plain(c.ref)
  }

  /** A component with its new reference and package URL, around `nested`. */
  function Bound(b: Binding, c: Component, nested: seq<Component>): Component {
    Component(Some(Own(b, c)), c.name, c.version, if LocalPurl(c) then Some(NewPurl(b, c)) else c.purl, nested)
  }

  function BoundTree(b: Binding, c: Component): Component
    decreases c
  {
    Bound(b, c, BoundAll(b, c.nested))
  }

  function BoundAll(b: Binding, cs: seq<Component>): seq<Component>
    decreases cs
  {
    if cs == [] then [] else BoundAll(b, cs[..|cs| - 1]) + [BoundTree(b, cs[|cs| - 1])]
  }

  /** The components of a tree and of a list of trees, parents first. */
  function Pre(c: Component): seq<Component>
    decreases c
  {
    [c] + PreAll(c.nested)
  }

  function PreAll(cs: seq<Component>): seq<Component>
    decreases cs
  {
    if cs == [] then [] else PreAll(cs[..|cs| - 1]) + Pre(cs[|cs| - 1])
  }

  predicate AcceptsAll(b: Binding, cs: seq<Component>) { forall c <- cs :: Accepts(b, c) }

  type Renaming = map<string, string>

  function Apply(m: Renaming, x: string): string { if x in m then m[x] else x }

  function Note(b: Binding, m: Renaming, c: Component): Renaming {
    if Renames(b, c) then m[Plain(c.ref) := NewName(b, c)] else m
  }

  /** The map after a list of components. */
  function Noted(b: Binding, m: Renaming, cs: seq<Component>): Renaming {
    if cs == [] then m else Note(b, Noted(b, m, cs[..|cs| - 1]), cs[|cs| - 1])
  }

  lemma {:induction false} NotedJoin(b: Binding, m: Renaming, s: seq<Component>, t: seq<Component>)
    ensures Noted(b, m, s + t) == Noted(b, Noted(b, m, s), t)
  {
    if t == [] {
      assert s + t == s;
    } else {
      var n := |t| - 1;
      assert (s + t)[..|s + t| - 1] == s + t[..n];
      NotedJoin(b, m, s, t[..n]);
    }
  }

  lemma PreAllSnoc(b: Binding, cs: seq<Component>, i: nat)
    requires i < |cs|
    ensures PreAll(cs[..i + 1]) == PreAll(cs[..i]) + Pre(cs[i])
    ensures BoundAll(b, cs[..i + 1]) == BoundAll(b, cs[..i]) + [BoundTree(b, cs[i])]
  {
    assert cs[..i + 1][..i] == cs[..i];
  }

  /** A prefix that is refused refuses the list. */
  lemma {:induction false} PreAllPrefix(b: Binding, cs: seq<Component>, i: nat)
    requires i <= |cs| && AcceptsAll(b, PreAll(cs))
    ensures AcceptsAll(b, PreAll(cs[..i]))
    decreases |cs| - i
  {
    if i < |cs| {
      PreAllPrefix(b, cs, i + 1);
      PreAllSnoc(b, cs, i);
    } else {
      assert cs[..i] == cs;
    }
  }

  /** The map sends the root to the artifact, and otherwise renames local references only. */
  ghost predicate Keyed(b: Binding, m: Renaming) {
    b.root in m && m[b.root] == b.artifact && forall x :: x in m ==> x == b.root || IsLocal(x)
  }

  lemma {:induction false} NotedKeyed(b: Binding, m: Renaming, cs: seq<Component>)
    requires Keyed(b, m)
    ensures Keyed(b, Noted(b, m, cs))
  {
    if cs != [] { NotedKeyed(b, m, cs[..|cs| - 1]); }
  }

  lemma NotedTree(b: Binding, m: Renaming, c: Component)
    ensures Noted(b, m, Pre(c)) == Noted(b, Note(b, m, c), PreAll(c.nested))
  {
    NotedJoin(b, m, [c], PreAll(c.nested));
    assert [c][..0] == [];
  }

  method Normalize(b: Binding, c: Component, before: Renaming) returns (ok: bool, bound: Component, m: Renaming)
    requires Keyed(b, before)
    ensures ok == AcceptsAll(b, Pre(c))
    ensures ok ==> bound == BoundTree(b, c) && m == Noted(b, before, Pre(c))
    decreases c, 1
  {
    m, bound, ok := before, c, false;
    if !Accepts(b, c) { return; }
    if Renames(b, c) { m := m[Plain(c.ref) := NewName(b, c)]; }
    var ref := Apply(m, Plain(c.ref));
    var purl := if LocalPurl(c) then Some(NewPurl(b, c)) else c.purl;
    var nested;
    ok, nested, m := NormalizeAll(b, c.nested, m);
    NotedTree(b, before, c);
    bound := Component(Some(ref), c.name, c.version, purl, nested);
  }

  method NormalizeAll(b: Binding, cs: seq<Component>, before: Renaming)
    returns (ok: bool, bound: seq<Component>, m: Renaming)
    requires Keyed(b, before)
    ensures ok == AcceptsAll(b, PreAll(cs))
    ensures ok ==> bound == BoundAll(b, cs) && m == Noted(b, before, PreAll(cs))
    decreases cs, 0
  {
    ok, bound, m := true, [], before;
    for i := 0 to |cs|
      invariant ok && bound == BoundAll(b, cs[..i]) && AcceptsAll(b, PreAll(cs[..i]))
      invariant m == Noted(b, before, PreAll(cs[..i])) && Keyed(b, m)
    {
      var next;
      ok, next, m := Normalize(b, cs[i], m);
      PreAllSnoc(b, cs, i);
      if !ok {
        if AcceptsAll(b, PreAll(cs)) { PreAllPrefix(b, cs, i + 1); }
        return;
      }
      NotedJoin(b, before, PreAll(cs[..i]), Pre(cs[i]));
      NotedKeyed(b, before, PreAll(cs[..i + 1]));
      bound := bound + [next];
    }
    assert cs[..|cs|] == cs;
  }
}
