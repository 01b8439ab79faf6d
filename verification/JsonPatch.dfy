/** JSON values, pointers into them, and the four patch operations the deployment tool
    sends: test, replace, remove and add (RFC 6902), with the "-" index of RFC 6901. */
module JsonPatch {
  import opened Text

  datatype Json =
    | Null
    | Bool(b: bool)
    | Num(n: int)
    | Str(s: string)
    | Arr(items: seq<Json>)
    | Obj(fields: map<string, Json>)

  /** One step of a pointer: an object member, an array index, or the end of an array. */
  datatype Token = Key(k: string) | Idx(i: nat) | Dash

  type Path = seq<Token>

  function Child(d: Json, t: Token): Option<Json> {
    match t
    case Key(k) => if d.Obj? && k in d.fields then Some(d.fields[k]) else None
    case Idx(i) => if d.Arr? && i < |d.items| then Some(d.items[i]) else None
    case Dash => None
  }

  function PutChild(d: Json, t: Token, v: Json): Json
    requires Child(d, t).Some?
  {
    match t
    case Key(k) => Obj(d.fields[k := v])
    case Idx(i) => Arr(d.items[i := v])
  }

  function Get(d: Json, p: Path): Option<Json>
    decreases |p|
  {
    if p == [] then Some(d)
    else match Child(d, p[0])
      case None => None
      case Some(c) => Get(c, p[1..])
  }

  function Put(d: Json, p: Path, v: Json): Json
    requires Get(d, p).Some?
    decreases |p|
  {
    if p == [] then v else PutChild(d, p[0], Put(Child(d, p[0]).value, p[1..], v))
  }

  datatype Op =
    | Test(path: Path, value: Json)
    | Replace(path: Path, value: Json)
    | Remove(path: Path)
    | Add(path: Path, value: Json)

  function Without(parent: Json, t: Token): Option<Json> {
    if Child(parent, t).None? then None
    else match t
      case Key(k) => Some(Obj(parent.fields - {k}))
      case Idx(i) => Some(Arr(parent.items[..i] + parent.items[i + 1..]))
  }

  function With(parent: Json, t: Token, v: Json): Option<Json> {
    match t
    case Key(k) => if parent.Obj? then Some(Obj(parent.fields[k := v])) else None
    case Idx(i) =>
      if parent.Arr? && i <= |parent.items|
      then Some(Arr(parent.items[..i] + [v] + parent.items[i..])) else None
    case Dash => if parent.Arr? then Some(Arr(parent.items + [v])) else None
  }

  /** Put `v` at `p` when it is some value. */
  function PutSome(d: Json, p: Path, v: Option<Json>): Option<Json>
    requires Get(d, p).Some?
  {
    if v.None? then None else Some(Put(d, p, v.value))
  }

  function Apply(d: Json, op: Op): Option<Json> {
    match op
    case Test(p, v) => if Get(d, p) == Some(v) then Some(d) else None
    case Replace(p, v) => if Get(d, p).Some? then Some(Put(d, p, v)) else None
    case Remove(p) =>
      if p == [] || Get(d, p[..|p| - 1]).None? then None
      else PutSome(d, p[..|p| - 1], Without(Get(d, p[..|p| - 1]).value, p[|p| - 1]))
    case Add(p, v) =>
      if p == [] then Some(v)
      else if Get(d, p[..|p| - 1]).None? then None
      else PutSome(d, p[..|p| - 1], With(Get(d, p[..|p| - 1]).value, p[|p| - 1], v))
  }

  /** A patch applies as a whole or not at all. */
  function Patch(d: Json, ops: seq<Op>): Option<Json>
    decreases |ops|
  {
    if ops == [] then Some(d)
    else match Apply(d, ops[0])
      case None => None
      case Some(d') => Patch(d', ops[1..])
  }

  /** Neither pointer leads to a part of what the other one points to. */
  ghost predicate Apart(p: Path, q: Path) {
    exists i :: 0 <= i < |p| && i < |q| && p[..i] == q[..i] && p[i] != q[i]
  }

  lemma {:induction false} PutThenGet(d: Json, p: Path, v: Json)
    requires Get(d, p).Some?
    ensures Get(Put(d, p, v), p) == Some(v)
    decreases |p|
  {
    if p != [] { PutThenGet(Child(d, p[0]).value, p[1..], v); }
  }

  /** Writing one cell leaves every cell apart from it as it was, present or absent. */
  lemma {:induction false} PutFrame(d: Json, p: Path, v: Json, q: Path)
    requires Get(d, p).Some? && Apart(p, q)
    ensures Get(Put(d, p, v), q) == Get(d, q)
    decreases |p|
  {
    var i :| 0 <= i < |p| && i < |q| && p[..i] == q[..i] && p[i] != q[i];
    if i > 0 {
      assert p[0] == p[..i][0] == q[..i][0] == q[0];
      assert p[1..][..i - 1] == p[..i][1..] == q[..i][1..] == q[1..][..i - 1];
      assert Apart(p[1..], q[1..]) by { assert p[1..][i - 1] != q[1..][i - 1]; }
      PutFrame(Child(d, p[0]).value, p[1..], v, q[1..]);
    }
  }

  lemma {:induction false} GetAppend(d: Json, p: Path, q: Path)
    ensures Get(d, p + q) == if Get(d, p).None? then None else Get(Get(d, p).value, q)
    decreases |p|
  {
    if p == [] {
      assert p + q == q;
    } else {
      assert (p + q)[1..] == p[1..] + q;
      if Child(d, p[0]).Some? { GetAppend(Child(d, p[0]).value, p[1..], q); }
    }
  }

  lemma {:induction false} PutAppend(d: Json, p: Path, q: Path, v: Json)
    requires Get(d, p + q).Some?
    ensures Get(d, p).Some? && Get(Get(d, p).value, q).Some?
    ensures Put(d, p + q, v) == Put(d, p, Put(Get(d, p).value, q, v))
    decreases |p|
  {
    GetAppend(d, p, q);
    if p == [] {
      assert p + q == q;
    } else {
      assert (p + q)[1..] == p[1..] + q;
      PutAppend(Child(d, p[0]).value, p[1..], q, v);
    }
  }

  lemma {:induction false} ApartPrefix(p: Path, q: Path, r: Path)
    requires Apart(p, q)
    ensures Apart(q, p) && Apart(p + r, q) && Apart(p, q + r)
  {
    var i :| 0 <= i < |p| && i < |q| && p[..i] == q[..i] && p[i] != q[i];
    assert (p + r)[..i] == p[..i] && (q + r)[..i] == q[..i];
    assert (p + r)[i] == p[i] && (q + r)[i] == q[i];
  }

  lemma ApartAt(base: Path, t: Token, u: Token, r: Path, s: Path)
    requires t != u
    ensures Apart(base + [t] + r, base + [u] + s)
  {
    var p, q := base + [t] + r, base + [u] + s;
    assert p[..|base|] == base == q[..|base|] && p[|base|] == t && q[|base|] == u;
  }

  lemma {:induction false} PatchSplit(d: Json, a: seq<Op>, b: seq<Op>)
    ensures Patch(d, a + b) == if Patch(d, a).None? then None else Patch(Patch(d, a).value, b)
    decreases |a|
  {
    if a == [] {
      assert a + b == b;
    } else {
      assert (a + b)[1..] == a[1..] + b;
      if Apply(d, a[0]).Some? { PatchSplit(Apply(d, a[0]).value, a[1..], b); }
    }
  }
}
