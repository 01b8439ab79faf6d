/** Two orders on paths: the packager sorts files by path components, the reader compares
    whole names.  They agree except where a component is extended by a byte below '/'. */
module ChartOrder {
  import opened Ustar
  import opened TarHeaders
  import opened ChartReader

  type Components = seq<Bytes>

  /** A name that a directory can hold. */
  predicate Component(c: Bytes) {
    c != [] && c != [DOT] && c != [DOT, DOT] && SLASH !in c && forall i :: 0 <= i < |c| ==> c[i] != 0
  }

  predicate Path(p: Components) { p != [] && forall i :: 0 <= i < |p| ==> Component(p[i]) }

  function Join(p: Components): Bytes
    requires p != []
  {
    if |p| == 1 then p[0] else p[0] + [SLASH] + Join(p[1..])
  }

  /** The order in which the packager sorts paths. */
  predicate PathLess(p: Components, q: Components) {
    q != [] && (p == [] || Less(p[0], q[0]) || (p[0] == q[0] && PathLess(p[1..], q[1..])))
  }

  predicate Extends(a: Bytes, b: Bytes) { |a| < |b| && b[..|a|] == a }

  /** `p` comes before `q` by components, yet its name comes after: where they part, `p` goes on
      below a directory and `q` extends that directory's name by a byte below '/'. */
  predicate Clash(p: Components, q: Components) {
    && p != [] && q != []
    && if p[0] == q[0] then Clash(p[1..], q[1..])
       else |p| > 1 && Extends(p[0], q[0]) && q[0][|p[0]|] < SLASH
  }

  lemma {:induction false} LessCommon(x: Bytes, a: Bytes, b: Bytes)
    ensures Less(x + a, x + b) <==> Less(a, b)
    decreases |x|
  {
    if x == [] {
      assert x + a == a && x + b == b;
    } else {
      assert (x + a)[1..] == x[1..] + a && (x + b)[1..] == x[1..] + b;
      LessCommon(x[1..], a, b);
    }
  }

  lemma ExtendsTail(a: Bytes, b: Bytes)
    requires a != [] && b != [] && a[0] == b[0]
    ensures Extends(a[1..], b[1..]) <==> Extends(a, b)
  {
    if |a| < |b| {
      assert b[..|a|] == [b[0]] + b[1..][..|a| - 1] && a == [a[0]] + a[1..];
    }
  }

  /** Once two strings differ, what follows does not matter. */
  lemma {:induction false} LessDiffers(a: Bytes, x: Bytes, b: Bytes, y: Bytes)
    requires Less(a, b) && !Extends(a, b)
    ensures Less(a + x, b + y)
    decreases |a|
  {
    assert b[..0] == [];
    if a != [] && a[0] == b[0] {
      assert (a + x)[1..] == a[1..] + x && (b + y)[1..] == b[1..] + y;
      ExtendsTail(a, b);
      LessDiffers(a[1..], x, b[1..], y);
    }
  }

  lemma LessExtends(a: Bytes, b: Bytes)
    requires Extends(a, b)
    ensures Less(a, b)
  {
    assert b == a + b[|a|..] && a == a + [];
    LessCommon(a, [], b[|a|..]);
  }

  lemma JoinTail(p: Components)
    requires |p| > 1
    ensures Join(p) == p[0] + ([SLASH] + Join(p[1..]))
  {
    assert p[0] + [SLASH] + Join(p[1..]) == p[0] + ([SLASH] + Join(p[1..]));
  }

  lemma {:induction false} FirstDiffers(p: Components, q: Components)
    requires Path(p) && Path(q) && Less(p[0], q[0]) && p[0] != q[0]
    ensures Less(Join(p), Join(q)) <==> !Clash(p, q)
  {
    var a, b := p[0], q[0];
    var x := if |p| == 1 then [] else [SLASH] + Join(p[1..]);
    var y := if |q| == 1 then [] else [SLASH] + Join(q[1..]);
    assert Join(p) == a + x by { if |p| > 1 { JoinTail(p); } else { assert a + [] == a; } }
    assert Join(q) == b + y by { if |q| > 1 { JoinTail(q); } else { assert b + [] == b; } }
    if !Extends(a, b) {
      LessDiffers(a, x, b, y);
    } else {
      var z := b[|a|..] + y;
      assert b + y == a + z by { assert b == a + b[|a|..]; }
      LessCommon(a, x, z);
      assert z[0] == b[|a|] && b[|a|] in b;
    }
  }

  lemma {:induction false} NotLessItself(a: Bytes)
    ensures !Less(a, a)
  {
    if a != [] { NotLessItself(a[1..]); }
  }

  /** For paths in component order, the names are in order exactly when the paths do not clash. */
  lemma {:induction false} OrdersAgree(p: Components, q: Components)
    requires Path(p) && Path(q) && PathLess(p, q)
    ensures Less(Join(p), Join(q)) <==> !Clash(p, q)
    decreases |p|
  {
    if p[0] != q[0] {
      FirstDiffers(p, q);
    } else if |p| == 1 {
      NotLessItself(p[0]);
      JoinTail(q);
      assert Join(q)[..|p[0]|] == p[0];
      LessExtends(Join(p), Join(q));
    } else {
      NotLessItself(p[0]);
      JoinTail(p);
      JoinTail(q);
      OrdersAgree(p[1..], q[1..]);
      assert p[0] + [SLASH] + Join(p[1..]) == (p[0] + [SLASH]) + Join(p[1..]);
      LessCommon(p[0] + [SLASH], Join(p[1..]), Join(q[1..]));
    }
  }

  lemma {:induction false} LessTransitive(a: Bytes, b: Bytes, c: Bytes)
    requires Less(a, b) && Less(b, c)
    ensures Less(a, c)
    decreases |a|
  {
    if a != [] && a[0] == b[0] == c[0] { LessTransitive(a[1..], b[1..], c[1..]); }
  }

  lemma {:induction false} PathLessTransitive(p: Components, q: Components, r: Components)
    requires PathLess(p, q) && PathLess(q, r)
    ensures PathLess(p, r)
    decreases |p|
  {
    if p != [] {
      if p[0] == q[0] && q[0] == r[0] && PathLess(p[1..], q[1..]) && PathLess(q[1..], r[1..]) {
        PathLessTransitive(p[1..], q[1..], r[1..]);
      } else if Less(p[0], q[0]) && Less(q[0], r[0]) {
        LessTransitive(p[0], q[0], r[0]);
      }
    }
  }
}
