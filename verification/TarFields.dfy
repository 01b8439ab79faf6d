/** When the readers accept a header, byte by byte: each field of the ustar layout, without the functions
    that read it. */
module TarFields {
  import opened Text
  import opened Ustar
  import opened TarHeaders

  predicate Spaces(b: Bytes) { forall i :: 0 <= i < |b| ==> b[i] == 32 }

  predicate Blanks(b: Bytes) { forall i :: 0 <= i < |b| ==> b[i] == 0 || b[i] == 32 }

  /** Octal digits for `v` between spaces and blanks. */
  ghost predicate Octals(field: Bytes, v: nat) {
    exists a, ds, z :: Laid(field, a, ds, z) && Value(ds) == v
  }

  ghost predicate Laid(field: Bytes, a: Bytes, ds: Bytes, z: Bytes) {
    field == a + ds + z && Spaces(a) && ds != [] && Digits(ds) && Blanks(z)
  }

  /** A text, and zeros after it. */
  ghost predicate Terminated(field: Bytes, text: Bytes) {
    |text| <= |field| && field == text + Zeros(|field| - |text|) && 0 !in text
  }

  lemma {:induction false} RStripMeans(b: Bytes)
    ensures RStrip(b) <= b && Blanks(b[|RStrip(b)|..])
    decreases |b|
  {
    if b != [] && Blank(b[|b| - 1]) {
      RStripMeans(b[..|b| - 1]);
      var r := RStrip(b);
      assert forall i :: |r| <= i < |b| - 1 ==> b[i] == b[..|b| - 1][|r|..][i - |r|];
    }
  }

  lemma {:induction false} LStripMeans(b: Bytes)
    ensures |LStrip(b)| <= |b| && LStrip(b) == b[|b| - |LStrip(b)|..] && Spaces(b[..|b| - |LStrip(b)|])
    decreases |b|
  {
    if b != [] && b[0] == 32 {
      LStripMeans(b[1..]);
      var k := |b| - |LStrip(b)|;
      assert b[1..][..k - 1] == b[1..k];
    }
  }

  lemma {:induction false} LStripKeeps(a: Bytes, ds: Bytes)
    requires Spaces(a) && ds != [] && ds[0] != 32
    ensures LStrip(a + ds) == ds
    decreases |a|
  {
    if a == [] {
      assert a + ds == ds;
    } else {
      assert (a + ds)[1..] == a[1..] + ds;
      LStripKeeps(a[1..], ds);
    }
  }

  lemma LaidReads(field: Bytes, a: Bytes, ds: Bytes, z: Bytes)
    requires Laid(field, a, ds, z)
    ensures TarNumber(field) == Some(Value(ds))
  {
    assert Digit(ds[0]) && Digit(ds[|ds| - 1]);
    assert (a + ds)[|a + ds| - 1] == ds[|ds| - 1];
    RStripKeeps(a + ds, z);
    LStripKeeps(a, ds);
    assert field[0] == if a == [] then ds[0] else a[0];
  }

  lemma NumberLaid(field: Bytes) returns (a: Bytes, ds: Bytes, z: Bytes)
    requires TarNumber(field).Some?
    ensures Laid(field, a, ds, z) && Value(ds) == TarNumber(field).value
  {
    var r := RStrip(field);
    ds := LStrip(r);
    RStripMeans(field);
    LStripMeans(r);
    a, z := r[..|r| - |ds|], field[|r|..];
    assert field == r + z && r == a + ds;
  }

  lemma NumberMeans(field: Bytes, v: nat)
    ensures TarNumber(field) == Some(v) <==> Octals(field, v)
  {
    if TarNumber(field) == Some(v) {
      var a, ds, z := NumberLaid(field);
    } else if Octals(field, v) {
      var a, ds, z :| Laid(field, a, ds, z) && Value(ds) == v;
      LaidReads(field, a, ds, z);
    }
  }

  lemma {:induction false} CutMeans(field: Bytes)
    ensures 0 !in Cut(field)
    decreases |field|
  {
    if field != [] && field[0] != 0 { CutMeans(field[1..]); }
  }

  lemma TextMeans(field: Bytes, utf8: Bytes -> bool, text: Bytes)
    ensures TarText(field, utf8) == Some(text) <==> Terminated(field, text) && utf8(text)
  {
    if TarText(field, utf8) == Some(text) {
      CutLength(field);
      CutMeans(field);
      assert field[|text|..] == Zeros(|field| - |text|);
    }
    if Terminated(field, text) && utf8(text) { TextReads(text, Zeros(|field| - |text|), utf8); }
  }

  lemma {:induction false} RStripBlanks(b: Bytes)
    requires Blanks(b)
    ensures RStrip(b) == []
    decreases |b|
  {
    if b != [] { RStripBlanks(b[..|b| - 1]); }
  }

  lemma ZeroMeans(field: Bytes)
    ensures ZeroNumber(field) <==> Blanks(field) || Octals(field, 0)
  {
    NumberMeans(field, 0);
    RStripMeans(field);
    if Blanks(field) { RStripBlanks(field); }
    if RStrip(field) == [] { assert field[0..] == field; }
  }

  /** The sum of all bytes of a header, with the checksum field read as eight spaces. */
  ghost function SpacedSum(h: Bytes): nat
    requires |h| == 512
  {
    Sum(h[..148] + [32, 32, 32, 32, 32, 32, 32, 32] + h[156..])
  }

  lemma {:induction false} SumJoin(a: Bytes, b: Bytes)
    ensures Sum(a + b) == Sum(a) + Sum(b)
    decreases |b|
  {
    if b == [] {
      assert a + b == a;
    } else {
      var n := |b| - 1;
      assert (a + b)[..|a + b| - 1] == a + b[..n];
      SumJoin(a, b[..n]);
    }
  }

  lemma EightSpaces()
    ensures Sum([32, 32, 32, 32, 32, 32, 32, 32]) == 256
  {
    var four: Bytes := [32, 32, 32, 32];
    assert four[..3] == [32, 32, 32] && [32, 32, 32][..2] == [32, 32] && [32, 32][..1] == [32] && [32][..0] == [];
    assert Sum([32]) == 32 && Sum([32, 32]) == 64 && Sum([32, 32, 32]) == 96 && Sum(four) == 128;
    assert [32, 32, 32, 32, 32, 32, 32, 32] == four + four;
    SumJoin(four, four);
  }

  lemma ChecksumMeans(h: Bytes)
    requires |h| == 512
    ensures Checksum(h) == SpacedSum(h)
  {
    var eight: Bytes := [32, 32, 32, 32, 32, 32, 32, 32];
    EightSpaces();
    SumJoin(h[..148], eight);
    SumJoin(h[..148] + eight, h[156..]);
  }

  /** What both readers demand of every header. */
  ghost predicate PlainFields(h: Bytes) {
    && |h| == 512 && Octals(h[148..156], SpacedSum(h))
    && (h[156] == 0 || h[156] == 48) && h[157..257] == Zeros(100)
    && h[257..265] == [117, 115, 116, 97, 114, 0, 48, 48]
    && (Blanks(h[329..337]) || Octals(h[329..337], 0)) && (Blanks(h[337..345]) || Octals(h[337..345], 0))
    && h[345..512] == Zeros(167)
  }

  lemma ZerosMean(b: Bytes, n: nat)
    requires |b| == n
    ensures AllZero(b) <==> b == Zeros(n)
  {
    if AllZero(b) {
      assert b == Zeros(n);
    } else {
      var i :| 0 <= i < n && b[i] != 0;
      assert Zeros(n)[i] == 0;
    }
  }

  lemma MagicMeans(h: Bytes)
    requires |h| == 512
    ensures h[257..263] == MAGIC && h[263..265] == MAGIC_VERSION <==>
      h[257..265] == [117, 115, 116, 97, 114, 0, 48, 48]
  {
    var m := h[257..265];
    assert h[257..263] == m[..6] && h[263..265] == m[6..];
    if m == [117, 115, 116, 97, 114, 0, 48, 48] {
      assert m[..6] == MAGIC && m[6..] == MAGIC_VERSION;
    }
    assert m == m[..6] + m[6..];
  }

  lemma TailMeans(h: Bytes)
    requires |h| == 512
    ensures AllZero(h[345..500]) && AllZero(h[500..512]) <==> h[345..512] == Zeros(167)
  {
    var t := h[345..512];
    assert h[345..500] == t[..155] && h[500..512] == t[155..];
    ZerosMean(t, 167);
    if AllZero(t[..155]) && AllZero(t[155..]) {
      forall i | 0 <= i < 167 ensures t[i] == 0 { assert t[i] == if i < 155 then t[..155][i] else t[155..][i - 155]; }
    }
  }

  lemma PlainMeans(h: Bytes)
    requires |h| == 512
    ensures Plain(h) <==> PlainFields(h)
  {
    NumberMeans(h[148..156], Checksum(h));
    ChecksumMeans(h);
    ZeroMeans(h[329..337]);
    ZeroMeans(h[337..345]);
    MagicMeans(h);
    TailMeans(h);
    ZerosMean(h[157..257], 100);
  }

  /** The first proper component of a chart name is "tritium", another one follows, and none is "..". */
  ghost predicate ChartPath(name: Bytes) {
    var cs := Split(name);
    && name != [] && |name| <= 100 && name[0] != 47 && 92 !in name && [46, 46] !in cs
    && exists i, j :: 0 <= i < j < |cs| && cs[i] == [116, 114, 105, 116, 105, 117, 109] && cs[j] !in {[], [46]}
         && forall k :: 0 <= k < i ==> cs[k] in {[], [46]}
  }

  lemma {:induction false} PartsFirst(cs: seq<Bytes>) returns (i: nat)
    requires Parts(cs) != []
    ensures i < |cs| && cs[i] == Parts(cs)[0] && cs[i] !in {[], [DOT]} && Parts(cs)[1..] == Parts(cs[i + 1..])
    ensures forall k :: 0 <= k < i ==> cs[k] in {[], [DOT]}
    decreases |cs|
  {
    if cs[0] in {[], [DOT]} {
      var j := PartsFirst(cs[1..]);
      i := j + 1;
      assert cs[1..][j + 1..] == cs[i + 1..];
      assert forall k :: 0 < k < i ==> cs[k] == cs[1..][k - 1];
    } else {
      i := 0;
    }
  }

  lemma {:induction false} PartsHold(cs: seq<Bytes>, c: Bytes)
    requires c in cs && c !in {[], [DOT]}
    ensures c in Parts(cs)
    decreases |cs|
  {
    if cs[0] != c { PartsHold(cs[1..], c); }
  }

  lemma {:induction false} PartsFrom(cs: seq<Bytes>, i: nat)
    requires i < |cs| && cs[i] !in {[], [DOT]} && forall k :: 0 <= k < i ==> cs[k] in {[], [DOT]}
    ensures Parts(cs) == [cs[i]] + Parts(cs[i + 1..])
    decreases i
  {
    if i > 0 {
      PartsFrom(cs[1..], i - 1);
      assert cs[1..][i..] == cs[i + 1..];
    }
  }

  lemma {:induction false} PartsAmong(cs: seq<Bytes>, c: Bytes)
    requires c in Parts(cs)
    ensures c in cs
    decreases |cs|
  {
    if cs[0] != c { PartsAmong(cs[1..], c); }
  }

  lemma ChartNameMeans(name: Bytes)
    ensures ChartName(name) <==> ChartPath(name)
  {
    var cs := Split(name);
    if ChartName(name) {
      var i := PartsFirst(cs);
      var k := PartsFirst(cs[i + 1..]);
      var j := i + 1 + k;
      assert cs[j] == cs[i + 1..][k];
      if [DOT, DOT] in cs { PartsHold(cs, [DOT, DOT]); }
    }
    if ChartPath(name) {
      var i, j :| 0 <= i < j < |cs| && cs[i] == TRITIUM && cs[j] !in {[], [DOT]}
        && forall k :: 0 <= k < i ==> cs[k] in {[], [DOT]};
      PartsFrom(cs, i);
      assert cs[i + 1..][j - i - 1] == cs[j];
      PartsHold(cs[i + 1..], cs[j]);
      if [DOT, DOT] in Parts(cs) { PartsAmong(cs, [DOT, DOT]); }
    }
  }

  /** The fields of an ordinary file of mode 0644, owned by nobody in particular, of time zero, with this
      name and size. */
  ghost predicate ChartFields(h: Bytes, utf8: Bytes -> bool, name: Bytes, size: nat) {
    && PlainFields(h) && Terminated(h[..100], name) && utf8(name) && ChartPath(name) && Octals(h[124..136], size)
    && Octals(h[100..108], 6 * 64 + 4 * 8 + 4) && Octals(h[108..116], 0) && Octals(h[116..124], 0)
    && Octals(h[136..148], 0) && Terminated(h[265..297], []) && Terminated(h[297..329], []) && utf8([])
  }

  lemma ChartHeaderMeans(h: Bytes, utf8: Bytes -> bool, name: Bytes, size: nat)
    ensures ChartHeader(h, utf8) == Some(Entry(name, size)) <==> ChartFields(h, utf8, name, size)
  {
    if |h| == 512 {
      PlainMeans(h);
      TextMeans(h[..100], utf8, name);
      ChartNameMeans(name);
      NumberMeans(h[124..136], size);
      NumberMeans(h[100..108], 420);
      NumberMeans(h[108..116], 0);
      NumberMeans(h[116..124], 0);
      NumberMeans(h[136..148], 0);
      TextMeans(h[265..297], utf8, []);
      TextMeans(h[297..329], utf8, []);
    }
  }

  /** Some number and some text. */
  ghost predicate AnyOctals(field: Bytes) { exists v :: Octals(field, v) }

  ghost predicate AnyText(field: Bytes, utf8: Bytes -> bool) { exists text :: Terminated(field, text) && utf8(text) }

  lemma AnyNumberMeans(field: Bytes)
    ensures TarNumber(field).Some? <==> AnyOctals(field)
  {
    if TarNumber(field).Some? { NumberMeans(field, TarNumber(field).value); }
    if v :| Octals(field, v) { NumberMeans(field, v); }
  }

  lemma AnyTextMeans(field: Bytes, utf8: Bytes -> bool)
    ensures TarText(field, utf8).Some? <==> AnyText(field, utf8)
  {
    if TarText(field, utf8).Some? { TextMeans(field, utf8, TarText(field, utf8).value); }
    if text :| Terminated(field, text) && utf8(text) { TextMeans(field, utf8, text); }
  }

  /** The fields of an ordinary file with this size and a bare name, and any owner, time and permissions. */
  ghost predicate BundleFields(h: Bytes, utf8: Bytes -> bool, name: Bytes, size: nat) {
    && PlainFields(h) && Terminated(h[..100], name) && utf8(name) && Octals(h[124..136], size)
    && name != [] && 47 !in name && 92 !in name && name != [46] && name != [46, 46]
    && (exists mode :: Octals(h[100..108], mode) && mode <= 4095)
    && AnyOctals(h[108..116]) && AnyOctals(h[116..124]) && AnyOctals(h[136..148])
    && AnyText(h[265..297], utf8) && AnyText(h[297..329], utf8)
  }

  lemma ModeMeans(field: Bytes)
    ensures TarNumber(field).Some? && TarNumber(field).value <= 4095 <==>
      exists mode :: Octals(field, mode) && mode <= 4095
  {
    if TarNumber(field).Some? { NumberMeans(field, TarNumber(field).value); }
    if mode :| Octals(field, mode) && mode <= 4095 { NumberMeans(field, mode); }
  }

  lemma BundleHeaderMeans(h: Bytes, utf8: Bytes -> bool, name: Bytes, size: nat)
    ensures BundleHeader(h, utf8) == Some(Entry(name, size)) <==> BundleFields(h, utf8, name, size)
  {
    if |h| == 512 {
      PlainMeans(h);
      TextMeans(h[..100], utf8, name);
      NumberMeans(h[124..136], size);
      ModeMeans(h[100..108]);
      AnyNumberMeans(h[108..116]);
      AnyNumberMeans(h[116..124]);
      AnyNumberMeans(h[136..148]);
      AnyTextMeans(h[265..297], utf8);
      AnyTextMeans(h[297..329], utf8);
    }
  }
}
