/** How the strict readers check a ustar header: the chart reader
    (scripts/generate-deployment-sbom.py) and the bundle reader
    (scripts/generate-bundle-sbom.py).  Member names stay as the bytes they are stored in;
    whether they decode as UTF-8 is a parameter. */
module TarHeaders {
  import opened Text
  import opened Ustar

  predicate Blank(c: byte) { c == 0 || c == 32 }

  /** Without trailing zero bytes and spaces. */
  function RStrip(b: Bytes): Bytes {
    if b != [] && Blank(b[|b| - 1]) then RStrip(b[..|b| - 1]) else b
  }

  /** Without leading spaces. */
  function LStrip(b: Bytes): Bytes {
    if b != [] && b[0] == 32 then LStrip(b[1..]) else b
  }

  /** A number field: octal digits between leading spaces and trailing blanks. */
  function TarNumber(field: Bytes): Option<nat> {
    if field == [] || field[0] >= 128 then None
    else
      var digits := LStrip(RStrip(field));
      if digits == [] || !Digits(digits) then None else Some(Value(digits))
  }

  predicate ZeroNumber(field: Bytes) {
    RStrip(field) == [] || TarNumber(field) == Some(0)
  }

  /** The part of a text field before its first zero byte. */
  function Cut(field: Bytes): Bytes {
    if field == [] || field[0] == 0 then [] else [field[0]] + Cut(field[1..])
  }

  lemma {:induction false} CutLength(field: Bytes)
    ensures |Cut(field)| <= |field| && Cut(field) == field[..|Cut(field)|]
    ensures |Cut(field)| < |field| ==> field[|Cut(field)|] == 0
  {
    if field != [] && field[0] != 0 { CutLength(field[1..]); }
  }

  /** A text field: text, and nothing but zeros after its terminator. */
  function TarText(field: Bytes, utf8: Bytes -> bool): Option<Bytes> {
    var raw := Cut(field);
    if |raw| <= |field| && AllZero(field[|raw|..]) && utf8(raw) then Some(raw) else None
  }

  datatype Entry = Entry(name: Bytes, size: nat)

  /** The checks that both readers make. */
  predicate Plain(h: Bytes)
    requires |h| == 512
  {
    && TarNumber(h[148..156]) == Some(Checksum(h))
    && h[257..263] == MAGIC && h[263..265] == MAGIC_VERSION
    && AllZero(h[345..500]) && AllZero(h[500..512])
    && (h[156] == 0 || h[156] == 48) && AllZero(h[157..257])
    && ZeroNumber(h[329..337]) && ZeroNumber(h[337..345])
  }

  // Names ----------------------------------------------------------------------------------

  const SLASH: byte := 47
  const DOT: byte := 46
  const BACKSLASH: byte := 92
  const TRITIUM: Bytes := [116, 114, 105, 116, 105, 117, 109]

  /** The pieces between slashes. */
  function Split(b: Bytes): (cs: seq<Bytes>)
    ensures |cs| > 0
  {
    if b == [] then [[]]
    else
      var cs := Split(b[1..]);
      if b[0] == SLASH then [[]] + cs else [[b[0]] + cs[0]] + cs[1..]
  }

  /** The components of a path: empty and "." pieces are dropped. */
  function Parts(cs: seq<Bytes>): seq<Bytes> {
    if cs == [] then []
    else (if cs[0] == [] || cs[0] == [DOT] then [] else [cs[0]]) + Parts(cs[1..])
  }

  predicate ChartName(name: Bytes) {
    var parts := Parts(Split(name));
    && name != [] && name[0] != SLASH
    && |parts| >= 2 && parts[0] == TRITIUM && [DOT, DOT] !in parts
    && BACKSLASH !in name && |name| <= 100
  }

  predicate BundleName(name: Bytes) {
    name != [] && SLASH !in name && BACKSLASH !in name && name != [DOT] && name != [DOT, DOT]
  }

  function ChartHeader(h: Bytes, utf8: Bytes -> bool): Option<Entry> {
    if |h| != 512 || !Plain(h) || TarNumber(h[100..108]) != Some(420)
      || TarNumber(h[108..116]) != Some(0) || TarNumber(h[116..124]) != Some(0) || TarNumber(h[136..148]) != Some(0)
      || TarText(h[265..297], utf8) != Some([]) || TarText(h[297..329], utf8) != Some([])
    then None
    else match TarText(h[..100], utf8)
      case None => None
      case Some(name) =>
        match TarNumber(h[124..136])
        case None => None
        case Some(size) => if ChartName(name) then Some(Entry(name, size)) else None
  }

  function BundleHeader(h: Bytes, utf8: Bytes -> bool): Option<Entry> {
    if |h| != 512 || !Plain(h)
      || TarNumber(h[100..108]).None? || TarNumber(h[100..108]).value > 4095
      || TarNumber(h[108..116]).None? || TarNumber(h[116..124]).None? || TarNumber(h[136..148]).None?
      || TarText(h[265..297], utf8).None? || TarText(h[297..329], utf8).None?
    then None
    else match TarText(h[..100], utf8)
      case None => None
      case Some(name) =>
        match TarNumber(h[124..136])
        case None => None
        case Some(size) => if BundleName(name) then Some(Entry(name, size)) else None
  }

  // The writer's headers pass the chart reader ----------------------------------------------

  lemma {:induction false} RStripKeeps(ds: Bytes, blanks: Bytes)
    requires ds != [] && !Blank(ds[|ds| - 1]) && forall i :: 0 <= i < |blanks| ==> Blank(blanks[i])
    ensures RStrip(ds + blanks) == ds
    decreases |blanks|
  {
    if blanks == [] {
      assert ds + blanks == ds;
    } else {
      assert (ds + blanks)[..|ds + blanks| - 1] == ds + blanks[..|blanks| - 1];
      RStripKeeps(ds, blanks[..|blanks| - 1]);
    }
  }

  lemma NumberReads(n: nat, k: nat, blanks: Bytes)
    requires k > 0 && n < Pow8(k) && forall i :: 0 <= i < |blanks| ==> Blank(blanks[i])
    ensures TarNumber(Octal(n, k) + blanks) == Some(n)
  {
    var ds := Octal(n, k);
    assert Digit(ds[|ds| - 1]) && Digit(ds[0]);
    RStripKeeps(ds, blanks);
    ValueOfOctal(n, k);
  }

  lemma {:induction false} CutPadded(name: Bytes, zeros: Bytes)
    requires (forall i :: 0 <= i < |name| ==> name[i] != 0) && AllZero(zeros)
    ensures Cut(name + zeros) == name
    decreases |name|
  {
    if name == [] {
      assert name + zeros == zeros;
    } else {
      assert (name + zeros)[1..] == name[1..] + zeros;
      CutPadded(name[1..], zeros);
    }
  }

  lemma TextReads(name: Bytes, zeros: Bytes, utf8: Bytes -> bool)
    requires (forall i :: 0 <= i < |name| ==> name[i] != 0) && AllZero(zeros) && utf8(name)
    ensures TarText(name + zeros, utf8) == Some(name)
  {
    CutPadded(name, zeros);
    assert (name + zeros)[|name|..] == zeros;
  }
}
