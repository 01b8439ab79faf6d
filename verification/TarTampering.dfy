/** What the strict readers (scripts/generate-deployment-sbom.py, scripts/generate-bundle-sbom.py) refuse:
    one changed byte anywhere in an accepted archive, outside payloads and checksum fields, is found. */
module TarTampering {
  import opened Text
  import opened Ustar
  import opened TarHeaders
  import opened TarReaders
  import opened ChartReader
  import opened BundleReader
  import ChartRoundTrip

  // The checksum ---------------------------------------------------------------------------------

  lemma {:induction false} SumUpdate(b: Bytes, i: nat, x: byte)
    requires i < |b|
    ensures Sum(b[i := x]) == Sum(b) - b[i] + x
    decreases |b|
  {
    var n := |b| - 1;
    if i == n {
      assert b[i := x][..n] == b[..n];
    } else {
      assert b[i := x][..n] == b[..n][i := x];
      SumUpdate(b[..n], i, x);
    }
  }

  /** A header byte that the checksum is over. */
  predicate Summed(i: nat) { i < 148 || 156 <= i < 512 }

  lemma ChecksumChanges(h: Bytes, i: nat, x: byte)
    requires |h| == 512 && Summed(i) && x != h[i]
    ensures Checksum(h[i := x]) != Checksum(h) && h[i := x][148..156] == h[148..156]
  {
    var g := h[i := x];
    if i < 148 {
      assert g[..148] == h[..148][i := x] && g[156..] == h[156..];
      SumUpdate(h[..148], i, x);
    } else {
      assert g[..148] == h[..148] && g[156..] == h[156..][i - 156 := x];
      SumUpdate(h[156..], i - 156, x);
    }
  }

  lemma {:induction false} ZerosAreNoNumber(f: Bytes)
    requires AllZero(f)
    ensures RStrip(f) == [] && TarNumber(f).None?
    decreases |f|
  {
    if f != [] { ZerosAreNoNumber(f[..|f| - 1]); }
  }

  // What both header checks have in common -------------------------------------------------------

  /** Two blocks differ in byte `i` and nowhere else. */
  ghost predicate Differ(h: Bytes, g: Bytes, i: nat) {
    i < |h| == 512 == |g| && h[i] != g[i] && forall j :: 0 <= j < 512 && j != i ==> h[j] == g[j]
  }

  /** A header check that one changed byte does not pass, and that passes no block with one byte only. */
  ghost predicate Sealed(check: HeaderCheck) {
    forall h, g, i: nat :: Differ(h, g, i) ==>
      && (check(h).Some? && Summed(i) ==> check(g).None? && !AllZero(g))
      && (AllZero(h) ==> check(g).None?)
  }

  lemma PlainTampered(h: Bytes, g: Bytes, i: nat)
    requires Differ(h, g, i)
    ensures Plain(h) && Summed(i) ==> !Plain(g) && !AllZero(g)
    ensures AllZero(h) ==> !Plain(g)
  {
    assert g == h[i := g[i]];
    assert g[257..263][0] == g[257] && g[257..263][1] == g[258] && MAGIC[0] != 0 && MAGIC[1] != 0;
    if Plain(h) && Summed(i) {
      ChecksumChanges(h, i, g[i]);
      if AllZero(h[148..156]) { ZerosAreNoNumber(h[148..156]); }
      assert exists j :: 0 <= j < 8 && h[148..156][j] != 0;
      var j :| 0 <= j < 8 && h[148..156][j] != 0;
      assert g[148 + j] == h[148..156][j];
    }
  }

  lemma ChecksAreSealed(utf8: Bytes -> bool)
    ensures Sealed(h => ChartHeader(h, utf8)) && Sealed(h => BundleHeader(h, utf8))
  {
    forall h, g, i: nat | Differ(h, g, i)
      ensures (Plain(h) && Summed(i) ==> !Plain(g) && !AllZero(g)) && (AllZero(h) ==> !Plain(g))
    {
      PlainTampered(h, g, i);
    }
  }

  /** One byte of a header is changed, outside the checksum field: neither reader accepts it any more. */
  lemma HeaderTampered(h: Bytes, g: Bytes, i: nat, utf8: Bytes -> bool)
    requires Differ(h, g, i) && !(148 <= i < 156)
    ensures ChartHeader(h, utf8).Some? ==> ChartHeader(g, utf8) == None
    ensures BundleHeader(h, utf8).Some? ==> BundleHeader(g, utf8) == None
  {
    PlainTampered(h, g, i);
  }

  // Whole archives -------------------------------------------------------------------------------

  /** Byte `p` of an archive with these members lies in a header outside its checksum, in the padding
      after a payload, or after the last member. */
  predicate Protected(ms: seq<File>, p: nat)
    decreases |ms|
  {
    if ms == [] then true
    else
      var size := |ms[0].payload|;
      if p < 512 then Summed(p)
      else if p < 512 + size then false
      else if p < 512 + size + Padding(size) then true
      else Protected(ms[1..], p - 512 - size - Padding(size))
  }

  lemma {:induction false} ParseStep(check: HeaderCheck, b: Bytes, e: Entry)
    requires |b| >= 512 && !AllZero(b[..512]) && check(b[..512]) == Some(e)
    ensures var end := 512 + e.size + Padding(e.size);
      Parse(check, b) ==
        if |b| < end || !AllZero(b[512 + e.size..end]) then None
        else Prepend(File(e.name, b[512..512 + e.size]), Parse(check, b[end..]))
  {}

  lemma {:induction false} TamperedTail(check: HeaderCheck, b: Bytes, p: nat, x: byte)
    requires Sealed(check) && Parse(check, b).Some? && AllZero(b[..512]) && p < |b| && x != b[p]
    ensures Parse(check, b[p := x]) == None
  {
    var b' := b[p := x];
    if p < 512 {
      assert Differ(b[..512], b'[..512], p);
      assert b'[..512][p] != 0;
    } else {
      assert b'[..512] == b[..512];
      assert b'[p] != 0;
    }
  }

  lemma {:induction false} TamperedMember(check: HeaderCheck, b: Bytes, p: nat, x: byte, e: Entry)
    requires Sealed(check) && |b| >= 512 && !AllZero(b[..512]) && check(b[..512]) == Some(e) && p < |b| && x != b[p]
    requires 512 + e.size + Padding(e.size) <= |b| && AllZero(b[512 + e.size..512 + e.size + Padding(e.size)])
    requires Summed(p) || 512 + e.size <= p < 512 + e.size + Padding(e.size)
    ensures Parse(check, b[p := x]) == None
  {
    var b', pad := b[p := x], 512 + e.size;
    if p < 512 {
      assert Differ(b[..512], b'[..512], p);
    } else {
      assert b'[..512] == b[..512];
      var end, k := pad + Padding(e.size), p - pad;
      var zeros, other := b[pad..end], b'[pad..end];
      assert AllZero(zeros) && zeros[k] == 0 && zeros[k] == b[p] && other[k] == b'[p];
      ParseStep(check, b', e);
    }
  }

  lemma {:induction false} TamperedLater(check: HeaderCheck, b: Bytes, p: nat, x: byte, e: Entry)
    requires |b| >= 512 && !AllZero(b[..512]) && check(b[..512]) == Some(e)
    requires var end := 512 + e.size + Padding(e.size);
      end <= p < |b| && Parse(check, b[end..][p - end := x]) == None
    ensures Parse(check, b[p := x]) == None
  {
    var b', end := b[p := x], 512 + e.size + Padding(e.size);
    assert b'[..512] == b[..512] && b'[end..] == b[end..][p - end := x];
    ParseStep(check, b', e);
  }

  /** The first header of an archive with members, and what is around it. */
  lemma {:induction false} FirstOf(check: HeaderCheck, b: Bytes, ms: seq<File>) returns (e: Entry)
    requires Parse(check, b) == Some(ms) && !AllZero(b[..512])
    ensures var end := 512 + e.size + Padding(e.size);
      && check(b[..512]) == Some(e) && ms != [] && e == Entry(ms[0].name, |ms[0].payload|)
      && end <= |b| && AllZero(b[512 + e.size..end]) && Parse(check, b[end..]) == Some(ms[1..])
  {
    e := check(b[..512]).value;
    ParseStep(check, b, e);
  }

  /** No byte of an archive can be changed outside payloads and checksum fields without the reader
      noticing. */
  lemma {:induction false} Tampered(check: HeaderCheck, b: Bytes, ms: seq<File>, p: nat, x: byte)
    requires Sealed(check) && Parse(check, b) == Some(ms) && p < |b| && x != b[p] && Protected(ms, p)
    ensures Parse(check, b[p := x]) == None
    decreases |ms|
  {
    if AllZero(b[..512]) {
      TamperedTail(check, b, p, x);
    } else {
      var e := FirstOf(check, b, ms);
      var end := 512 + e.size + Padding(e.size);
      if p < end {
        TamperedMember(check, b, p, x, e);
      } else {
        Tampered(check, b[end..], ms[1..], p - end, x);
        TamperedLater(check, b, p, x, e);
      }
    }
  }

  /** So the chart reader refuses every archive that was accepted before one such byte was changed. */
  lemma ChartTampered(b: Bytes, n: Names, q: Required, ms: seq<File>, p: nat, x: byte)
    requires AcceptedBy(Check(n), b, n, q) == Some(ms) && p < |b| && x != b[p] && Protected(ms, p)
    ensures AcceptedBy(Check(n), b[p := x], n, q) == None
  {
    ChecksAreSealed(n.utf8);
    Tampered(Check(n), b, ms, p, x);
  }

  /** Nor does it take an archive of the packager with such a byte changed, whether it takes the archive
      itself or not. */
  lemma PackageTampered(files: seq<File>, device: Bytes, n: Names, q: Required, p: nat, x: byte)
    requires |device| == 8 && ZeroNumber(device) && n.utf8([])
    requires Short(files) && forall i :: 0 <= i < |files| ==> ChartRoundTrip.Writable(files[i], n)
    requires p < |Archive(files, device)| && x != Archive(files, device)[p] && Protected(files, p)
    ensures AcceptedBy(Check(n), Archive(files, device)[p := x], n, q) == None
  {
    ChecksAreSealed(n.utf8);
    ChartRoundTrip.ArchiveParses(files, device, n);
    Tampered(Check(n), Archive(files, device), files, p, x);
  }

  lemma BundleTampered(b: Bytes, n: Names, k: Manifests, ms: seq<File>, p: nat, x: byte)
    requires BundleAccepted(h => BundleHeader(h, n.utf8), b, n, k) == Some(ms)
    requires p < |b| && x != b[p] && Protected(ms, p)
    ensures BundleAccepted(h => BundleHeader(h, n.utf8), b[p := x], n, k) == None
  {
    ChecksAreSealed(n.utf8);
    Tampered(h => BundleHeader(h, n.utf8), b, ms, p, x);
  }

  /** Where the header of member `k` starts. */
  function Start(ms: seq<File>, k: nat): nat
    requires k <= |ms|
    decreases |ms|
  {
    if k == 0 then 0 else 512 + |ms[0].payload| + Padding(|ms[0].payload|) + Start(ms[1..], k - 1)
  }

  function Altered(m: File, j: nat, x: byte): File
    requires j < |m.payload|
  {
    File(m.name, m.payload[j := x])
  }

  lemma BlockAltered(h: Bytes, m: File, j: nat, x: byte)
    requires |h| == 512 && j < |m.payload|
    ensures Block(h, m)[512 + j] == m.payload[j] && Block(h, m)[512 + j := x] == Block(h, Altered(m, j, x))
  {}

  lemma {:induction false} LayoutAltered(hs: seq<Bytes>, ms: seq<File>, k: nat, j: nat, x: byte)
    requires |hs| == |ms| && (forall i :: 0 <= i < |hs| ==> |hs[i]| == 512) && k < |ms| && j < |ms[k].payload|
    ensures var p, all := Start(ms, k) + 512 + j, Layout(hs, ms);
      && p < |all| && all[p] == ms[k].payload[j]
      && all[p := x] == Layout(hs, ms[k := Altered(ms[k], j, x)])
    decreases k
  {
    var first: Bytes, rest: Bytes := Block(hs[0], ms[0]), Layout(hs[1..], ms[1..]);
    var all: Bytes := first + rest;
    var changed := ms[k := Altered(ms[k], j, x)];
    if k == 0 {
      BlockAltered(hs[0], ms[0], j, x);
      assert changed[0] == Altered(ms[0], j, x) && changed[1..] == ms[1..];
      assert all[512 + j := x] == first[512 + j := x] + rest;
    } else {
      var q := Start(ms[1..], k - 1) + 512 + j;
      LayoutAltered(hs[1..], ms[1..], k - 1, j, x);
      assert changed[0] == ms[0] && changed[1..] == ms[1..][k - 1 := Altered(ms[k], j, x)];
      assert all[|first| + q := x] == first + rest[q := x];
    }
  }

  lemma AlteredParses(check: HeaderCheck, hs: seq<Bytes>, ms: seq<File>, tail: nat, k: nat, j: nat, x: byte)
    requires |hs| == |ms| && Accounted(check, Layout(hs, ms) + Zeros(tail), hs, ms, tail)
    requires k < |ms| && j < |ms[k].payload|
    ensures var changed := ms[k := Altered(ms[k], j, x)];
      Parse(check, Layout(hs, changed) + Zeros(tail)) == Some(changed)
  {
    AccountedParses(check, hs, ms[k := Altered(ms[k], j, x)], tail);
  }

  /** A changed payload byte, in turn, changes that byte of one member and nothing else. */
  lemma {:induction false} PayloadChanged(check: HeaderCheck, b: Bytes, ms: seq<File>, k: nat, j: nat, x: byte)
    requires Parse(check, b) == Some(ms) && k < |ms| && j < |ms[k].payload|
    ensures Start(ms, k) + 512 + j < |b| && b[Start(ms, k) + 512 + j] == ms[k].payload[j]
    ensures Parse(check, b[Start(ms, k) + 512 + j := x]) == Some(ms[k := Altered(ms[k], j, x)])
  {
    var hs, tail := ParseIsAccounted(check, b);
    var p := Start(ms, k) + 512 + j;
    LayoutAltered(hs, ms, k, j, x);
    AlteredParses(check, hs, ms, tail, k, j, x);
    assert b[p := x] == Layout(hs, ms[k := Altered(ms[k], j, x)]) + Zeros(tail);
  }
}
