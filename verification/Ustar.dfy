/** The ustar archive format as the chart packager writes it (scripts/package-helm-chart.py):
    512-byte headers with octal fields and a checksum, payloads padded to whole blocks, zero
    blocks at the end. */
module Ustar {
  type byte = x: int | 0 <= x < 256
  type Bytes = seq<byte>

  const RECORD := 10240

  function Zeros(n: nat): (z: Bytes)
    ensures |z| == n && forall i :: 0 <= i < n ==> z[i] == 0
  {
    seq(n, _ => 0)
  }

  predicate AllZero(b: Bytes) { forall i :: 0 <= i < |b| ==> b[i] == 0 }

  // Octal numbers ------------------------------------------------------------------------

  predicate Digit(c: byte) { 48 <= c <= 55 }

  predicate Digits(b: Bytes) { forall i :: 0 <= i < |b| ==> Digit(b[i]) }

  function Pow8(k: nat): nat { if k == 0 then 1 else 8 * Pow8(k - 1) }

  /** The `k` octal digits of `n`, most significant first. */
  function Octal(n: nat, k: nat): (ds: Bytes)
    ensures |ds| == k && Digits(ds)
  {
    if k == 0 then [] else Octal(n / 8, k - 1) + [48 + n % 8]
  }

  function Value(ds: Bytes): nat
    requires Digits(ds)
  {
    if ds == [] then 0 else 8 * Value(ds[..|ds| - 1]) + (ds[|ds| - 1] - 48)
  }

  lemma {:induction false} ValueOfOctal(n: nat, k: nat)
    requires n < Pow8(k)
    ensures Value(Octal(n, k)) == n
    decreases k
  {
    if k > 0 {
      ValueOfOctal(n / 8, k - 1);
      assert Octal(n, k)[..k - 1] == Octal(n / 8, k - 1);
    }
  }

  function Sum(b: Bytes): nat {
    if b == [] then 0 else Sum(b[..|b| - 1]) + b[|b| - 1]
  }

  lemma {:induction false} SumBound(b: Bytes)
    ensures Sum(b) <= 255 * |b|
    decreases |b|
  {
    if b != [] { SumBound(b[..|b| - 1]); }
  }

  // The header ---------------------------------------------------------------------------

  /** The bytes "ustar", a terminator, and version "00". */
  const MAGIC: Bytes := [117, 115, 116, 97, 114, 0]
  const MAGIC_VERSION: Bytes := [48, 48]

  function Number(n: nat, k: nat): (f: Bytes)
    ensures |f| == k + 1 && f[k] == 0 && f[..k] == Octal(n, k)
  {
    Octal(n, k) + [0]
  }

  /** Byte `i` of a header: name, mode 0644, owner and group 0, size, time 0, checksum, type
      "0", no link, magic, no owner names, device fields, no prefix. */
  function HeaderByte(name: Bytes, size: nat, device: Bytes, check: Bytes, i: nat): byte
    requires |name| <= 100 && |device| == 8 && |check| == 8 && i < 512
  {
    if i < 100 then (if i < |name| then name[i] else 0)
    else if i < 108 then Number(420, 7)[i - 100]
    else if i < 116 then Number(0, 7)[i - 108]
    else if i < 124 then Number(0, 7)[i - 116]
    else if i < 136 then Number(size, 11)[i - 124]
    else if i < 148 then Number(0, 11)[i - 136]
    else if i < 156 then check[i - 148]
    else if i == 156 then 48
    else if 257 <= i < 263 then MAGIC[i - 257]
    else if 263 <= i < 265 then MAGIC_VERSION[i - 263]
    else if 329 <= i < 337 then device[i - 329]
    else if 337 <= i < 345 then device[i - 337]
    else 0
  }

  function RawHeader(name: Bytes, size: nat, device: Bytes, check: Bytes): (h: Bytes)
    requires |name| <= 100 && |device| == 8 && |check| == 8
    ensures |h| == 512
  {
    seq(512, i requires 0 <= i < 512 => HeaderByte(name, size, device, check, i))
  }

  const BLANKS: Bytes := [32, 32, 32, 32, 32, 32, 32, 32]

  /** The sum over a header in which the checksum field counts as blanks. */
  function Checksum(h: Bytes): nat
    requires |h| == 512
  {
    Sum(h[..148]) + 8 * 32 + Sum(h[156..])
  }

  function Header(name: Bytes, size: nat, device: Bytes): (h: Bytes)
    requires |name| <= 100 && |device| == 8
    ensures |h| == 512
  {
    var sum := Checksum(RawHeader(name, size, device, BLANKS));
    RawHeader(name, size, device, Octal(sum, 6) + [0, 32])
  }

  /** What the writer appends to fill the last block of a payload. */
  function Fill(size: nat): nat { if size % 512 == 0 then 0 else 512 - size % 512 }

  /** A file to be archived. */
  datatype File = File(name: Bytes, payload: Bytes)

  function Member(f: File, device: Bytes): Bytes
    requires |f.name| <= 100 && |device| == 8
  {
    Header(f.name, |f.payload|, device) + f.payload + Zeros(Fill(|f.payload|))
  }

  predicate Short(files: seq<File>) { forall i :: 0 <= i < |files| ==> |files[i].name| <= 100 }

  function Members(files: seq<File>, device: Bytes): Bytes
    requires |device| == 8 && Short(files)
  {
    if files == [] then []
    else Members(files[..|files| - 1], device) + Member(files[|files| - 1], device)
  }

  /** The zeros after the members: two blocks, and as many as complete the last record. */
  function Tail(length: nat): nat {
    1024 + if (length + 1024) % RECORD == 0 then 0 else RECORD - (length + 1024) % RECORD
  }

  function Archive(files: seq<File>, device: Bytes): Bytes
    requires |device| == 8 && Short(files)
  {
    Members(files, device) + Zeros(Tail(|Members(files, device)|))
  }

  /** The packager's loop: one member after the other is appended to a buffer. */
  method WriteArchive(files: seq<File>, device: Bytes) returns (buffer: Bytes)
    requires |device| == 8 && Short(files)
    ensures buffer == Archive(files, device)
  {
    buffer := [];
    for i := 0 to |files|
      invariant buffer == Members(files[..i], device)
    {
      var header := Header(files[i].name, |files[i].payload|, device);
      assert files[..i + 1][..i] == files[..i];
      buffer := buffer + (header + files[i].payload + Zeros(Fill(|files[i].payload|)));
    }
    assert files[..|files|] == files;
    buffer := buffer + Zeros(Tail(|buffer|));
  }

  lemma {:induction false} MembersCons(f: File, rest: seq<File>, device: Bytes)
    requires |device| == 8 && Short([f] + rest)
    ensures |f.name| <= 100 && Short(rest)
    ensures Members([f] + rest, device) == Member(f, device) + Members(rest, device)
    decreases |rest|
  {
    var all := [f] + rest;
    assert all[0] == f && forall i :: 0 <= i < |rest| ==> rest[i] == all[i + 1];
    if rest == [] {
      assert all[..0] == [];
      assert Members(all[..0], device) == [];
    } else {
      var init := rest[..|rest| - 1];
      assert all[..|all| - 1] == [f] + init;
      MembersCons(f, init, device);
      assert Member(f, device) + Members(init, device) + Member(rest[|rest| - 1], device)
        == Member(f, device) + (Members(init, device) + Member(rest[|rest| - 1], device));
    }
  }
}
