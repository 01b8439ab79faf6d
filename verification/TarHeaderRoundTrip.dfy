/** Every header that the packager writes passes the chart reader, which reads the name and
    the size back. */
module TarHeaderRoundTrip {
  import opened Text
  import opened Ustar
  import opened TarHeaders

  lemma NumberFields(name: Bytes, size: nat, device: Bytes, check: Bytes)
    requires |name| <= 100 && |device| == 8 && |check| == 8
    ensures var h := RawHeader(name, size, device, check);
      && h[100..108] == Number(420, 7) && h[108..116] == Number(0, 7) && h[116..124] == Number(0, 7)
      && h[124..136] == Number(size, 11) && h[136..148] == Number(0, 11) && h[148..156] == check
  {
  }

  lemma TextFields(name: Bytes, size: nat, device: Bytes, check: Bytes)
    requires |name| <= 100 && |device| == 8 && |check| == 8
    ensures var h := RawHeader(name, size, device, check);
      && h[..100] == name + Zeros(100 - |name|)
      && h[265..297] == [] + Zeros(32) && h[297..329] == [] + Zeros(32)
  {
  }

  lemma FixedFields(name: Bytes, size: nat, device: Bytes, check: Bytes)
    requires |name| <= 100 && |device| == 8 && |check| == 8
    ensures var h := RawHeader(name, size, device, check);
      && h[257..263] == MAGIC && h[263..265] == MAGIC_VERSION && h[156] == 48
      && AllZero(h[157..257]) && AllZero(h[345..500]) && AllZero(h[500..512])
      && h[329..337] == device && h[337..345] == device
  {
  }

  /** The checksum field is not part of its own sum. */
  lemma ChecksumSkipsItself(name: Bytes, size: nat, device: Bytes, check: Bytes, other: Bytes)
    requires |name| <= 100 && |device| == 8 && |check| == 8 && |other| == 8
    ensures Checksum(RawHeader(name, size, device, check)) == Checksum(RawHeader(name, size, device, other))
  {
    var h, g := RawHeader(name, size, device, check), RawHeader(name, size, device, other);
    assert h[..148] == g[..148] && h[156..] == g[156..];
  }

  lemma Powers()
    ensures Pow8(6) == 262144 && Pow8(7) == 2097152 && Pow8(11) == 8589934592
  {
    assert Pow8(3) == 512;
    assert Pow8(5) == 32768;
    assert Pow8(7) == 2097152;
    assert Pow8(9) == 134217728;
  }

  lemma ChecksumReads(name: Bytes, size: nat, device: Bytes)
    requires |name| <= 100 && |device| == 8
    ensures var h := Header(name, size, device); TarNumber(h[148..156]) == Some(Checksum(h))
  {
    var raw := RawHeader(name, size, device, BLANKS);
    var sum := Checksum(raw);
    var check := Octal(sum, 6) + [0, 32];
    SumBound(raw[..148]);
    SumBound(raw[156..]);
    Powers();
    NumberReads(sum, 6, [0, 32]);
    NumberFields(name, size, device, check);
    ChecksumSkipsItself(name, size, device, check, BLANKS);
  }

  /** Names that a file system can hold: no zero byte in them, and valid UTF-8. */
  predicate Storable(name: Bytes, utf8: Bytes -> bool) {
    utf8(name) && forall i :: 0 <= i < |name| ==> name[i] != 0
  }

  lemma HeaderIsPlain(name: Bytes, size: nat, device: Bytes)
    requires |name| <= 100 && |device| == 8 && ZeroNumber(device)
    ensures Plain(Header(name, size, device))
  {
    ChecksumReads(name, size, device);
    var sum := Checksum(RawHeader(name, size, device, BLANKS));
    FixedFields(name, size, device, Octal(sum, 6) + [0, 32]);
  }

  lemma ChartNumbers(name: Bytes, size: nat, device: Bytes)
    requires |name| <= 100 && |device| == 8 && size < Pow8(11)
    ensures var h := Header(name, size, device);
      && TarNumber(h[100..108]) == Some(420) && TarNumber(h[108..116]) == Some(0)
      && TarNumber(h[116..124]) == Some(0) && TarNumber(h[136..148]) == Some(0)
      && TarNumber(h[124..136]) == Some(size)
  {
    var check := Octal(Checksum(RawHeader(name, size, device, BLANKS)), 6) + [0, 32];
    NumberFields(name, size, device, check);
    Powers();
    NumberReads(420, 7, [0]);
    NumberReads(0, 7, [0]);
    NumberReads(0, 11, [0]);
    NumberReads(size, 11, [0]);
  }

  lemma ChartTexts(name: Bytes, size: nat, device: Bytes, utf8: Bytes -> bool)
    requires |name| <= 100 && |device| == 8 && Storable(name, utf8) && utf8([])
    ensures var h := Header(name, size, device);
      && TarText(h[..100], utf8) == Some(name)
      && TarText(h[265..297], utf8) == Some([]) && TarText(h[297..329], utf8) == Some([])
  {
    var check := Octal(Checksum(RawHeader(name, size, device, BLANKS)), 6) + [0, 32];
    TextFields(name, size, device, check);
    TextReads(name, Zeros(100 - |name|), utf8);
    TextReads([], Zeros(32), utf8);
  }

  lemma HeaderRoundTrip(name: Bytes, size: nat, device: Bytes, utf8: Bytes -> bool)
    requires ChartName(name) && Storable(name, utf8) && utf8([])
    requires |device| == 8 && ZeroNumber(device) && size < Pow8(11)
    ensures ChartHeader(Header(name, size, device), utf8) == Some(Entry(name, size))
    ensures !AllZero(Header(name, size, device))
  {
    HeaderIsPlain(name, size, device);
    ChartNumbers(name, size, device);
    ChartTexts(name, size, device, utf8);
    assert Header(name, size, device)[156] == 48;
  }
}
