/** The two strict archive readers, over one notion of what an archive is: blocks of header,
    payload and zero padding, then at least two zero blocks and nothing else. */
module TarReaders {
  import opened Text
  import opened Ustar
  import opened TarHeaders

  type HeaderCheck = Bytes -> Option<Entry>

  /** The readers' way to say how far a payload is from a block boundary. */
  function Padding(size: nat): nat {
    var n: int := size;
    (-n) % 512
  }

  /** Three ways to round up to whole blocks: the streaming readers', the writer's, and the
      seeking scan's. */
  lemma PaddingForms(size: nat)
    ensures Padding(size) == Fill(size) < 512
    ensures size + Padding(size) == ((size + 511) / 512) * 512
  {
    var n: int, q, r := size, size / 512, size % 512;
    assert size == 512 * q + r;
    if r == 0 {
      assert -n == 512 * (-q);
      assert (size + 511) / 512 == q;
    } else {
      assert -n == 512 * (-q - 1) + (512 - r);
      assert size + 511 == 512 * (q + 1) + (r - 1);
      assert (size + 511) / 512 == q + 1;
    }
  }

  /** What is in an archive, header by header from the front. */
  function Parse(check: HeaderCheck, b: Bytes): Option<seq<File>>
    decreases |b|
  {
    if |b| < 512 then None
    else if AllZero(b[..512]) then
      if |b| >= 1024 && AllZero(b) && |b| % 512 == 0 then Some([]) else None
    else match check(b[..512])
      case None => None
      case Some(Entry(name, size)) =>
        var end := 512 + size + Padding(size);
        if |b| < end || !AllZero(b[512 + size..end]) then None
        else match Parse(check, b[end..])
          case None => None
          case Some(rest) => Some([File(name, b[512..512 + size])] + rest)
  }

  // Byte accounting --------------------------------------------------------------------------

  function Block(h: Bytes, m: File): (b: Bytes)
    ensures |b| == |h| + |m.payload| + Padding(|m.payload|)
  {
    h + m.payload + Zeros(Padding(|m.payload|))
  }

  /** The blocks of the members `ms` with headers `hs`, one after the other. */
  function Layout(hs: seq<Bytes>, ms: seq<File>): Bytes
    requires |hs| == |ms|
  {
    if ms == [] then [] else Block(hs[0], ms[0]) + Layout(hs[1..], ms[1..])
  }

  predicate GoodHeader(check: HeaderCheck, h: Bytes, m: File) {
    |h| == 512 && !AllZero(h) && check(h) == Some(Entry(m.name, |m.payload|))
  }

  /** The archive is exactly the blocks of its members and a tail of zero blocks. */
  ghost predicate Accounted(check: HeaderCheck, b: Bytes, hs: seq<Bytes>, ms: seq<File>, tail: nat) {
    && |hs| == |ms| && (forall i :: 0 <= i < |ms| ==> GoodHeader(check, hs[i], ms[i]))
    && tail >= 1024 && tail % 512 == 0
    && b == Layout(hs, ms) + Zeros(tail)
  }

  lemma ZerosOf(b: Bytes)
    requires AllZero(b)
    ensures b == Zeros(|b|)
  {
  }

  lemma Reblock(b: Bytes, m: File, rest: Bytes)
    requires var end := 512 + |m.payload| + Padding(|m.payload|);
      && end <= |b| && b[512..512 + |m.payload|] == m.payload
      && AllZero(b[512 + |m.payload|..end]) && b[end..] == rest
    ensures b == Block(b[..512], m) + rest
  {
    var size := |m.payload|;
    var end := 512 + size + Padding(size);
    ZerosOf(b[512 + size..end]);
    assert b == b[..512] + b[512..512 + size] + b[512 + size..end] + b[end..];
  }

  lemma AccountedCons(check: HeaderCheck, h: Bytes, m: File, b: Bytes, hs: seq<Bytes>, ms: seq<File>, tail: nat)
    requires Accounted(check, b, hs, ms, tail) && GoodHeader(check, h, m)
    ensures Accounted(check, Block(h, m) + b, [h] + hs, [m] + ms, tail)
  {
    assert ([h] + hs)[1..] == hs && ([m] + ms)[1..] == ms;
    assert Layout([h] + hs, [m] + ms) == Block(h, m) + Layout(hs, ms);
    assert Block(h, m) + (Layout(hs, ms) + Zeros(tail)) == Block(h, m) + Layout(hs, ms) + Zeros(tail);
  }

  /** The first member of an archive and what comes after it. */
  lemma ParseFirst(check: HeaderCheck, b: Bytes) returns (m: File, rest: Bytes)
    requires Parse(check, b).Some? && !AllZero(b[..512])
    ensures GoodHeader(check, b[..512], m) && b == Block(b[..512], m) + rest && |rest| < |b|
    ensures Parse(check, rest).Some? && Parse(check, b).value == [m] + Parse(check, rest).value
  {
    var e := check(b[..512]).value;
    var end := 512 + e.size + Padding(e.size);
    m, rest := File(e.name, b[512..512 + e.size]), b[end..];
    Reblock(b, m, rest);
  }

  lemma EmptyAccounted(check: HeaderCheck, b: Bytes)
    requires |b| >= 1024 && AllZero(b) && |b| % 512 == 0
    ensures Accounted(check, b, [], [], |b|)
  {
    ZerosOf(b);
    assert Layout([], []) + Zeros(|b|) == Zeros(|b|);
  }

  lemma {:induction false} ParseIsAccounted(check: HeaderCheck, b: Bytes) returns (hs: seq<Bytes>, tail: nat)
    ensures Parse(check, b).Some? ==> Accounted(check, b, hs, Parse(check, b).value, tail)
    decreases |b|
  {
    hs, tail := [], |b|;
    if Parse(check, b).None? { return; }
    if AllZero(b[..512]) {
      EmptyAccounted(check, b);
    } else {
      var m, rest := ParseFirst(check, b);
      hs, tail := ParseIsAccounted(check, rest);
      AccountedCons(check, b[..512], m, rest, hs, Parse(check, rest).value, tail);
      hs := [b[..512]] + hs;
    }
  }

  lemma BlockSlices(h: Bytes, m: File, rest: Bytes)
    requires |h| == 512
    ensures var b, size := Block(h, m) + rest, |m.payload|;
      var end := 512 + size + Padding(size);
      && b[..512] == h && b[512..512 + size] == m.payload
      && AllZero(b[512 + size..end]) && b[end..] == rest
  {
    var b, size := Block(h, m) + rest, |m.payload|;
    assert b[512 + size..512 + size + Padding(size)] == Zeros(Padding(size));
  }

  lemma {:induction false} AccountedParses(check: HeaderCheck, hs: seq<Bytes>, ms: seq<File>, tail: nat)
    requires |hs| == |ms| && (forall i :: 0 <= i < |ms| ==> GoodHeader(check, hs[i], ms[i]))
    requires tail >= 1024 && tail % 512 == 0
    ensures Parse(check, Layout(hs, ms) + Zeros(tail)) == Some(ms)
    decreases |ms|
  {
    if ms == [] {
      assert Layout(hs, ms) + Zeros(tail) == Zeros(tail);
      assert Zeros(tail)[..512] == Zeros(512);
    } else {
      var rest := Layout(hs[1..], ms[1..]) + Zeros(tail);
      var b := Block(hs[0], ms[0]) + rest;
      assert Layout(hs, ms) + Zeros(tail) == b;
      AccountedParses(check, hs[1..], ms[1..], tail);
      BlockSlices(hs[0], ms[0], rest);
      assert GoodHeader(check, hs[0], ms[0]);
      assert [File(ms[0].name, ms[0].payload)] + ms[1..] == ms;
    }
  }

  lemma WholeSum(a: nat, b: nat)
    requires a % 512 == 0 && b % 512 == 0
    ensures (a + b) % 512 == 0
  {
  }

  lemma {:induction false} LayoutWhole(hs: seq<Bytes>, ms: seq<File>)
    requires |hs| == |ms| && forall i :: 0 <= i < |hs| ==> |hs[i]| == 512
    ensures |Layout(hs, ms)| % 512 == 0
    decreases |ms|
  {
    if ms != [] {
      LayoutWhole(hs[1..], ms[1..]);
      PaddingForms(|ms[0].payload|);
      WholeSum(|Block(hs[0], ms[0])|, |Layout(hs[1..], ms[1..])|);
    }
  }

  /** An archive that is accounted for is a whole number of blocks. */
  lemma AccountedWhole(check: HeaderCheck, b: Bytes, hs: seq<Bytes>, ms: seq<File>, tail: nat)
    requires Accounted(check, b, hs, ms, tail)
    ensures |b| % 512 == 0
  {
    forall i | 0 <= i < |hs| ensures |hs[i]| == 512 { assert GoodHeader(check, hs[i], ms[i]); }
    LayoutWhole(hs, ms);
    WholeSum(|Layout(hs, ms)|, tail);
  }

  /** An archive parses to `ms` if and only if every one of its bytes is accounted for: in the
      header, payload or zero padding of one of the members `ms`, or in the zero tail. */
  lemma ParseIffAccounted(check: HeaderCheck, b: Bytes, ms: seq<File>)
    ensures Parse(check, b) == Some(ms) <==> exists hs, tail :: Accounted(check, b, hs, ms, tail)
  {
    if Parse(check, b) == Some(ms) {
      var hs, tail := ParseIsAccounted(check, b);
    }
    if hs, tail :| Accounted(check, b, hs, ms, tail) {
      AccountedParses(check, hs, ms, tail);
    }
  }

  // Reading one member at a time -------------------------------------------------------------

  /** `m` in front of a parse. */
  function Prepend(m: File, rest: Option<seq<File>>): Option<seq<File>> {
    if rest.None? then None else Some([m] + rest.value)
  }

  lemma ParseAt(check: HeaderCheck, b: Bytes, pos: nat, e: Entry)
    requires pos + 512 <= |b| && !AllZero(b[pos..pos + 512]) && check(b[pos..pos + 512]) == Some(e)
    ensures var body := pos + 512;
      var end := body + e.size + Padding(e.size);
      Parse(check, b[pos..]) ==
        if |b| < end || !AllZero(b[body + e.size..end]) then None
        else Prepend(File(e.name, b[body..body + e.size]), Parse(check, b[end..]))
  {
    var c, size, end := b[pos..], e.size, 512 + e.size + Padding(e.size);
    assert c[..512] == b[pos..pos + 512];
    if end <= |c| {
      assert c[512 + size..end] == b[pos + 512 + size..pos + end];
      assert c[end..] == b[pos + end..];
      assert c[512..512 + size] == b[pos + 512..pos + 512 + size];
    }
  }

  datatype Reading = Bad | End | Got(member: File, end: nat)

  /** What a reading at `pos` says about the rest of the archive. */
  ghost predicate Says(check: HeaderCheck, b: Bytes, pos: nat, reading: Reading)
    requires pos <= |b|
  {
    match reading
    case Bad => Parse(check, b[pos..]) == None
    case End => Parse(check, b[pos..]) == Some([])
    case Got(m, end) =>
      && pos + 512 <= end <= |b| && check(b[pos..pos + 512]) == Some(Entry(m.name, |m.payload|))
      && Parse(check, b[pos..]) == Prepend(m, Parse(check, b[end..]))
  }

  /** Whether `b` is a proper end of an archive: two or more zero blocks. */
  predicate EndBlocks(b: Bytes) { |b| >= 1024 && AllZero(b) && |b| % 512 == 0 }

  lemma ParseTail(check: HeaderCheck, b: Bytes, pos: nat)
    requires pos + 512 <= |b| && AllZero(b[pos..pos + 512])
    ensures Parse(check, b[pos..]) == if EndBlocks(b[pos..]) then Some([]) else None
  {
    assert b[pos..][..512] == b[pos..pos + 512];
  }

  lemma ParseBad(check: HeaderCheck, b: Bytes, pos: nat)
    requires pos <= |b|
    requires |b| < pos + 512 || (!AllZero(b[pos..pos + 512]) && check(b[pos..pos + 512]) == None)
    ensures Parse(check, b[pos..]) == None
  {
    if pos + 512 <= |b| { assert b[pos..][..512] == b[pos..pos + 512]; }
  }

  method ReadMember(check: HeaderCheck, b: Bytes, pos: nat) returns (reading: Reading)
    requires pos <= |b|
    ensures Says(check, b, pos, reading)
  {
    if |b| - pos < 512 {
      ParseBad(check, b, pos);
      return Bad;
    }
    var header := b[pos..pos + 512];
    if AllZero(header) {
      ParseTail(check, b, pos);
      return if EndBlocks(b[pos..]) then End else Bad;
    }
    var entry := check(header);
    if entry.None? {
      ParseBad(check, b, pos);
      return Bad;
    }
    ParseAt(check, b, pos, entry.value);
    var body, size := pos + 512, entry.value.size;
    var end := body + size + Padding(size);
    if |b| < end || !AllZero(b[body + size..end]) { return Bad; }
    reading := Got(File(entry.value.name, b[body..body + size]), end);
  }

  /** The archive parses to the members already read, followed by what parses from `pos`. */
  ghost predicate Progress(check: HeaderCheck, b: Bytes, done: seq<File>, pos: nat)
    requires pos <= |b|
  {
    var rest := Parse(check, b[pos..]);
    Parse(check, b) == if rest.None? then None else Some(done + rest.value)
  }

  lemma ProgressStart(check: HeaderCheck, b: Bytes)
    ensures Progress(check, b, [], 0)
  {
    assert b[0..] == b;
    if Parse(check, b).Some? { assert [] + Parse(check, b).value == Parse(check, b).value; }
  }

  lemma ProgressStep(check: HeaderCheck, b: Bytes, done: seq<File>, pos: nat, m: File, end: nat)
    requires pos <= |b| && Progress(check, b, done, pos) && Says(check, b, pos, Got(m, end))
    ensures Progress(check, b, done + [m], end)
  {
    var rest := Parse(check, b[end..]);
    if rest.Some? { assert done + ([m] + rest.value) == done + [m] + rest.value; }
  }
}
