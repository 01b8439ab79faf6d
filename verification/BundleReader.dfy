/** The bundle archive reader (scripts/generate-bundle-sbom.py), over a stream that may hand
    out fewer bytes than it is asked for. */
module BundleReader {
  import opened Text
  import opened Ustar
  import opened TarHeaders
  import opened TarReaders
  import opened ChartReader

  const MAX_BUNDLE_MEMBERS := 200000
  const MAX_MEMBER_BYTES := 256 * 1024 * 1024 * 1024
  const MAX_UNCOMPRESSED_BYTES := 1024 * 1024 * 1024 * 1024
  const MAX_MANIFEST_BYTES := 4 * 1024 * 1024
  const CHUNK_BYTES := 1024 * 1024

  class Stream {
    const data: Bytes
    var pos: nat

    ghost predicate Valid()
      reads this
    {
      pos <= |data|
    }

    constructor (data: Bytes)
      ensures this.data == data && pos == 0 && Valid()
    {
      this.data := data;
      pos := 0;
    }

    /** Some of the next `n` bytes: none only at the end of the data. */
    method Read(n: nat) returns (chunk: Bytes)
      requires Valid()
      modifies this`pos
      ensures Valid() && old(pos) <= pos <= old(pos) + n && chunk == data[old(pos)..pos]
      ensures chunk == [] <==> n == 0 || old(pos) == |data|
    {
      var most := if n < |data| - pos then n else |data| - pos;
      var k := 0;
      if most > 0 { k :| 1 <= k <= most; }
      chunk := data[pos..pos + k];
      pos := pos + k;
    }

    /** Exactly the next `size` bytes, in as many reads as it takes. */
    method ReadExact(size: nat) returns (r: Option<Bytes>)
      requires Valid()
      modifies this`pos
      ensures Valid()
      ensures r == if old(pos) + size <= |data| then Some(data[old(pos)..old(pos) + size]) else None
      ensures r.Some? ==> pos == old(pos) + size
    {
      var output: Bytes := [];
      while |output| < size
        invariant Valid() && pos == old(pos) + |output| <= old(pos) + size
        invariant output == data[old(pos)..pos]
      {
        var chunk := Read(size - |output|);
        if chunk == [] { return None; }
        output := output + chunk;
      }
      r := Some(output);
    }

    /** Whether all that is left is zero, and how much that was. */
    method DrainZeros() returns (zero: bool, count: nat)
      requires Valid()
      modifies this`pos
      ensures Valid() && zero == AllZero(data[old(pos)..])
      ensures zero ==> count == |data| - old(pos)
    {
      zero, count := true, 0;
      while true
        invariant Valid() && pos == old(pos) + count && AllZero(data[old(pos)..pos])
        decreases |data| - pos
      {
        ghost var before := pos;
        var chunk := Read(CHUNK_BYTES);
        if chunk == [] { break; }
        count := count + |chunk|;
        if !AllZero(chunk) {
          ghost var i :| 0 <= i < |chunk| && chunk[i] != 0;
          assert data[old(pos)..][before - old(pos) + i] != 0;
          zero := false;
          return;
        }
        assert data[old(pos)..pos] == data[old(pos)..before] + chunk;
      }
      assert data[old(pos)..pos] == data[old(pos)..];
    }

    /** After a zero block: the archive must end here. */
    method AtEnd() returns (ends: bool)
      requires Valid() && pos >= 512 && AllZero(data[pos - 512..pos])
      modifies this`pos
      ensures Valid() && ends == EndBlocks(data[old(pos) - 512..])
    {
      ghost var start := pos - 512;
      var second := ReadExact(512);
      if second.None? { return false; }
      EndPieces(data, start);
      if !AllZero(second.value) { return false; }
      var zero, trailing := DrainZeros();
      ends := zero && (1024 + trailing) % 512 == 0;
    }

    /** The next member, or the end of the archive. */
    method Next(check: HeaderCheck) returns (reading: Reading)
      requires Valid()
      modifies this`pos
      ensures Valid() && Says(check, data, old(pos), reading)
      ensures reading.Got? ==> pos == reading.end
    {
      ghost var start := pos;
      var header := ReadExact(512);
      if header.None? {
        ParseBad(check, data, start);
        return Bad;
      }
      if AllZero(header.value) {
        ParseTail(check, data, start);
        var ends := AtEnd();
        return if ends then End else Bad;
      }
      var entry := check(header.value);
      if entry.None? {
        ParseBad(check, data, start);
        return Bad;
      }
      ParseAt(check, data, start, entry.value);
      reading := Body(entry.value);
    }

    /** Payload and padding of a member whose header has been read. */
    method Body(e: Entry) returns (reading: Reading)
      requires Valid()
      modifies this`pos
      ensures Valid()
      ensures var end := old(pos) + e.size + Padding(e.size);
        if |data| < end || !AllZero(data[old(pos) + e.size..end]) then reading.Bad?
        else reading == Got(File(e.name, data[old(pos)..old(pos) + e.size]), end) && pos == end
    {
      var payload := ReadExact(e.size);
      if payload.None? { return Bad; }
      var padding := ReadExact(Padding(e.size));
      if padding.None? || !AllZero(padding.value) { return Bad; }
      reading := Got(File(e.name, payload.value), pos);
    }
  }

  lemma EndPieces(data: Bytes, start: nat)
    requires start + 1024 <= |data| && AllZero(data[start..start + 512])
    ensures EndBlocks(data[start..]) <==>
      AllZero(data[start + 512..start + 1024]) && AllZero(data[start + 1024..]) && (|data| - start) % 512 == 0
  {
    var b := data[start..];
    assert b == data[start..start + 512] + data[start + 512..start + 1024] + data[start + 1024..];
    if AllZero(b) {
      var x, y := data[start + 512..start + 1024], data[start + 1024..];
      forall i | 0 <= i < |x| ensures x[i] == 0 { assert b[512 + i] == 0; }
      forall i | 0 <= i < |y| ensures y[i] == 0 { assert b[1024 + i] == 0; }
    }
  }

  // The members as a whole -------------------------------------------------------------------

  /** Manifests, which the reader keeps in memory: "tritium.json" and
      "tritium-onnx-manifest.json". */
  datatype Manifests = Manifests(names: set<Bytes>)

  predicate FitsAlone(m: File, k: Manifests) {
    |m.payload| <= MAX_MEMBER_BYTES && (m.name in k.names ==> |m.payload| <= MAX_MANIFEST_BYTES)
  }

  predicate BundleOk(ms: seq<File>, n: Names, k: Manifests) {
    && Unique(ms, n.fold) && |ms| <= MAX_BUNDLE_MEMBERS && Total(ms) <= MAX_UNCOMPRESSED_BYTES
    && forall i :: 0 <= i < |ms| ==> FitsAlone(ms[i], k)
  }

  lemma BundleSnoc(done: seq<File>, m: File, n: Names, k: Manifests)
    requires BundleOk(done, n, k)
    ensures BundleOk(done + [m], n, k) <==>
      && (forall d <- done :: n.fold(d.name) != n.fold(m.name))
      && |done| < MAX_BUNDLE_MEMBERS && Total(done) + |m.payload| <= MAX_UNCOMPRESSED_BYTES && FitsAlone(m, k)
    ensures Total(done + [m]) == Total(done) + |m.payload|
  {
    var all := done + [m];
    assert all[..|done|] == done && all[|done|] == m;
    if BundleOk(all, n, k) {
      forall d <- done ensures n.fold(d.name) != n.fold(m.name) {
        var i :| 0 <= i < |done| && done[i] == d;
        assert all[i] == d;
      }
    }
  }

  lemma {:induction false} BundlePrefix(done: seq<File>, rest: seq<File>, n: Names, k: Manifests)
    requires BundleOk(done + rest, n, k)
    ensures BundleOk(done, n, k)
    decreases |rest|
  {
    if rest == [] {
      assert done + rest == done;
    } else {
      var all, init := done + rest, done + rest[..|rest| - 1];
      assert all[..|all| - 1] == init;
      forall i | 0 <= i < |init| ensures FitsAlone(init[i], k) { assert init[i] == all[i]; }
      forall i, j | 0 <= i < j < |init| ensures n.fold(init[i].name) != n.fold(init[j].name) {
        assert init[i] == all[i] && init[j] == all[j];
      }
      BundlePrefix(done, rest[..|rest| - 1], n, k);
    }
  }

  ghost function BundleAccepted(check: HeaderCheck, b: Bytes, n: Names, k: Manifests): Option<seq<File>> {
    var parsed := Parse(check, b);
    if parsed.Some? && BundleOk(parsed.value, n, k) && parsed.value != [] then parsed else None
  }

  lemma BundleInadmissible(check: HeaderCheck, b: Bytes, n: Names, k: Manifests, done: seq<File>, pos: nat)
    requires pos <= |b| && Progress(check, b, done, pos) && !BundleOk(done, n, k)
    ensures BundleAccepted(check, b, n, k) == None
  {
    var rest := Parse(check, b[pos..]);
    if rest.Some? && BundleOk(done + rest.value, n, k) { BundlePrefix(done, rest.value, n, k); }
  }

  /** The bundle reader, whatever portions the stream delivers: it accepts exactly the archives
      that parse to a nonempty list within its bounds, and returns that list. */
  method InventoryStream(s: Stream, check: HeaderCheck, n: Names, k: Manifests) returns (result: Option<seq<File>>)
    requires s.Valid() && s.pos == 0
    modifies s
    ensures result == BundleAccepted(check, s.data, n, k)
  {
    var records: seq<File>, portable: set<Bytes>, total: nat := [], {}, 0;
    ProgressStart(check, s.data);
    while true
      invariant s.Valid() && Progress(check, s.data, records, s.pos)
      invariant BundleOk(records, n, k) && total == Total(records)
      invariant portable == set m <- records :: n.fold(m.name)
      decreases |s.data| - s.pos
    {
      ghost var pos := s.pos;
      var reading := s.Next(check);
      if reading.Bad? { return None; }
      if reading.End? {
        assert records + [] == records;
        return if records == [] then None else Some(records);
      }
      var m := reading.member;
      ProgressStep(check, s.data, records, pos, m, reading.end);
      BundleSnoc(records, m, n, k);
      if n.fold(m.name) in portable || |records| == MAX_BUNDLE_MEMBERS || !FitsAlone(m, k)
        || total + |m.payload| > MAX_UNCOMPRESSED_BYTES
      {
        BundleInadmissible(check, s.data, n, k, records + [m], reading.end);
        return None;
      }
      records, total, portable := records + [m], total + |m.payload|, portable + {n.fold(m.name)};
    }
  }
}
