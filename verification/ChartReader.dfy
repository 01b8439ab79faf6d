/** The chart archive reader (scripts/generate-deployment-sbom.py). */
module ChartReader {
  import opened Text
  import opened Ustar
  import opened TarHeaders
  import opened TarReaders

  const MAX_MEMBERS := 10000
  const MAX_BYTES := 256 * 1024 * 1024

  /** How names are decoded and case-folded. */
  datatype Names = Names(utf8: Bytes -> bool, fold: Bytes -> Bytes)

  /** Lexicographic order of byte strings, the same as that of the code points they encode. */
  predicate Less(a: Bytes, b: Bytes) {
    b != [] && (a == [] || a[0] < b[0] || (a[0] == b[0] && Less(a[1..], b[1..])))
  }

  function Total(ms: seq<File>): nat {
    if ms == [] then 0 else Total(ms[..|ms| - 1]) + |ms[|ms| - 1].payload|
  }

  predicate Sorted(ms: seq<File>) {
    forall i :: 0 < i < |ms| ==> Less(ms[i - 1].name, ms[i].name)
  }

  predicate Unique(ms: seq<File>, fold: Bytes -> Bytes) {
    forall i, j :: 0 <= i < j < |ms| ==> fold(ms[i].name) != fold(ms[j].name)
  }

  /** What the reader asks of the members as a whole. */
  predicate Admissible(ms: seq<File>, n: Names) {
    Sorted(ms) && Unique(ms, n.fold) && |ms| <= MAX_MEMBERS && Total(ms) <= MAX_BYTES
  }

  predicate Named(ms: seq<File>, name: Bytes) { exists m <- ms :: m.name == name }

  /** The file names that a chart must have, under "tritium/". */
  datatype Required = Required(chart: Bytes, values: Bytes, templates: Bytes)

  predicate Complete(ms: seq<File>, q: Required) {
    && Named(ms, q.chart) && Named(ms, q.values)
    && exists m <- ms :: q.templates <= m.name
  }

  function Check(n: Names): HeaderCheck { h => ChartHeader(h, n.utf8) }

  lemma AdmissibleSnoc(done: seq<File>, m: File, n: Names)
    requires Admissible(done, n)
    ensures Admissible(done + [m], n) <==>
      && (done != [] ==> Less(done[|done| - 1].name, m.name))
      && (forall d <- done :: n.fold(d.name) != n.fold(m.name))
      && |done| < MAX_MEMBERS && Total(done) + |m.payload| <= MAX_BYTES
  {
    var all := done + [m];
    assert all[..|done|] == done && all[|done|] == m;
    if Admissible(all, n) {
      forall d <- done ensures n.fold(d.name) != n.fold(m.name) {
        var i :| 0 <= i < |done| && done[i] == d;
        assert all[i] == d;
      }
      if done != [] { assert all[|done| - 1] == done[|done| - 1]; }
    }
  }

  lemma {:induction false} AdmissiblePrefix(done: seq<File>, rest: seq<File>, n: Names)
    requires Admissible(done + rest, n)
    ensures Admissible(done, n)
    decreases |rest|
  {
    if rest == [] {
      assert done + rest == done;
    } else {
      var all, init := done + rest, done + rest[..|rest| - 1];
      assert all[..|all| - 1] == init;
      forall i | 0 < i < |init| ensures Less(init[i - 1].name, init[i].name) {
        assert init[i] == all[i] && init[i - 1] == all[i - 1];
      }
      forall i, j | 0 <= i < j < |init| ensures n.fold(init[i].name) != n.fold(init[j].name) {
        assert init[i] == all[i] && init[j] == all[j];
      }
      AdmissiblePrefix(done, rest[..|rest| - 1], n);
    }
  }

  /** The list that an archive is accepted with. */
  ghost function AcceptedBy(check: HeaderCheck, b: Bytes, n: Names, q: Required): Option<seq<File>> {
    var parsed := Parse(check, b);
    if parsed.Some? && Admissible(parsed.value, n) && Complete(parsed.value, q) then parsed else None
  }

  lemma Inadmissible(check: HeaderCheck, b: Bytes, n: Names, q: Required, done: seq<File>, pos: nat)
    requires pos <= |b| && Progress(check, b, done, pos) && !Admissible(done, n)
    ensures AcceptedBy(check, b, n, q) == None
  {
    var rest := Parse(check, b[pos..]);
    if rest.Some? && Admissible(done + rest.value, n) { AdmissiblePrefix(done, rest.value, n); }
  }

  /** The running variables of the reader agree with the members read so far. */
  ghost predicate Tracks(done: seq<File>, previous: Bytes, portable: set<Bytes>, total: nat, n: Names) {
    && total == Total(done) && portable == (set m <- done :: n.fold(m.name))
    && previous == if done == [] then [] else done[|done| - 1].name
  }

  /** The reader's tests on the next member, from its running variables. */
  method Admit(done: seq<File>, previous: Bytes, portable: set<Bytes>, total: nat, m: File, n: Names)
    returns (ok: bool)
    requires Admissible(done, n) && Tracks(done, previous, portable, total, n) && m.name != []
    ensures ok <==> Admissible(done + [m], n)
    ensures Tracks(done + [m], m.name, portable + {n.fold(m.name)}, total + |m.payload|, n)
  {
    AdmissibleSnoc(done, m, n);
    assert (done + [m])[..|done|] == done;
    ok := Less(previous, m.name) && n.fold(m.name) !in portable
      && |done| != MAX_MEMBERS && total + |m.payload| <= MAX_BYTES;
  }

  /** The reader's loop, for any check that lets no empty name pass. */
  method InventoryWith(check: HeaderCheck, b: Bytes, n: Names, q: Required) returns (result: Option<seq<File>>)
    requires forall h :: check(h).Some? ==> check(h).value.name != []
    ensures result == AcceptedBy(check, b, n, q)
  {
    var records: seq<File>, previous: Bytes, pos, total: nat := [], [], 0, 0;
    var portable: set<Bytes> := {};
    ProgressStart(check, b);
    while true
      invariant pos <= |b| && Progress(check, b, records, pos)
      invariant Admissible(records, n) && Tracks(records, previous, portable, total, n)
      decreases |b| - pos
    {
      var reading := ReadMember(check, b, pos);
      if reading.Bad? { return None; }
      if reading.End? { break; }
      var m := reading.member;
      ProgressStep(check, b, records, pos, m, reading.end);
      var ok := Admit(records, previous, portable, total, m, n);
      if !ok {
        Inadmissible(check, b, n, q, records + [m], reading.end);
        return None;
      }
      records, previous, pos, total := records + [m], m.name, reading.end, total + |m.payload|;
      portable := portable + {n.fold(m.name)};
    }
    assert records + [] == records;
    result := if Complete(records, q) then Some(records) else None;
  }

  lemma ChartNamesNotEmpty(h: Bytes, n: Names)
    ensures ChartHeader(h, n.utf8).Some? ==> ChartHeader(h, n.utf8).value.name != []
  {
  }

  /** The chart reader accepts exactly the archives that parse to an admissible, complete list
      of members, and returns that list. */
  method Inventory(b: Bytes, n: Names, q: Required) returns (result: Option<seq<File>>)
    ensures result == AcceptedBy(Check(n), b, n, q)
  {
    forall h ensures Check(n)(h).Some? ==> Check(n)(h).value.name != [] { ChartNamesNotEmpty(h, n); }
    result := InventoryWith(Check(n), b, n, q);
  }
}
