/** When the two archive readers accept, with every bound and every order spelled out
    (scripts/generate-deployment-sbom.py, scripts/generate-bundle-sbom.py). */
module ArchiveBounds {
  import opened Text
  import opened Ustar
  import opened TarHeaders
  import opened TarReaders
  import opened ChartReader
  import opened BundleReader

  /** At the first difference `k` the first string ends or has the smaller byte. */
  predicate FirstSmaller(a: Bytes, b: Bytes, k: nat) {
    k <= |a| && k < |b| && a[..k] == b[..k] && (k == |a| || a[k] < b[k])
  }

  ghost predicate Before(a: Bytes, b: Bytes) { exists k: nat :: FirstSmaller(a, b, k) }

  lemma {:induction false} SmallerIsLess(a: Bytes, b: Bytes, k: nat)
    requires FirstSmaller(a, b, k)
    ensures Less(a, b)
    decreases k
  {
    if k > 0 {
      assert a[..k][0] == a[0] && b[..k][0] == b[0];
      assert a[1..][..k - 1] == a[..k][1..] && b[1..][..k - 1] == b[..k][1..];
      SmallerIsLess(a[1..], b[1..], k - 1);
    }
  }

  lemma {:induction false} LessDiffersAt(a: Bytes, b: Bytes) returns (k: nat)
    requires Less(a, b)
    ensures FirstSmaller(a, b, k)
    decreases |a|
  {
    k := 0;
    if a != [] && a[0] >= b[0] {
      k := LessDiffersAt(a[1..], b[1..]);
      k := k + 1;
      assert a[..k] == [a[0]] + a[1..][..k - 1] && b[..k] == [b[0]] + b[1..][..k - 1];
    }
  }

  lemma LessMeans(a: Bytes, b: Bytes)
    ensures Less(a, b) <==> Before(a, b)
  {
    if Less(a, b) { var k := LessDiffersAt(a, b); }
    if k: nat :| FirstSmaller(a, b, k) { SmallerIsLess(a, b, k); }
  }

  /** The offsets of the payloads when they are laid end to end, and the end of the last. */
  ghost predicate Offsets(ms: seq<File>, at: seq<nat>) {
    && |at| == |ms| + 1 && at[0] == 0
    && forall i :: 0 <= i < |ms| ==> at[i + 1] == at[i] + |ms[i].payload|
  }

  lemma {:induction false} TotalMeans(ms: seq<File>, at: seq<nat>)
    requires Offsets(ms, at)
    ensures Total(ms) == at[|ms|]
  {
    if ms != [] { TotalMeans(ms[..|ms| - 1], at[..|ms|]); }
  }

  lemma {:induction false} OffsetsExist(ms: seq<File>) returns (at: seq<nat>)
    ensures Offsets(ms, at)
  {
    at := [0];
    if ms != [] {
      at := OffsetsExist(ms[..|ms| - 1]);
      at := at + [at[|ms| - 1] + |ms[|ms| - 1].payload|];
    }
  }

  /** All the payloads together are at most `limit` bytes. */
  ghost predicate Within(ms: seq<File>, limit: nat) { exists at :: Offsets(ms, at) && at[|ms|] <= limit }

  lemma WithinMeans(ms: seq<File>, limit: nat)
    ensures Total(ms) <= limit <==> Within(ms, limit)
  {
    var at := OffsetsExist(ms);
    TotalMeans(ms, at);
    if other :| Offsets(ms, other) && other[|ms|] <= limit { TotalMeans(ms, other); }
  }

  /** Some member has this name. */
  ghost predicate Holds(ms: seq<File>, name: Bytes) { exists i :: 0 <= i < |ms| && ms[i].name == name }

  /** Some member is under this directory. */
  ghost predicate Under(ms: seq<File>, dir: Bytes) {
    exists i :: 0 <= i < |ms| && |dir| <= |ms[i].name| && ms[i].name[..|dir|] == dir
  }

  /** What a chart archive that the reader accepts holds. */
  ghost predicate ChartHolds(ms: seq<File>, n: Names, q: Required) {
    && |ms| <= 10000 && Within(ms, 268435456)
    && (forall i :: 0 < i < |ms| ==> Before(ms[i - 1].name, ms[i].name))
    && (forall i, j :: 0 <= i < |ms| && 0 <= j < |ms| && n.fold(ms[i].name) == n.fold(ms[j].name) ==> i == j)
    && Holds(ms, q.chart) && Holds(ms, q.values) && Under(ms, q.templates)
  }

  lemma SortedMeans(ms: seq<File>)
    ensures Sorted(ms) <==> forall i :: 0 < i < |ms| ==> Before(ms[i - 1].name, ms[i].name)
  {
    forall i | 0 < i < |ms| ensures Before(ms[i - 1].name, ms[i].name) <==> Less(ms[i - 1].name, ms[i].name) {
      LessMeans(ms[i - 1].name, ms[i].name);
    }
  }

  lemma UniqueMeans(ms: seq<File>, n: Names)
    ensures Unique(ms, n.fold) <==>
      forall i, j :: 0 <= i < |ms| && 0 <= j < |ms| && n.fold(ms[i].name) == n.fold(ms[j].name) ==> i == j
  {}

  lemma CompleteMeans(ms: seq<File>, q: Required)
    ensures Complete(ms, q) <==> Holds(ms, q.chart) && Holds(ms, q.values) && Under(ms, q.templates)
  {
    if m :| m in ms && q.templates <= m.name {
      var i :| 0 <= i < |ms| && ms[i] == m;
    }
    if i :| 0 <= i < |ms| && |q.templates| <= |ms[i].name| && ms[i].name[..|q.templates|] == q.templates {
      assert ms[i] in ms && q.templates <= ms[i].name;
    }
  }

  lemma ChartAccepts(b: Bytes, n: Names, q: Required, ms: seq<File>)
    ensures AcceptedBy(Check(n), b, n, q) == Some(ms) <==> Parse(Check(n), b) == Some(ms) && ChartHolds(ms, n, q)
  {
    if Parse(Check(n), b) == Some(ms) {
      SortedMeans(ms);
      UniqueMeans(ms, n);
      WithinMeans(ms, 268435456);
      CompleteMeans(ms, q);
    }
  }

  /** What a bundle that the reader accepts holds. */
  ghost predicate BundleHolds(ms: seq<File>, n: Names, k: Manifests) {
    && 0 < |ms| <= 200000 && Within(ms, 1099511627776)
    && (forall i :: 0 <= i < |ms| ==> |ms[i].payload| <= 274877906944)
    && (forall i :: 0 <= i < |ms| && ms[i].name in k.names ==> |ms[i].payload| <= 4194304)
    && forall i, j :: 0 <= i < |ms| && 0 <= j < |ms| && n.fold(ms[i].name) == n.fold(ms[j].name) ==> i == j
  }

  lemma BundleAccepts(check: HeaderCheck, b: Bytes, n: Names, k: Manifests, ms: seq<File>)
    ensures BundleAccepted(check, b, n, k) == Some(ms) <==> Parse(check, b) == Some(ms) && BundleHolds(ms, n, k)
  {
    UniqueMeans(ms, n);
    WithinMeans(ms, 1099511627776);
    if BundleOk(ms, n, k) {
      forall i | 0 <= i < |ms| ensures
        |ms[i].payload| <= 274877906944 && (ms[i].name in k.names ==> |ms[i].payload| <= 4194304)
      {
        assert FitsAlone(ms[i], k);
      }
    }
  }
}
