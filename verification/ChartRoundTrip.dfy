/** What the packager writes, the chart reader reads back. */
module ChartRoundTrip {
  import opened Text
  import opened Ustar
  import opened TarHeaders
  import opened TarReaders
  import opened TarHeaderRoundTrip
  import opened ChartReader
  import opened ChartOrder

  const MAX_FILE_BYTES := 16 * 1024 * 1024
  const MAX_CHART_BYTES := 64 * 1024 * 1024

  /** A file found below the chart directory. */
  datatype Found = Found(path: Components, payload: Bytes)

  function ArchiveName(path: Components): Bytes
    requires path != []
  {
    Join([TRITIUM] + path)
  }

  function Packed(f: Found): File
    requires f.path != []
  {
    File(ArchiveName(f.path), f.payload)
  }

  /** What the packager asks of one file. */
  predicate Packable(f: Found)
    requires f.path != []
  {
    BACKSLASH !in ArchiveName(f.path) && |ArchiveName(f.path)| <= 100 && |f.payload| <= MAX_FILE_BYTES
  }

  predicate Small(files: seq<File>, n: Names) { Unique(files, n.fold) && Total(files) <= MAX_CHART_BYTES }

  /** What it asks of all of them. */
  predicate Source(files: seq<File>, n: Names, q: Required) { Small(files, n) && Complete(files, q) }

  ghost predicate AllFound(found: seq<Found>, n: Names) {
    forall i :: 0 <= i < |found| ==> Path(found[i].path) && n.utf8(ArchiveName(found[i].path))
  }

  function PackedAll(found: seq<Found>): (files: seq<File>)
    requires forall i :: 0 <= i < |found| ==> found[i].path != []
    ensures |files| == |found|
  {
    seq(|found|, i requires 0 <= i < |found| => Packed(found[i]))
  }

  function Folds(files: seq<File>, fold: Bytes -> Bytes): set<Bytes> { set m <- files :: fold(m.name) }

  lemma FoldsSnoc(files: seq<File>, k: nat, fold: Bytes -> Bytes)
    requires k < |files| && Unique(files[..k], fold)
    ensures Folds(files[..k + 1], fold) == Folds(files[..k], fold) + {fold(files[k].name)}
    ensures Unique(files[..k + 1], fold) <==> fold(files[k].name) !in Folds(files[..k], fold)
  {
    var now := files[..k];
    assert files[..k + 1] == now + [files[k]];
    if fold(files[k].name) in Folds(now, fold) {
      var m :| m in now && fold(m.name) == fold(files[k].name);
      var j :| 0 <= j < k && now[j] == m;
      assert files[..k + 1][j] == m && files[..k + 1][k] == files[k];
    } else {
      assert forall j :: 0 <= j < k ==> now[j] in now;
    }
  }

  lemma SmallPrefix(files: seq<File>, k: nat, n: Names)
    requires k <= |files| && Small(files, n)
    ensures Small(files[..k], n)
  {
    TotalPrefix(files, k);
  }

  lemma NotSmall(files: seq<File>, k: nat, n: Names)
    requires k <= |files| && !Small(files[..k], n)
    ensures !Small(files, n)
  {
    if Small(files, n) { SmallPrefix(files, k, n); }
  }

  lemma SmallSnoc(files: seq<File>, k: nat, n: Names)
    requires k < |files| && Small(files[..k], n)
    ensures Folds(files[..k + 1], n.fold) == Folds(files[..k], n.fold) + {n.fold(files[k].name)}
    ensures Total(files[..k + 1]) == Total(files[..k]) + |files[k].payload|
    ensures Small(files[..k + 1], n) <==>
      n.fold(files[k].name) !in Folds(files[..k], n.fold) && Total(files[..k]) + |files[k].payload| <= MAX_CHART_BYTES
  {
    FoldsSnoc(files, k, n.fold);
    assert files[..k + 1][..k] == files[..k];
  }

  /** What the packager's loop keeps about the first `i` files. */
  ghost predicate Counted(all: seq<File>, n: Names, i: nat, portable: set<Bytes>, total: int) {
    i <= |all| && Small(all[..i], n) && total == Total(all[..i]) && portable == Folds(all[..i], n.fold)
  }

  lemma CountNext(all: seq<File>, n: Names, i: nat, portable: set<Bytes>, total: int)
    requires i < |all| && Counted(all, n, i, portable, total)
    ensures n.fold(all[i].name) in portable || total + |all[i].payload| > MAX_CHART_BYTES ==> !Small(all, n)
    ensures !(n.fold(all[i].name) in portable || total + |all[i].payload| > MAX_CHART_BYTES) ==>
      Counted(all, n, i + 1, portable + {n.fold(all[i].name)}, total + |all[i].payload|)
  {
    SmallSnoc(all, i, n);
    if !Small(all[..i + 1], n) { NotSmall(all, i + 1, n); }
  }

  /** The packager's loop; `fits[i]` says whether file `i` passes its own tests. */
  method Gather(all: seq<File>, fits: seq<bool>, n: Names) returns (result: Option<seq<File>>)
    requires |fits| == |all|
    ensures result == if (forall i :: 0 <= i < |all| ==> fits[i]) && Small(all, n) then Some(all) else None
  {
    var files: seq<File>, portable: set<Bytes>, total: nat := [], {}, 0;
    for i := 0 to |all|
      invariant files == all[..i] && Counted(all, n, i, portable, total)
      invariant forall k :: 0 <= k < i ==> fits[k]
    {
      if !fits[i] { return None; }
      CountNext(all, n, i, portable, total);
      if n.fold(all[i].name) in portable || total + |all[i].payload| > MAX_CHART_BYTES { return None; }
      portable, total := portable + {n.fold(all[i].name)}, total + |all[i].payload|;
      files := files + [all[i]];
    }
    assert all[..|all|] == all;
    result := Some(files);
  }

  /** The packager's pass over the directory, in the order it sorts the paths. */
  method SourceFiles(found: seq<Found>, n: Names, q: Required) returns (result: Option<seq<File>>)
    requires forall i :: 0 <= i < |found| ==> found[i].path != []
    ensures result ==
      if (forall i :: 0 <= i < |found| ==> Packable(found[i])) && Source(PackedAll(found), n, q)
      then Some(PackedAll(found)) else None
  {
    var fits := seq(|found|, i requires 0 <= i < |found| => Packable(found[i]));
    assert forall i :: 0 <= i < |found| ==> fits[i] == Packable(found[i]);
    result := Gather(PackedAll(found), fits, n);
    if result.Some? && !Complete(result.value, q) { result := None; }
  }

  lemma {:induction false} TotalPrefix(files: seq<File>, k: nat)
    requires k <= |files|
    ensures Total(files[..k]) <= Total(files)
    decreases |files|
  {
    if k == |files| {
      assert files[..k] == files;
    } else {
      TotalPrefix(files[..|files| - 1], k);
      assert files[..|files| - 1][..k] == files[..k];
    }
  }

  // Round trip -------------------------------------------------------------------------------

  ghost predicate Writable(f: File, n: Names) {
    ChartName(f.name) && Storable(f.name, n.utf8) && |f.payload| <= MAX_FILE_BYTES
  }

  ghost function Headers(files: seq<File>, device: Bytes): (hs: seq<Bytes>)
    requires |device| == 8 && Short(files)
    ensures |hs| == |files|
  {
    seq(|files|, i requires 0 <= i < |files| => Header(files[i].name, |files[i].payload|, device))
  }

  lemma {:induction false} MembersAreLayout(files: seq<File>, device: Bytes)
    requires |device| == 8 && Short(files)
    ensures Members(files, device) == Layout(Headers(files, device), files)
    decreases |files|
  {
    if files != [] {
      var rest := files[1..];
      assert files == [files[0]] + rest;
      MembersCons(files[0], rest, device);
      MembersAreLayout(rest, device);
      assert Headers(files, device)[1..] == Headers(rest, device);
      PaddingForms(|files[0].payload|);
    }
  }

  lemma TailWhole(length: nat)
    requires length % 512 == 0
    ensures Ustar.Tail(length) >= 1024 && Ustar.Tail(length) % 512 == 0
  {
    var r := (length + 1024) % RECORD;
    assert length + 1024 == RECORD * ((length + 1024) / RECORD) + r;
    assert r % 512 == 0;
  }

  lemma HeadersGood(files: seq<File>, device: Bytes, n: Names, i: nat)
    requires i < |files| && |device| == 8 && ZeroNumber(device) && n.utf8([]) && Short(files) && Writable(files[i], n)
    ensures GoodHeader(Check(n), Headers(files, device)[i], files[i])
  {
    Powers();
    HeaderRoundTrip(files[i].name, |files[i].payload|, device, n.utf8);
  }

  /** The reader finds in the packager's archive exactly the files that went in. */
  lemma ArchiveParses(files: seq<File>, device: Bytes, n: Names)
    requires |device| == 8 && ZeroNumber(device) && n.utf8([])
    requires Short(files) && forall i :: 0 <= i < |files| ==> Writable(files[i], n)
    ensures Parse(Check(n), Archive(files, device)) == Some(files)
  {
    var hs := Headers(files, device);
    forall i | 0 <= i < |files| ensures GoodHeader(Check(n), hs[i], files[i]) { HeadersGood(files, device, n, i); }
    MembersAreLayout(files, device);
    LayoutWhole(hs, files);
    var tail := Ustar.Tail(|Members(files, device)|);
    TailWhole(|Members(files, device)|);
    AccountedParses(Check(n), hs, files, tail);
  }

  lemma {:induction false} SplitOne(c: Bytes)
    requires SLASH !in c
    ensures Split(c) == [c]
    decreases |c|
  {
    if c != [] {
      SplitOne(c[1..]);
      assert [c[0]] + c[1..] == c;
    }
  }

  lemma {:induction false} SplitCons(c: Bytes, rest: Bytes)
    requires SLASH !in c
    ensures Split(c + [SLASH] + rest) == [c] + Split(rest)
    decreases |c|
  {
    var b := c + [SLASH] + rest;
    if c == [] {
      assert b[1..] == rest;
    } else {
      assert b[1..] == c[1..] + [SLASH] + rest;
      SplitCons(c[1..], rest);
      assert [c[0]] + c[1..] == c;
    }
  }

  lemma {:induction false} SplitJoin(p: Components)
    requires Path(p)
    ensures Split(Join(p)) == p && Parts(p) == p
    decreases |p|
  {
    assert Component(p[0]);
    if |p| == 1 {
      SplitOne(p[0]);
      assert p == [p[0]] && p[1..] == [];
    } else {
      SplitJoin(p[1..]);
      SplitCons(p[0], Join(p[1..]));
      assert [p[0]] + p[1..] == p;
    }
  }

  lemma {:induction false} JoinHasNoZero(p: Components)
    requires Path(p)
    ensures forall i :: 0 <= i < |Join(p)| ==> Join(p)[i] != 0
    decreases |p|
  {
    assert Component(p[0]);
    if |p| > 1 { JoinHasNoZero(p[1..]); }
  }

  lemma TritiumPath(path: Components)
    requires Path(path)
    ensures Path([TRITIUM] + path)
  {
    var p := [TRITIUM] + path;
    forall i | 0 <= i < |p| ensures Component(p[i]) {
      if i > 0 { assert p[i] == path[i - 1]; }
    }
  }

  lemma FoundIsWritable(f: Found, n: Names)
    requires Path(f.path) && Packable(f) && n.utf8(ArchiveName(f.path))
    ensures Writable(Packed(f), n)
  {
    var p := [TRITIUM] + f.path;
    TritiumPath(f.path);
    SplitJoin(p);
    JoinHasNoZero(p);
    assert Join(p)[0] == p[0][0];
    forall c | c in p ensures c != [DOT, DOT] { assert Component(c); }
  }

  ghost predicate InOrder(found: seq<Found>) {
    forall i :: 0 < i < |found| ==> PathLess(found[i - 1].path, found[i].path)
  }

  ghost predicate ClashFree(found: seq<Found>) {
    forall i :: 0 < i < |found| ==> !Clash(found[i - 1].path, found[i].path)
  }

  /** No two paths clash, wherever they stand. */
  ghost predicate NoClash(found: seq<Found>) {
    forall i, j :: 0 <= i < j < |found| ==> !Clash(found[i].path, found[j].path)
  }

  lemma NamesInOrder(p: Components, q: Components)
    requires Path(p) && Path(q) && PathLess(p, q)
    ensures Less(ArchiveName(p), ArchiveName(q)) <==> !Clash(p, q)
  {
    var x, y := [TRITIUM] + p, [TRITIUM] + q;
    TritiumPath(p);
    TritiumPath(q);
    assert x[1..] == p && y[1..] == q;
    OrdersAgree(x, y);
  }

  /** The whole chain: files in the packager's order, archived and read back.  The reader
      returns exactly those files if no two neighbours clash and there are not too many;
      otherwise it rejects the packager's own archive. */
  lemma PackageRoundTrip(found: seq<Found>, device: Bytes, n: Names, q: Required)
    requires |device| == 8 && ZeroNumber(device) && n.utf8([])
    requires AllFound(found, n) && InOrder(found)
    requires (forall i :: 0 <= i < |found| ==> Packable(found[i])) && Source(PackedAll(found), n, q)
    ensures Short(PackedAll(found))
    ensures AcceptedBy(Check(n), Archive(PackedAll(found), device), n, q) ==
      if ClashFree(found) && |found| <= MAX_MEMBERS then Some(PackedAll(found)) else None
  {
    var files := PackedAll(found);
    forall i | 0 <= i < |files| ensures Writable(files[i], n) { FoundIsWritable(found[i], n); }
    ArchiveParses(files, device, n);
    SortedIffClashFree(found);
  }

  lemma SortedIffClashFree(found: seq<Found>)
    requires (forall i :: 0 <= i < |found| ==> found[i].path != [] && Path(found[i].path)) && InOrder(found)
    ensures Sorted(PackedAll(found)) <==> ClashFree(found)
  {
    var files := PackedAll(found);
    forall i | 0 < i < |found|
      ensures Less(files[i - 1].name, files[i].name) <==> !Clash(found[i - 1].path, found[i].path)
    {
      NamesInOrder(found[i - 1].path, found[i].path);
    }
  }

  /** Further apart in the list, the paths and the names are in order as neighbours are. */
  lemma {:induction false} OrderIsFar(found: seq<Found>, i: nat, j: nat)
    requires forall k :: 0 <= k < |found| ==> found[k].path != [] && Path(found[k].path)
    requires InOrder(found) && Sorted(PackedAll(found))
    requires i < j < |found|
    ensures PathLess(found[i].path, found[j].path)
    ensures Less(ArchiveName(found[i].path), ArchiveName(found[j].path))
    decreases j
  {
    var files := PackedAll(found);
    assert Less(files[j - 1].name, files[j].name) && PathLess(found[j - 1].path, found[j].path);
    if i < j - 1 {
      OrderIsFar(found, i, j - 1);
      PathLessTransitive(found[i].path, found[j - 1].path, found[j].path);
      LessTransitive(files[i].name, files[j - 1].name, files[j].name);
    }
  }

  /** When no two neighbours clash, no two paths at all do. */
  lemma NeighboursDecide(found: seq<Found>)
    requires (forall k :: 0 <= k < |found| ==> Path(found[k].path)) && InOrder(found)
    ensures ClashFree(found) <==> NoClash(found)
  {
    if ClashFree(found) {
      SortedIffClashFree(found);
      forall i, j | 0 <= i < j < |found| ensures !Clash(found[i].path, found[j].path) {
        OrderIsFar(found, i, j);
        NamesInOrder(found[i].path, found[j].path);
      }
    }
  }

  /** Two ordinary paths, a/b and a-b, in the packager's order but not in the reader's. */
  lemma ClashExample()
    ensures var p, q := [[97], [98]], [[97, 45, 98]];
      Path(p) && Path(q) && PathLess(p, q) && !Less(ArchiveName(p), ArchiveName(q))
  {
    var p, q: Components := [[97], [98]], [[97, 45, 98]];
    assert Less([97], [97, 45, 98]) by { assert [97][1..] == [] && [97, 45, 98][1..] == [45, 98]; }
    NamesInOrder(p, q);
  }

  lemma DistinctNames(p: Components, q: Components)
    requires Path(p) && Path(q) && p != q
    ensures ArchiveName(p) != ArchiveName(q)
  {
    var x, y := [TRITIUM] + p, [TRITIUM] + q;
    TritiumPath(p);
    TritiumPath(q);
    SplitJoin(x);
    SplitJoin(y);
    assert x[1..] == p && y[1..] == q;
  }

  /** The files chart, with the given content, and templates/b, templates-b and values, which are empty. */
  function SmallChart(chart: Bytes, templates: Bytes, values: Bytes, meta: Bytes): seq<Found> {
    [Found([chart], meta), Found([templates, [98]], []), Found([templates + [45, 98]], []), Found([values], [])]
  }

  /** Names of moderate length in the order in which they are used. */
  predicate ChartParts(chart: Bytes, templates: Bytes, values: Bytes) {
    && Component(chart) && Component(templates) && Component(values)
    && BACKSLASH !in chart && BACKSLASH !in templates && BACKSLASH !in values
    && |chart| <= 40 && |templates| <= 40 && |values| <= 40
    && Less(chart, templates) && Less(templates + [45, 98], values)
  }

  lemma NamesOfPaths(c: Bytes, d: Bytes)
    ensures ArchiveName([c]) == TRITIUM + [SLASH] + c
    ensures ArchiveName([c, d]) == TRITIUM + [SLASH] + (c + [SLASH] + d)
  {
    JoinCons(TRITIUM, [c]);
    JoinCons(TRITIUM, [c, d]);
    JoinCons(c, [d]);
    assert [c] + [d] == [c, d];
  }

  lemma JoinCons(c: Bytes, p: Components)
    requires p != []
    ensures Join([c] + p) == c + [SLASH] + Join(p)
  {
    assert ([c] + p)[1..] == p;
  }

  lemma SmallChartPacks(chart: Bytes, templates: Bytes, values: Bytes, meta: Bytes, i: nat)
    requires ChartParts(chart, templates, values) && |meta| <= MAX_FILE_BYTES && i < 4
    ensures var f := SmallChart(chart, templates, values, meta)[i]; Path(f.path) && Packable(f)
  {
    assert Component([98]) && Component(templates + [45, 98]);
    NamesOfPaths(chart, []);
    NamesOfPaths(templates, [98]);
    NamesOfPaths(templates + [45, 98], []);
    NamesOfPaths(values, []);
  }

  lemma SmallChartInOrder(chart: Bytes, templates: Bytes, values: Bytes, meta: Bytes)
    requires ChartParts(chart, templates, values)
    ensures var found := SmallChart(chart, templates, values, meta);
      InOrder(found) && Clash(found[1].path, found[2].path)
  {
    var found := SmallChart(chart, templates, values, meta);
    var longer := templates + [45, 98];
    LessExtended(templates, [45, 98]);
    assert longer[..|templates|] == templates && longer[|templates|] == 45;
    assert PathLess(found[0].path, found[1].path) && PathLess(found[1].path, found[2].path);
    assert PathLess(found[2].path, found[3].path);
  }

  lemma {:induction false} LessExtended(a: Bytes, b: Bytes)
    requires b != []
    ensures Less(a, a + b)
    decreases |a|
  {
    if a != [] {
      LessExtended(a[1..], b);
      assert (a + b)[1..] == a[1..] + b;
    }
  }

  /** All names are different as they are. */
  lemma SmallChartUnique(chart: Bytes, templates: Bytes, values: Bytes, meta: Bytes, i: nat, j: nat)
    requires ChartParts(chart, templates, values) && |meta| <= MAX_FILE_BYTES && i < j < 4
    ensures var found := SmallChart(chart, templates, values, meta);
      ArchiveName(found[i].path) != ArchiveName(found[j].path)
  {
    var found := SmallChart(chart, templates, values, meta);
    SmallChartPacks(chart, templates, values, meta, i);
    SmallChartPacks(chart, templates, values, meta, j);
    SmallChartInOrder(chart, templates, values, meta);
    FarApart(found, i, j);
    DistinctNames(found[i].path, found[j].path);
  }

  lemma {:induction false} FarApart(found: seq<Found>, i: nat, j: nat)
    requires InOrder(found) && i < j < |found|
    ensures PathLess(found[i].path, found[j].path) && found[i].path != found[j].path
    decreases j
  {
    assert PathLess(found[j - 1].path, found[j].path);
    if i < j - 1 {
      FarApart(found, i, j - 1);
      PathLessTransitive(found[i].path, found[j - 1].path, found[j].path);
    }
    if found[i].path == found[j].path { NotBeforeItself(found[i].path); }
  }

  lemma {:induction false} NotBeforeItself(p: Components)
    ensures !PathLess(p, p)
    decreases |p|
  {
    if p != [] {
      NotLessItself(p[0]);
      NotBeforeItself(p[1..]);
    }
  }

  function PlainNames(): Names { Names(b => true, b => b) }

  /** A complete chart that passes every test of the packager and whose archive the reader refuses. */
  lemma ClashingChart(chart: Bytes, templates: Bytes, values: Bytes, meta: Bytes, device: Bytes)
    requires ChartParts(chart, templates, values) && |meta| <= MAX_FILE_BYTES && |device| == 8 && ZeroNumber(device)
    ensures var found, n := SmallChart(chart, templates, values, meta), PlainNames();
      var q := Required(ArchiveName([chart]), ArchiveName([values]), TRITIUM + [SLASH] + templates + [SLASH]);
      && (forall i :: 0 <= i < 4 ==> Path(found[i].path) && Packable(found[i])) && InOrder(found)
      && Source(PackedAll(found), n, q) && Short(PackedAll(found))
      && AcceptedBy(Check(n), Archive(PackedAll(found), device), n, q) == None
  {
    var found, n := SmallChart(chart, templates, values, meta), PlainNames();
    var q := Required(ArchiveName([chart]), ArchiveName([values]), TRITIUM + [SLASH] + templates + [SLASH]);
    forall i | 0 <= i < 4 ensures Path(found[i].path) && Packable(found[i]) {
      SmallChartPacks(chart, templates, values, meta, i);
    }
    SmallChartInOrder(chart, templates, values, meta);
    var files := PackedAll(found);
    forall i, j | 0 <= i < j < 4 ensures files[i].name != files[j].name {
      SmallChartUnique(chart, templates, values, meta, i, j);
    }
    MetaTotal(files);
    NamesOfPaths(templates, [98]);
    assert files[0] in files && files[1] in files && files[3] in files;
    assert q.templates <= files[1].name;
    PackageRoundTrip(found, device, n, q);
    assert !ClashFree(found);
  }

  lemma {:induction false} MetaTotal(files: seq<File>)
    requires files != [] && forall i :: 0 < i < |files| ==> files[i].payload == []
    ensures Total(files) == |files[0].payload|
    decreases |files|
  {
    if |files| > 1 { MetaTotal(files[..|files| - 1]); }
  }

  /** With the names that a chart must have, and whatever Chart.yaml holds: templates/b and
      templates-b. */
  lemma ClashingChartExample(meta: Bytes, device: Bytes)
    requires |meta| <= MAX_FILE_BYTES && |device| == 8 && ZeroNumber(device)
    ensures ChartParts(CHART_YAML, TEMPLATES, VALUES_YAML)
    ensures var found, n := SmallChart(CHART_YAML, TEMPLATES, VALUES_YAML, meta), PlainNames();
      var q := Required(ArchiveName([CHART_YAML]), ArchiveName([VALUES_YAML]), TRITIUM + [SLASH] + TEMPLATES + [SLASH]);
      && (forall i :: 0 <= i < 4 ==> Path(found[i].path) && Packable(found[i])) && InOrder(found)
      && Source(PackedAll(found), n, q) && Short(PackedAll(found))
      && AcceptedBy(Check(n), Archive(PackedAll(found), device), n, q) == None
  {
    assert TEMPLATES[0] == 116 && (TEMPLATES + [45, 98])[0] == 116;
    ClashingChart(CHART_YAML, TEMPLATES, VALUES_YAML, meta, device);
  }

  const CHART_YAML: Bytes := [67, 104, 97, 114, 116, 46, 121, 97, 109, 108]
  const TEMPLATES: Bytes := [116, 101, 109, 112, 108, 97, 116, 101, 115]
  const VALUES_YAML: Bytes := [118, 97, 108, 117, 101, 115, 46, 121, 97, 109, 108]
}
