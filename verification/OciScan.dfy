/** The header scan of OCI archives (scripts/oci-archive.py), which seeks from header to header
    and reads sizes with Python's int(text, 8): that accepts more than octal digits. */
module OciScan {
  import opened Text
  import opened Ustar
  import opened TarHeaders
  import opened TarReaders
  import Folds

  // int(text, 8) -----------------------------------------------------------------------------

  const UNDERSCORE: byte := 95

  predicate Space(c: byte) { c == 32 || 9 <= c <= 13 }

  function TrimLeft(b: Bytes): Bytes { if b != [] && Space(b[0]) then TrimLeft(b[1..]) else b }

  function TrimRight(b: Bytes): Bytes {
    if b != [] && Space(b[|b| - 1]) then TrimRight(b[..|b| - 1]) else b
  }

  /** Digits with single underscores between them. */
  function Grouped(b: Bytes): Option<nat> {
    if b == [] || !Digit(b[|b| - 1]) then None
    else if |b| == 1 then Some(b[0] - 48)
    else
      var cut := if |b| > 2 && b[|b| - 2] == UNDERSCORE then |b| - 2 else |b| - 1;
      match Grouped(b[..cut])
      case None => None
      case Some(v) => Some(8 * v + (b[|b| - 1] - 48))
  }

  /** An optional "0o" prefix, after which one underscore may stand. */
  function Unsigned(b: Bytes): Option<nat> {
    if |b| > 2 && b[0] == 48 && (b[1] == 111 || b[1] == 79)
    then Grouped(if |b| > 3 && b[2] == UNDERSCORE then b[3..] else b[2..])
    else Grouped(b)
  }

  function PyInt8(text: Bytes): Option<int> {
    var b := TrimRight(TrimLeft(text));
    if b != [] && b[0] == 45 then
      (match Unsigned(b[1..])
       case None => None
       case Some(v) => var n: int := v; Some(-n))
    else
      match Unsigned(if b != [] && b[0] == 43 then b[1..] else b)
      case None => None
      case Some(v) => Some(v)
  }

  /** The size that the scan takes from a header; None when it raises. */
  function ScanSize(field: Bytes): Option<int> {
    if field == [] || field[0] >= 128 then None
    else
      var raw := LStrip(RStrip(field));
      PyInt8(if raw == [] then [48] else raw)
  }

  // The scan ---------------------------------------------------------------------------------

  /** Where the loop is: about to look at `pos` after so many zero blocks, or finished. */
  datatype Scan = At(pos: int, zeros: nat) | Accept | Reject

  function Jump(size: int): int { 512 + ((size + 511) / 512) * 512 }

  /** One turn of the loop. */
  function Turn(b: Bytes, s: Scan): Scan {
    if !s.At? then s
    else if s.pos + 512 > |b| || s.pos < 0 then Reject
    else
      var header := b[s.pos..s.pos + 512];
      if AllZero(header) then
        if s.zeros + 1 == 2 then Accept else At(s.pos + 512, s.zeros + 1)
      else if s.zeros > 0 || header[156] !in {0, 48, 53} then Reject
      else match ScanSize(header[124..136])
        case None => Reject
        case Some(size) => if s.pos + Jump(size) > |b| then Reject else At(s.pos + Jump(size), 0)
  }

  /** The state after `k` turns of a loop. */
  function Iterate(turn: Scan -> Scan, k: nat): Scan {
    if k == 0 then At(0, 0) else turn(Iterate(turn, k - 1))
  }

  function Turner(b: Bytes): Scan -> Scan { s => Turn(b, s) }

  function Turns(b: Bytes, k: nat): Scan { Iterate(Turner(b), k) }

  // Digits only ------------------------------------------------------------------------------

  lemma {:induction false} GroupedDigits(ds: Bytes)
    requires Digits(ds) && ds != []
    ensures Grouped(ds) == Some(Value(ds))
    decreases |ds|
  {
    if |ds| > 1 {
      GroupedDigits(ds[..|ds| - 1]);
    } else {
      assert ds[..0] == [];
    }
  }

  lemma PyInt8Digits(ds: Bytes)
    requires Digits(ds) && ds != []
    ensures PyInt8(ds) == Some(Value(ds))
  {
    assert Digit(ds[0]) && Digit(ds[|ds| - 1]);
    if |ds| > 1 { assert Digit(ds[1]); }
    GroupedDigits(ds);
  }

  /** On the size fields that the strict readers accept, the scan reads the same number. */
  lemma ScanSizeAgrees(field: Bytes)
    requires TarNumber(field).Some?
    ensures ScanSize(field) == Some(TarNumber(field).value)
  {
    PyInt8Digits(LStrip(RStrip(field)));
  }

  lemma JumpIsBlock(size: nat)
    ensures Jump(size) == 512 + size + Padding(size)
  {
    PaddingForms(size);
  }

  // The readers and the scan -------------------------------------------------------------------

  /** What both strict readers check of a header, as far as the scan looks at it. */
  ghost predicate Strict(check: HeaderCheck) {
    forall h :: check(h).Some? ==>
      |h| == 512 && (h[156] == 0 || h[156] == 48) && TarNumber(h[124..136]) == Some(check(h).value.size)
  }

  lemma ReadersAreStrict(utf8: Bytes -> bool)
    ensures Strict(h => ChartHeader(h, utf8)) && Strict(h => BundleHeader(h, utf8))
  {
  }

  /** The offset of the header of member `k`. */
  function Offset(ms: seq<File>, k: nat): nat
    requires k <= |ms|
  {
    if k == 0 then 0 else Offset(ms, k - 1) + 512 + |ms[k - 1].payload| + Padding(|ms[k - 1].payload|)
  }

  /** What is left of the archive at the header of member `k`. */
  ghost predicate Reached(check: HeaderCheck, b: Bytes, ms: seq<File>, k: nat)
    requires k <= |ms|
  {
    Offset(ms, k) <= |b| && Parse(check, b[Offset(ms, k)..]) == Some(ms[k..])
  }

  /** The first member of an archive that parses, and what comes after it. */
  lemma FirstMember(check: HeaderCheck, c: Bytes, ms: seq<File>)
    requires Parse(check, c) == Some(ms) && ms != []
    ensures var block := 512 + |ms[0].payload| + Padding(|ms[0].payload|);
      block <= |c| && GoodHeader(check, c[..512], ms[0]) && Parse(check, c[block..]) == Some(ms[1..])
  {
    assert !AllZero(c[..512]);
    var m, rest := ParseFirst(check, c);
    assert ([m] + Parse(check, rest).value)[1..] == Parse(check, rest).value;
    BlockSlices(c[..512], m, rest);
  }

  lemma DropDrop<A>(s: seq<A>, i: nat, j: nat)
    requires i + j <= |s|
    ensures s[i..][j..] == s[i + j..] && s[i..][..j] == s[i..i + j]
  {}

  lemma FirstMemberAt(check: HeaderCheck, b: Bytes, pos: nat, ms: seq<File>)
    requires pos <= |b| && Parse(check, b[pos..]) == Some(ms) && ms != []
    ensures var next := pos + 512 + |ms[0].payload| + Padding(|ms[0].payload|);
      next <= |b| && GoodHeader(check, b[pos..pos + 512], ms[0]) && Parse(check, b[next..]) == Some(ms[1..])
  {
    FirstMember(check, b[pos..], ms);
    DropDrop(b, pos, 512);
    DropDrop(b, pos, 512 + |ms[0].payload| + Padding(|ms[0].payload|));
  }

  /** At a member the header is good and its block ends where the next one starts. */
  lemma MemberAt(check: HeaderCheck, b: Bytes, ms: seq<File>, k: nat)
    requires k < |ms| && Reached(check, b, ms, k)
    ensures var pos := Offset(ms, k);
      && pos + 512 <= Offset(ms, k + 1) <= |b| && GoodHeader(check, b[pos..pos + 512], ms[k])
    ensures Reached(check, b, ms, k + 1)
  {
    var pos, rest := Offset(ms, k), ms[k..];
    DropDrop(ms, k, 1);
    assert rest[0] == ms[k] && Offset(ms, k + 1) == pos + 512 + |rest[0].payload| + Padding(|rest[0].payload|);
    FirstMemberAt(check, b, pos, rest);
  }

  lemma WholeFromZero<A>(s: seq<A>)
    ensures s[0..] == s
  {}

  lemma ReachedStart(check: HeaderCheck, b: Bytes, ms: seq<File>)
    requires Parse(check, b) == Some(ms)
    ensures Reached(check, b, ms, 0)
  {
    WholeFromZero(b);
    WholeFromZero(ms);
  }

  lemma ReachedNext(check: HeaderCheck, b: Bytes, ms: seq<File>, k: nat)
    requires k < |ms| && Reached(check, b, ms, k)
    ensures Reached(check, b, ms, k + 1)
  {
    MemberAt(check, b, ms, k);
  }

  lemma {:induction false} ReachFrom(check: HeaderCheck, b: Bytes, ms: seq<File>, k: nat)
    requires k <= |ms| && Reached(check, b, ms, 0)
    ensures Reached(check, b, ms, k)
    decreases k
  {
    if k > 0 {
      ReachFrom(check, b, ms, k - 1);
      ReachedNext(check, b, ms, k - 1);
    }
  }

  lemma ReachAll(check: HeaderCheck, b: Bytes, ms: seq<File>, k: nat)
    requires Parse(check, b) == Some(ms) && k <= |ms|
    ensures Reached(check, b, ms, k)
  {
    ReachedStart(check, b, ms);
    ReachFrom(check, b, ms, k);
  }

  lemma TurnAtMember(b: Bytes, pos: nat, size: nat)
    requires pos + 512 + size + Padding(size) <= |b|
    requires var h := b[pos..pos + 512];
      !AllZero(h) && (h[156] == 0 || h[156] == 48) && TarNumber(h[124..136]) == Some(size)
    ensures Turn(b, At(pos, 0)) == At(pos + 512 + size + Padding(size), 0)
  {
    ScanSizeAgrees(b[pos..pos + 512][124..136]);
    JumpIsBlock(size);
  }

  lemma TurnAtGood(check: HeaderCheck, b: Bytes, pos: nat, m: File)
    requires Strict(check) && pos + 512 + |m.payload| + Padding(|m.payload|) <= |b|
    requires GoodHeader(check, b[pos..pos + 512], m)
    ensures Turn(b, At(pos, 0)) == At(pos + 512 + |m.payload| + Padding(|m.payload|), 0)
  {
    TurnAtMember(b, pos, |m.payload|);
  }

  lemma TurnsOver(check: HeaderCheck, b: Bytes, ms: seq<File>, k: nat)
    requires Strict(check) && k < |ms| && Reached(check, b, ms, k)
    ensures Turner(b)(At(Offset(ms, k), 0)) == At(Offset(ms, k + 1), 0)
  {
    MemberAt(check, b, ms, k);
    TurnAtGood(check, b, Offset(ms, k), ms[k]);
  }

  lemma {:induction false} Follows(turn: Scan -> Scan, ms: seq<File>, k: nat)
    requires k <= |ms| && forall i :: 0 <= i < k ==> turn(At(Offset(ms, i), 0)) == At(Offset(ms, i + 1), 0)
    ensures Iterate(turn, k) == At(Offset(ms, k), 0)
    decreases k
  {
    if k > 0 {
      Follows(turn, ms, k - 1);
      assert turn(At(Offset(ms, k - 1), 0)) == At(Offset(ms, (k - 1) + 1), 0);
    }
  }

  lemma ScanReaches(check: HeaderCheck, b: Bytes, ms: seq<File>, k: nat)
    requires Strict(check) && Parse(check, b) == Some(ms) && k <= |ms|
    ensures Turns(b, k) == At(Offset(ms, k), 0)
  {
    forall i | 0 <= i < k ensures Turner(b)(At(Offset(ms, i), 0)) == At(Offset(ms, i + 1), 0) {
      ReachAll(check, b, ms, i);
      TurnsOver(check, b, ms, i);
    }
    Follows(Turner(b), ms, k);
  }

  lemma TurnsAtEnd(b: Bytes, pos: nat)
    requires pos <= |b| && EndBlocks(b[pos..])
    ensures Turn(b, At(pos, 0)) == At(pos + 512, 1) && Turn(b, At(pos + 512, 1)) == Accept
  {
    var c := b[pos..];
    assert b[pos..pos + 512] == c[..512] && b[pos + 512..pos + 1024] == c[512..1024];
  }

  /** Every archive that a strict reader parses passes the scan, which looks at exactly the
      headers of the members, one after the other, and then at the two end blocks. */
  lemma ScanFollowsReader(check: HeaderCheck, b: Bytes, ms: seq<File>, k: nat)
    requires Strict(check) && Parse(check, b) == Some(ms) && k <= |ms|
    ensures Turns(b, k) == At(Offset(ms, k), 0)
    ensures Turns(b, |ms| + 2) == Accept
  {
    ScanReaches(check, b, ms, k);
    ScanReaches(check, b, ms, |ms|);
    ReachAll(check, b, ms, |ms|);
    assert ms[|ms|..] == [];
    TurnsAtEnd(b, Offset(ms, |ms|));
    assert Turns(b, |ms| + 1) == Turn(b, Turns(b, |ms|));
    assert Turns(b, |ms| + 2) == Turn(b, Turns(b, |ms| + 1));
  }

  // Termination --------------------------------------------------------------------------------

  datatype Verdict = Accepted | Rejected | Endless

  lemma {:induction false} Periodic(turn: Scan -> Scan, i: nat, j: nat, d: nat)
    requires Iterate(turn, i) == Iterate(turn, j)
    ensures Iterate(turn, i + d) == Iterate(turn, j + d)
    decreases d
  {
    if d > 0 { Periodic(turn, i, j, d - 1); }
  }

  /** A state that comes back comes back for ever. */
  lemma {:induction false} RepeatsForEver(turn: Scan -> Scan, i: nat, j: nat, k: nat)
    requires i < j && Iterate(turn, i) == Iterate(turn, j) && forall t: nat :: t <= j ==> Iterate(turn, t).At?
    ensures Iterate(turn, k).At?
    decreases k
  {
    if k > j {
      RepeatsForEver(turn, i, j, k - (j - i));
      Periodic(turn, i, j, k - j);
    }
  }

  /** The states in which the scan can look at a block of the archive. */
  ghost function Looks(b: Bytes): set<Scan> {
    set p, z | 0 <= p <= |b| && 0 <= z <= 1 :: At(p, z)
  }

  lemma TurnFacts(b: Bytes, s: Scan)
    requires s.At? && s.zeros <= 1
    ensures s.pos < 0 || s.pos + 512 > |b| ==> Turn(b, s) == Reject
    ensures Turn(b, s).At? ==> s in Looks(b) && Turn(b, s).zeros <= 1
  {
  }

  /** `path` lists the states of the first turns, and `been` is the set of them. */
  ghost predicate Trail(turn: Scan -> Scan, been: set<Scan>, path: seq<Scan>) {
    && (forall t :: 0 <= t < |path| ==> path[t].At? && path[t] == Iterate(turn, t))
    && been == set x | x in path
  }

  lemma TrailExtends(turn: Scan -> Scan, been: set<Scan>, path: seq<Scan>, s: Scan)
    requires Trail(turn, been, path) && s == Iterate(turn, |path|) && s.At?
    ensures Trail(turn, been + {s}, path + [s])
  {
  }

  lemma TrailRepeats(turn: Scan -> Scan, been: set<Scan>, path: seq<Scan>, s: Scan, n: nat)
    requires Trail(turn, been, path) && s == Iterate(turn, |path|) && s in been
    ensures Iterate(turn, n).At?
  {
    var i :| 0 <= i < |path| && path[i] == s;
    var k := |path|;
    forall t: nat | t <= k ensures Iterate(turn, t).At? { assert t < k ==> path[t] == Iterate(turn, t); }
    RepeatsForEver(turn, i, k, n);
  }

  ghost predicate Verdicts(turn: Scan -> Scan, v: Verdict) {
    match v
    case Accepted => exists k: nat :: Iterate(turn, k) == Accept
    case Rejected => exists k: nat :: Iterate(turn, k) == Reject
    case Endless => forall k: nat :: Iterate(turn, k).At?
  }

  /** The scan's loop.  It remembers where it has been, which the tool does not, to tell when
      the tool would go round for ever. */
  method Loop(turn: Scan -> Scan, ghost looks: set<Scan>) returns (v: Verdict)
    requires forall s: Scan :: s.At? && s.zeros <= 1 && turn(s).At? ==> s in looks && turn(s).zeros <= 1
    ensures Verdicts(turn, v)
  {
    var s := At(0, 0);
    var been: set<Scan> := {};
    ghost var path: seq<Scan> := [];
    while true
      invariant s == Iterate(turn, |path|) && s.At? && s.zeros <= 1
      invariant Trail(turn, been, path) && been <= looks
      decreases looks - been
    {
      if s in been {
        forall n: nat ensures Iterate(turn, n).At? { TrailRepeats(turn, been, path, s, n); }
        return Endless;
      }
      TrailExtends(turn, been, path, s);
      path := path + [s];
      var next := turn(s);
      assert Iterate(turn, |path|) == next;
      if !next.At? { return if next.Accept? then Accepted else Rejected; }
      been := been + {s};
      s := next;
    }
  }

  /** The scan ends with a verdict, or is known never to end. */
  method ScanTransportHeaders(b: Bytes) returns (v: Verdict)
    ensures Verdicts(Turner(b), v)
  {
    LooksBound(b);
    v := Loop(Turner(b), Looks(b));
  }

  lemma {:induction false} AtBefore(turn: Scan -> Scan, t: nat, j: nat)
    requires (forall s: Scan :: !s.At? ==> turn(s) == s) && t <= j && Iterate(turn, j).At?
    ensures Iterate(turn, t).At?
    decreases j
  {
    if t < j { AtBefore(turn, t, j - 1); }
  }

  ghost predicate Repeats(turn: Scan -> Scan, i: nat, j: nat) {
    i < j && Iterate(turn, i) == Iterate(turn, j) && Iterate(turn, j).At?
  }

  lemma RepeatIsEndless(turn: Scan -> Scan, i: nat, j: nat)
    requires (forall s: Scan :: !s.At? ==> turn(s) == s) && Repeats(turn, i, j)
    ensures Verdicts(turn, Endless)
  {
    forall t: nat | t <= j ensures Iterate(turn, t).At? { AtBefore(turn, t, j); }
    forall n: nat ensures Iterate(turn, n).At? { RepeatsForEver(turn, i, j, n); }
  }

  lemma LooksBound(b: Bytes)
    ensures forall s: Scan :: s.At? && s.zeros <= 1 && Turner(b)(s).At? ==> s in Looks(b) && Turner(b)(s).zeros <= 1
  {
    forall s: Scan | s.At? && s.zeros <= 1 && Turner(b)(s).At?
      ensures s in Looks(b) && Turner(b)(s).zeros <= 1
    {
      TurnFacts(b, s);
    }
  }

  /** The states in which the scan can look at one of the first `n` blocks. */
  ghost function BlockLooks(n: nat): set<Scan> {
    if n == 0 then {} else BlockLooks(n - 1) + {At(512 * (n - 1), 0), At(512 * (n - 1), 1)}
  }

  lemma {:induction false} BlockLooksHold(n: nat, q: nat, z: nat)
    ensures |BlockLooks(n)| <= 2 * n
    ensures q < n && z <= 1 ==> At(512 * q, z) in BlockLooks(n)
  {
    if n > 0 { BlockLooksHold(n - 1, q, z); }
  }

  lemma JumpAligned(p: int, size: int)
    requires p % 512 == 0
    ensures (p + Jump(size)) % 512 == 0 && (p + 512) % 512 == 0
  {
    var n := (size + 511) / 512;
    assert Jump(size) == 512 * (n + 1);
  }

  lemma LookAtBlock(p: int, z: nat, n: nat)
    requires p % 512 == 0 && z <= 1 && 0 <= p && p + 512 <= n
    ensures At(p, z) in BlockLooks(n / 512)
  {
    var q: nat := p / 512;
    assert p == 512 * q && q < n / 512;
    BlockLooksHold(n / 512, q, z);
  }

  /** A turn goes on by a jump, over a zero block by the jump of an empty member. */
  lemma TurnJumps(b: Bytes, s: Scan) returns (size: int)
    requires s.At? && Turn(b, s).At?
    ensures 0 <= s.pos && s.pos + 512 <= |b| && Turn(b, s).pos == s.pos + Jump(size)
    ensures s.zeros <= 1 ==> Turn(b, s).zeros <= 1
  {
    size := 0;
    if !AllZero(b[s.pos..s.pos + 512]) { size := ScanSize(b[s.pos..s.pos + 512][124..136]).value; }
  }

  /** The scan stands at block boundaries only. */
  lemma TurnAligned(b: Bytes, s: Scan, next: Scan)
    requires s.At? && s.pos % 512 == 0 && s.zeros <= 1 && next == Turn(b, s) && next.At?
    ensures s in BlockLooks(|b| / 512) && next.pos % 512 == 0 && next.zeros <= 1
  {
    var size := TurnJumps(b, s);
    AlignedStep(s.pos, s.zeros, |b|, size);
  }

  lemma AlignedStep(p: int, z: nat, n: nat, size: int)
    requires p % 512 == 0 && z <= 1 && 0 <= p && p + 512 <= n
    ensures At(p, z) in BlockLooks(n / 512) && (p + Jump(size)) % 512 == 0
  {
    LookAtBlock(p, z, n);
    JumpAligned(p, size);
  }

  lemma {:induction false} TurnsAligned(b: Bytes, k: nat)
    requires Turns(b, k).At?
    ensures Turns(b, k).pos % 512 == 0 && Turns(b, k).zeros <= 1
    ensures k > 0 ==> Turns(b, k - 1) in BlockLooks(|b| / 512)
    decreases k
  {
    if k > 0 {
      TurnsAligned(b, k - 1);
      TurnAligned(b, Turns(b, k - 1), Turns(b, k));
    }
  }

  ghost predicate Early(turn: Scan -> Scan, s: Scan, k: nat) { exists t: nat :: t < k && Iterate(turn, t) == s }

  /** The first `k` states: two of them are the same, or there are `k` different ones. */
  lemma {:induction false} RepeatOrMany(turn: Scan -> Scan, k: nat) returns (been: set<Scan>, i: nat, j: nat)
    ensures forall s <- been :: Early(turn, s, k)
    ensures |been| == k || (i < j < k && Iterate(turn, i) == Iterate(turn, j))
  {
    been, i, j := {}, 0, 0;
    if k > 0 {
      var n: nat := k - 1;
      been, i, j := RepeatOrMany(turn, n);
      forall s | s in been ensures Early(turn, s, k) { assert Early(turn, s, n); }
      var s := Iterate(turn, n);
      assert Early(turn, s, k);
      if s in been {
        assert Early(turn, s, n);
        i :| i < n && Iterate(turn, i) == s;
        j := n;
      } else {
        been := been + {s};
      }
    }
  }

  /** More turns than there are states to be in. */
  lemma LongIsEndless(turn: Scan -> Scan, looks: set<Scan>, k: nat)
    requires (forall s: Scan :: !s.At? ==> turn(s) == s) && Iterate(turn, k).At? && |looks| < k
    requires forall t: nat :: t < k ==> Iterate(turn, t) in looks
    ensures Verdicts(turn, Endless)
  {
    var been, i, j := RepeatOrMany(turn, k);
    forall s | s in been ensures s in looks { assert Early(turn, s, k); }
    Folds.SubsetCount(been, looks);
    AtBefore(turn, j, k);
    RepeatIsEndless(turn, i, j);
  }

  lemma TurnsInLooks(b: Bytes, t: nat, k: nat)
    requires t < k && Turns(b, k).At?
    ensures Turns(b, t) in BlockLooks(|b| / 512)
  {
    AtBefore(Turner(b), t + 1, k);
    TurnsAligned(b, t + 1);
  }

  lemma LongScan(b: Bytes, n: nat)
    requires n == |b| / 512 && Turns(b, 2 * n + 1).At?
    ensures Verdicts(Turner(b), Endless)
  {
    BlockLooksHold(n, 0, 0);
    forall t: nat | t < 2 * n + 1 ensures Iterate(Turner(b), t) in BlockLooks(n) { TurnsInLooks(b, t, 2 * n + 1); }
    LongIsEndless(Turner(b), BlockLooks(n), 2 * n + 1);
  }

  /** The scan goes on for ever exactly when it is still going after two turns for each block and
      one more. */
  lemma EndlessIffLong(b: Bytes)
    ensures Verdicts(Turner(b), Endless) <==> Turns(b, 2 * (|b| / 512) + 1).At?
  {
    if Turns(b, 2 * (|b| / 512) + 1).At? { LongScan(b, |b| / 512); }
  }

  /** The scan stands on a header, and this is the size it reads there. */
  function SizeMet(b: Bytes, s: Scan): Option<int> {
    if !s.At? || s.pos < 0 || s.pos + 512 > |b| || AllZero(b[s.pos..s.pos + 512]) then None
    else ScanSize(b[s.pos..s.pos + 512][124..136])
  }

  /** No header that the scan comes to states a size that takes it back. */
  ghost predicate SizesForward(b: Bytes) {
    forall i: nat :: SizeMet(b, Turns(b, i)).Some? ==> SizeMet(b, Turns(b, i)).value > -512
  }

  lemma TurnAdvances(b: Bytes, s: Scan)
    requires s.At? && Turn(b, s).At? && (SizeMet(b, s).Some? ==> SizeMet(b, s).value > -512)
    ensures s.pos + 512 <= Turn(b, s).pos <= |b|
  {
    if SizeMet(b, s).Some? {
      assert (SizeMet(b, s).value + 511) / 512 >= 0;
    }
  }

  lemma {:induction false} ScanAdvances(b: Bytes, k: nat)
    requires SizesForward(b)
    ensures Turns(b, k).At? ==> Turns(b, k).pos >= 512 * k && Turns(b, k).pos <= |b|
    decreases k
  {
    if k > 0 && Turns(b, k).At? {
      ScanAdvances(b, k - 1);
      TurnAdvances(b, Turns(b, k - 1));
    }
  }

  /** When no header that it comes to takes it back, the scan ends after at most one turn for each
      block. */
  lemma ScanEnds(b: Bytes)
    requires SizesForward(b)
    ensures !Turns(b, |b| / 512 + 1).At?
  {
    ScanAdvances(b, |b| / 512 + 1);
  }

  /** A scan that goes on for ever comes to a header with a size of -512 or less. */
  lemma EndlessMeetsBackward(b: Bytes)
    requires Verdicts(Turner(b), Endless)
    ensures exists i: nat :: SizeMet(b, Turns(b, i)).Some? && SizeMet(b, Turns(b, i)).value <= -512
  {
    assert Iterate(Turner(b), |b| / 512 + 1).At?;
    if SizesForward(b) { ScanEnds(b); }
  }

  /** The octal text -1000, as the scan reads it. */
  lemma MinusTextSize(field: Bytes)
    requires |field| == 12 && field[..5] == [45, 49, 48, 48, 48] && AllZero(field[5..])
    ensures ScanSize(field) == Some(-512)
  {
    var digits: Bytes := [49, 48, 48, 48];
    assert field == ([45] + digits) + field[5..];
    RStripKeeps([45] + digits, field[5..]);
    assert digits[..3] == [49, 48, 48] && digits[..3][..2] == [49, 48] && digits[..3][..2][..1] == [49];
    assert Grouped([49]) == Some(1) && Grouped([49, 48]) == Some(8);
    assert Grouped([49, 48, 48]) == Some(64) && Grouped(digits) == Some(512);
    assert ([45] + digits)[1..] == digits;
  }

  /** A header whose size field holds -1000 in octal sends the scan back to itself. */
  lemma EndlessExample(b: Bytes)
    requires |b| == 512 && b[124..129] == [45, 49, 48, 48, 48] && AllZero(b[129..136]) && b[156] == 0
    ensures Verdicts(Turner(b), Endless)
  {
    var h, field := b[0..512], b[0..512][124..136];
    assert field[..5] == b[124..129] && field[5..] == b[129..136] && h[124] == b[124..129][0] == 45;
    MinusTextSize(field);
    assert Jump(-512) == 0;
    assert Turner(b)(At(0, 0)) == At(0, 0);
    assert Iterate(Turner(b), 0) == At(0, 0) && Iterate(Turner(b), 1) == At(0, 0);
    RepeatIsEndless(Turner(b), 0, 1);
  }
}
