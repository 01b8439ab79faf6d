/** Collection of sampled rows (scripts/collect-stage7-sampled-rows.py).  Rows stream from the
    shards of a dataset, and each new row goes to one of the partitions that still need rows.
    The SHA-256 digest, the UTF-8 length and the ranking score are parameters. */
module RowCollector {

  datatype Partition = Calibration | Refinement | Validation | Evaluation

  datatype Shard = Shard(path: string, bytes: int, sha256: string, rows: seq<string>)

  /** A selected row, with the place in the source where it was found. */
  datatype Row = Row(index: nat, digest: string, text: string, shard: string, shardRow: nat)

  /** What a dataset is measured with, and what each of its partitions needs. */
  datatype Rules = Rules(
    digest: string -> string,
    size: string -> nat,
    score: (Partition, nat, string) -> nat,
    minBytes: int,
    minRows: int)

  /** The rows of one partition and their total UTF-8 length. */
  datatype Lane = Lane(rows: seq<Row>, bytes: nat)

  datatype Lanes = Lanes(calibration: Lane, refinement: Lane, validation: Lane, evaluation: Lane)
  {
    function At(p: Partition): Lane {
      match p
      case Calibration => calibration
      case Refinement => refinement
      case Validation => validation
      case Evaluation => evaluation
    }

    function With(p: Partition, lane: Lane): (m: Lanes)
      ensures forall q :: m.At(q) == if q == p then lane else At(q)
    {
      match p
      case Calibration => this.(calibration := lane)
      case Refinement => this.(refinement := lane)
      case Validation => this.(validation := lane)
      case Evaluation => this.(evaluation := lane)
    }
  }

  /** The place of a partition in the order in which they are listed. */
  function Rank(p: Partition): nat {
    match p
    case Calibration => 0
    case Refinement => 1
    case Validation => 2
    case Evaluation => 3
  }

  /** A row of the stream, before it is known whether it is selected. */
  datatype Source = Source(text: string, shard: string, shardRow: nat)

  datatype State = State(lanes: Lanes, next: nat, seen: set<string>)

  predicate Needy(r: Rules, lane: Lane) { lane.bytes < r.minBytes || |lane.rows| < r.minRows }

  /** The partitions that still need rows, in their fixed order. */
  function Pending(r: Rules, lanes: Lanes): (ps: seq<Partition>)
    ensures forall p: Partition :: p in ps <==> Needy(r, lanes.At(p))
    ensures ps == [] <==> Done(r, lanes)
  {
    If(r, lanes, Calibration) + If(r, lanes, Refinement) + If(r, lanes, Validation) + If(r, lanes, Evaluation)
  }

  function If(r: Rules, lanes: Lanes, p: Partition): seq<Partition> {
    if Needy(r, lanes.At(p)) then [p] else []
  }

  /** The first partition with the least score. */
  function Best(ps: seq<Partition>, score: Partition -> nat): (p: Partition)
    requires ps != []
    ensures p in ps && forall q :: q in ps ==> score(p) <= score(q)
  {
    if |ps| == 1 then ps[0]
    else var rest := Best(ps[1..], score); if score(ps[0]) <= score(rest) then ps[0] else rest
  }

  predicate Done(r: Rules, lanes: Lanes) {
    forall p: Partition :: !Needy(r, lanes.At(p))
  }

  function Add(lane: Lane, row: Row, size: nat): Lane { Lane(lane.rows + [row], lane.bytes + size) }

  /** The partition that gets the next row. */
  function Winner(r: Rules, s: State, digest: string): (p: Partition)
    requires !Done(r, s.lanes)
    ensures Needy(r, s.lanes.At(p))
    ensures forall q: Partition :: Needy(r, s.lanes.At(q)) ==> r.score(p, s.next, digest) <= r.score(q, s.next, digest)
  {
    Best(Pending(r, s.lanes), q => r.score(q, s.next, digest))
  }

  /** What one row of the stream does. */
  function Take(r: Rules, s: State, source: Source): State {
    if Done(r, s.lanes) then s
    else
      var digest, size := r.digest(source.text), r.size(source.text);
      if size == 0 || digest in s.seen then s.(next := s.next + 1)
      else
        var p := Winner(r, s, digest);
        var row := Row(s.next, digest, source.text, source.shard, source.shardRow);
        State(s.lanes.With(p, Add(s.lanes.At(p), row, size)), s.next + 1, s.seen + {digest})
  }

  function Start(seen: set<string>): State {
    State(Lanes(Lane([], 0), Lane([], 0), Lane([], 0), Lane([], 0)), 0, seen)
  }

  /** The whole collection as one pass over one stream. */
  function Fold(r: Rules, seen: set<string>, stream: seq<Source>): State {
    if stream == [] then Start(seen)
    else Take(r, Fold(r, seen, stream[..|stream| - 1]), stream[|stream| - 1])
  }

  function Numbered(shard: Shard): (sources: seq<Source>)
    ensures |sources| == |shard.rows|
  {
    seq(|shard.rows|, i requires 0 <= i < |shard.rows| => Source(shard.rows[i], shard.path, i))
  }

  /** The rows of the shards, one after the other. */
  function Stream(shards: seq<Shard>): seq<Source> {
    if shards == [] then [] else Stream(shards[..|shards| - 1]) + Numbered(shards[|shards| - 1])
  }

  function Bytes(shards: seq<Shard>): int {
    if shards == [] then 0 else Bytes(shards[..|shards| - 1]) + shards[|shards| - 1].bytes
  }

  datatype Result =
    | Collected(lanes: Lanes, used: seq<Shard>, downloaded: int, seen: set<string>)
    | TargetsNotPositive
    | BadShard
    | OverBudget
    | Exhausted(missing: Partition)

  predicate ValidShard(shard: Shard) { shard.bytes > 0 && |shard.sha256| == 64 }

  /** The state after the first `k` shards. */
  function After(r: Rules, seen: set<string>, shards: seq<Shard>, k: nat): State
    requires k <= |shards|
  {
    Fold(r, seen, Stream(shards[..k]))
  }

  /** Shard `k` is read: more rows are needed, and it may be downloaded. */
  ghost predicate Reads(r: Rules, seen: set<string>, shards: seq<Shard>, remaining: int, k: nat)
    requires k < |shards|
  {
    !Done(r, After(r, seen, shards, k).lanes) && ValidShard(shards[k]) && Bytes(shards[..k + 1]) <= remaining
  }

  lemma FoldSnoc(r: Rules, seen: set<string>, stream: seq<Source>, x: Source)
    ensures Fold(r, seen, stream + [x]) == Take(r, Fold(r, seen, stream), x)
  {
    assert (stream + [x])[..|stream|] == stream;
  }

  lemma {:induction false} FoldStops(r: Rules, seen: set<string>, stream: seq<Source>, more: seq<Source>)
    requires Done(r, Fold(r, seen, stream).lanes)
    ensures Fold(r, seen, stream + more) == Fold(r, seen, stream)
    decreases |more|
  {
    if more == [] {
      assert stream + more == stream;
    } else {
      var front, x := more[..|more| - 1], more[|more| - 1];
      FoldStops(r, seen, stream, front);
      FoldSnoc(r, seen, stream + front, x);
      assert stream + more == stream + front + [x];
    }
  }

  lemma {:induction false} StreamSplit(shards: seq<Shard>, k: nat) returns (more: seq<Source>)
    requires k <= |shards|
    ensures Stream(shards) == Stream(shards[..k]) + more
    decreases |shards|
  {
    if k == |shards| {
      more := [];
      assert shards[..k] == shards;
    } else {
      var init := shards[..|shards| - 1];
      var m := StreamSplit(init, k);
      assert init[..k] == shards[..k];
      more := m + Numbered(shards[|shards| - 1]);
    }
  }

  /** The loop body for one row, when some partition still needs rows. */
  method PlaceRow(r: Rules, s: State, x: Source) returns (t: State)
    requires !Done(r, s.lanes)
    ensures t == Take(r, s, x)
  {
    var digest := r.digest(x.text);
    var rowIndex := s.next;
    var next := s.next + 1;
    if r.size(x.text) == 0 || digest in s.seen {
      return State(s.lanes, next, s.seen);
    }
    var p := Winner(r, s, digest);
    var row := Row(rowIndex, digest, x.text, x.shard, x.shardRow);
    var lanes := s.lanes.With(p, Add(s.lanes.At(p), row, r.size(x.text)));
    t := State(lanes, next, s.seen + {digest});
  }

  /** The state when `i` of the rows after `before` have been taken. */
  ghost function Midway(r: Rules, seen: set<string>, before: seq<Source>, rows: seq<Source>, i: nat): State
    requires i <= |rows|
  {
    Fold(r, seen, before + rows[..i])
  }

  lemma MidwayStep(r: Rules, seen: set<string>, before: seq<Source>, rows: seq<Source>, i: nat)
    requires i < |rows|
    ensures Midway(r, seen, before, rows, i + 1) == Take(r, Midway(r, seen, before, rows, i), rows[i])
  {
    FoldSnoc(r, seen, before + rows[..i], rows[i]);
    assert before + rows[..i + 1] == before + rows[..i] + [rows[i]];
  }

  lemma MidwayEnds(r: Rules, seen: set<string>, before: seq<Source>, rows: seq<Source>, i: nat)
    requires i <= |rows|
    ensures Midway(r, seen, before, rows, 0) == Fold(r, seen, before)
    ensures Done(r, Midway(r, seen, before, rows, i).lanes) || i == |rows| ==>
      Midway(r, seen, before, rows, i) == Fold(r, seen, before + rows)
  {
    assert before + rows[..0] == before;
    assert before + rows == before + rows[..i] + rows[i..];
    if Done(r, Midway(r, seen, before, rows, i).lanes) { FoldStops(r, seen, before + rows[..i], rows[i..]); }
    if i == |rows| { assert rows[..i] == rows; }
  }

  method CollectShard(r: Rules, s: State, shard: Shard, ghost seen: set<string>, ghost before: seq<Source>)
    returns (t: State)
    requires s == Fold(r, seen, before)
    ensures t == Fold(r, seen, before + Numbered(shard))
  {
    var rows := Numbered(shard);
    t := s;
    MidwayEnds(r, seen, before, rows, 0);
    for i := 0 to |rows|
      invariant t == Midway(r, seen, before, rows, i)
    {
      if Done(r, t.lanes) {
        MidwayEnds(r, seen, before, rows, i);
        return;
      }
      MidwayStep(r, seen, before, rows, i);
      t := PlaceRow(r, t, rows[i]);
    }
    MidwayEnds(r, seen, before, rows, |rows|);
  }

  /** The first `k` shards are read, each because more rows were needed. */
  ghost predicate ReadsUpTo(r: Rules, seen: set<string>, shards: seq<Shard>, remaining: int, k: nat) {
    k <= |shards| && forall j :: 0 <= j < k ==> Reads(r, seen, shards, remaining, j)
  }

  /** The first partition, in the order in which they are listed, that does not meet its targets. */
  ghost predicate FirstShort(r: Rules, lanes: Lanes, p: Partition) {
    && Needy(r, lanes.At(p))
    && (p != Calibration ==> !Needy(r, lanes.calibration))
    && (p.Validation? || p.Evaluation? ==> !Needy(r, lanes.refinement))
    && (p.Evaluation? ==> !Needy(r, lanes.validation))
  }

  lemma FirstIsPending(r: Rules, lanes: Lanes, p: Partition)
    ensures FirstShort(r, lanes, p) <==> Pending(r, lanes) != [] && p == Pending(r, lanes)[0]
  {
    assert lanes.At(Calibration) == lanes.calibration && lanes.At(Refinement) == lanes.refinement;
    assert lanes.At(Validation) == lanes.validation && lanes.At(Evaluation) == lanes.evaluation;
  }

  /** Shard `k` would be read next and is not valid. */
  ghost predicate BadAt(r: Rules, seen: set<string>, shards: seq<Shard>, remaining: int, k: nat) {
    && k < |shards| && ReadsUpTo(r, seen, shards, remaining, k)
    && !Done(r, After(r, seen, shards, k).lanes) && !ValidShard(shards[k])
  }

  /** Shard `k` would be read next and breaks the ceiling. */
  ghost predicate OverAt(r: Rules, seen: set<string>, shards: seq<Shard>, remaining: int, k: nat) {
    && k < |shards| && ReadsUpTo(r, seen, shards, remaining, k)
    && !Done(r, After(r, seen, shards, k).lanes) && ValidShard(shards[k]) && Bytes(shards[..k + 1]) > remaining
  }

  /** What each outcome of a collection means. */
  ghost predicate Correct(r: Rules, shards: seq<Shard>, remaining: int, seen: set<string>, result: Result) {
    (result.TargetsNotPositive? <==> r.minBytes <= 0 || r.minRows <= 0) &&
    match result
    case TargetsNotPositive => true
    case Collected(lanes, used, downloaded, known) =>
      && ReadsUpTo(r, seen, shards, remaining, |used|) && used == shards[..|used|]
      && var end := After(r, seen, shards, |used|);
      && Done(r, end.lanes) && lanes == end.lanes && known == end.seen && downloaded == Bytes(used)
    case BadShard => exists k: nat :: BadAt(r, seen, shards, remaining, k)
    case OverBudget => exists k: nat :: OverAt(r, seen, shards, remaining, k)
    case Exhausted(missing) =>
      && ReadsUpTo(r, seen, shards, remaining, |shards|)
      && FirstShort(r, After(r, seen, shards, |shards|).lanes, missing)
  }

  method CollectDataset(r: Rules, shards: seq<Shard>, remaining: int, seen: set<string>) returns (result: Result)
    ensures Correct(r, shards, remaining, seen, result)
  {
    if r.minBytes <= 0 || r.minRows <= 0 { return TargetsNotPositive; }
    var s := Start(seen);
    var downloaded, used := 0, [];
    for k := 0 to |shards|
      invariant s == After(r, seen, shards, k)
      invariant ReadsUpTo(r, seen, shards, remaining, k)
      invariant used == shards[..k] && downloaded == Bytes(used)
    {
      if Done(r, s.lanes) { return Collected(s.lanes, used, downloaded, s.seen); }
      if !ValidShard(shards[k]) {
        assert BadAt(r, seen, shards, remaining, k);
        return BadShard;
      }
      assert shards[..k + 1][..k] == shards[..k];
      if downloaded + shards[k].bytes > remaining {
        assert OverAt(r, seen, shards, remaining, k);
        return OverBudget;
      }
      downloaded := downloaded + shards[k].bytes;
      s := CollectShard(r, s, shards[k], seen, Stream(shards[..k]));
      used := used + [shards[k]];
    }
    var missing := Pending(r, s.lanes);
    if missing != [] {
      FirstIsPending(r, s.lanes, missing[0]);
      return Exhausted(missing[0]);
    }
    result := Collected(s.lanes, used, downloaded, s.seen);
  }

  /** Shard `k` is where the collection stops: the ones before it are read and it is not. */
  ghost predicate StopsAt(r: Rules, seen: set<string>, shards: seq<Shard>, remaining: int, k: nat) {
    ReadsUpTo(r, seen, shards, remaining, k) && (k == |shards| || !Reads(r, seen, shards, remaining, k))
  }

  /** How a collection that stops at shard `k` ends. */
  ghost function OutcomeAt(r: Rules, seen: set<string>, shards: seq<Shard>, k: nat): Result
    requires k <= |shards|
  {
    var end := After(r, seen, shards, k);
    if Done(r, end.lanes) then Collected(end.lanes, shards[..k], Bytes(shards[..k]), end.seen)
    else if k == |shards| then Exhausted(Pending(r, end.lanes)[0])
    else if ValidShard(shards[k]) then OverBudget else BadShard
  }

  lemma Stops(r: Rules, shards: seq<Shard>, remaining: int, seen: set<string>, result: Result) returns (k: nat)
    requires Correct(r, shards, remaining, seen, result) && !result.TargetsNotPositive?
    ensures StopsAt(r, seen, shards, remaining, k) && result == OutcomeAt(r, seen, shards, k)
  {
    match result
    case Collected(_, used, _, _) => k := |used|;
    case BadShard => k :| BadAt(r, seen, shards, remaining, k);
    case OverBudget => k :| OverAt(r, seen, shards, remaining, k);
    case Exhausted(missing) =>
      k := |shards|;
      FirstIsPending(r, After(r, seen, shards, k).lanes, missing);
  }

  /** Everything about the outcome is decided: whether and why a dataset is not collected, the first
      partition that is short, and otherwise the rows, the shards, the bytes and the digests. */
  lemma OutcomeIsDetermined(r: Rules, shards: seq<Shard>, remaining: int, seen: set<string>, x: Result, y: Result)
    requires Correct(r, shards, remaining, seen, x) && Correct(r, shards, remaining, seen, y)
    ensures x == y
  {
    if !x.TargetsNotPositive? {
      var j := Stops(r, shards, remaining, seen, x);
      var k := Stops(r, shards, remaining, seen, y);
      assert !(j < k) && !(k < j);
    }
  }

  // What a collection guarantees -----------------------------------------------------------

  function Sum(r: Rules, rows: seq<Row>): nat {
    if rows == [] then 0 else Sum(r, rows[..|rows| - 1]) + r.size(rows[|rows| - 1].text)
  }

  /** The row is the one that the stream has at its index. */
  ghost predicate FromStream(r: Rules, stream: seq<Source>, row: Row) {
    && row.index < |stream| && stream[row.index] == Source(row.text, row.shard, row.shardRow)
    && row.digest == r.digest(row.text) && r.size(row.text) > 0
  }

  /** A lane counts its bytes, holds rows of the stream in order, and was needy before its
      last row came. */
  ghost predicate LaneOk(r: Rules, stream: seq<Source>, next: nat, lane: Lane) {
    && lane.bytes == Sum(r, lane.rows)
    && (forall i :: 0 <= i < |lane.rows| ==> FromStream(r, stream, lane.rows[i]) && lane.rows[i].index < next)
    && (forall i, j :: 0 <= i < j < |lane.rows| ==> lane.rows[i].index < lane.rows[j].index)
    && (lane.rows != [] ==>
          var last := lane.rows[|lane.rows| - 1];
          lane.bytes - r.size(last.text) < r.minBytes || |lane.rows| - 1 < r.minRows)
  }

  ghost predicate LanesOk(r: Rules, stream: seq<Source>, s: State) {
    && s.next <= |stream| && (Done(r, s.lanes) || s.next == |stream|)
    && forall p: Partition :: LaneOk(r, stream, s.next, s.lanes.At(p))
  }

  lemma LaneExtends(r: Rules, init: seq<Source>, stream: seq<Source>, next: nat, lane: Lane)
    requires LaneOk(r, init, next, lane) && init <= stream
    ensures LaneOk(r, stream, next, lane) && LaneOk(r, stream, next + 1, lane)
  {
    forall i | 0 <= i < |lane.rows| ensures FromStream(r, stream, lane.rows[i]) {
      assert FromStream(r, init, lane.rows[i]);
    }
  }

  lemma LaneAdds(r: Rules, stream: seq<Source>, row: Row, lane: Lane)
    requires LaneOk(r, stream, row.index, lane) && Needy(r, lane) && FromStream(r, stream, row)
    ensures LaneOk(r, stream, row.index + 1, Add(lane, row, r.size(row.text)))
  {
    var rows := lane.rows + [row];
    assert rows[..|rows| - 1] == lane.rows;
  }

  /** A row that one step adds to a partition is the step's own, and the partition has won it. */
  lemma TakeAdds(r: Rules, s: State, x: Source, p: Partition)
    ensures var t, digest := Take(r, s, x), r.digest(x.text);
      && (t.next == s.next || t.next == s.next + 1)
      && (|| t.lanes.At(p) == s.lanes.At(p)
          || (&& !Done(r, s.lanes) && Winner(r, s, digest) == p && r.size(x.text) > 0 && t.next == s.next + 1
              && t.lanes.At(p) == Add(s.lanes.At(p), Row(s.next, digest, x.text, x.shard, x.shardRow), r.size(x.text))))
  {
  }

  lemma TakeLane(r: Rules, stream: seq<Source>, s: State, p: Partition)
    requires stream != [] && LaneOk(r, stream[..|stream| - 1], s.next, s.lanes.At(p))
    requires Done(r, s.lanes) || s.next == |stream| - 1
    ensures var t := Take(r, s, stream[|stream| - 1]); LaneOk(r, stream, t.next, t.lanes.At(p))
  {
    var x := stream[|stream| - 1];
    TakeAdds(r, s, x, p);
    LaneExtends(r, stream[..|stream| - 1], stream, s.next, s.lanes.At(p));
    if Take(r, s, x).lanes.At(p) != s.lanes.At(p) {
      var row := Row(s.next, r.digest(x.text), x.text, x.shard, x.shardRow);
      assert FromStream(r, stream, row);
      LaneAdds(r, stream, row, s.lanes.At(p));
    }
  }

  lemma TakeLanes(r: Rules, stream: seq<Source>, s: State)
    requires stream != [] && LanesOk(r, stream[..|stream| - 1], s)
    ensures LanesOk(r, stream, Take(r, s, stream[|stream| - 1]))
  {
    var t := Take(r, s, stream[|stream| - 1]);
    forall p: Partition ensures LaneOk(r, stream, t.next, t.lanes.At(p)) { TakeLane(r, stream, s, p); }
  }

  lemma {:induction false} FoldLanes(r: Rules, seen: set<string>, stream: seq<Source>)
    ensures LanesOk(r, stream, Fold(r, seen, stream))
    decreases |stream|
  {
    if stream != [] {
      FoldLanes(r, seen, stream[..|stream| - 1]);
      TakeLanes(r, stream, Fold(r, seen, stream[..|stream| - 1]));
    }
  }

  /** When row `row.index` of the stream came, `p` was the partition with the least score among
      those that still needed rows, the first of them in their fixed order. */
  ghost predicate Won(r: Rules, seen: set<string>, stream: seq<Source>, p: Partition, row: Row) {
    && row.index <= |stream|
    && var s := Fold(r, seen, stream[..row.index]);
    && s.next == row.index && Short(r, s.lanes.At(p))
    && forall q: Partition :: Short(r, s.lanes.At(q)) && q != p ==>
         if Rank(q) < Rank(p) then r.score(p, row.index, row.digest) < r.score(q, row.index, row.digest)
         else r.score(p, row.index, row.digest) <= r.score(q, row.index, row.digest)
  }

  /** A lane misses a target. */
  ghost predicate Short(r: Rules, lane: Lane) { lane.bytes < r.minBytes || |lane.rows| < r.minRows }

  /** Later in the list means later in the order. */
  ghost predicate Ranked(ps: seq<Partition>) { forall i, j :: 0 <= i < j < |ps| ==> Rank(ps[i]) < Rank(ps[j]) }

  lemma {:induction false} BestIsFirst(ps: seq<Partition>, score: Partition -> nat, q: Partition)
    requires ps != [] && Ranked(ps) && q in ps && Rank(q) < Rank(Best(ps, score))
    ensures score(Best(ps, score)) < score(q)
    decreases |ps|
  {
    if |ps| > 1 && Best(ps, score) != ps[0] && q != ps[0] { BestIsFirst(ps[1..], score, q); }
  }

  lemma RankedSnoc(ps: seq<Partition>, r: Rules, lanes: Lanes, p: Partition)
    requires Ranked(ps) && forall i :: 0 <= i < |ps| ==> Rank(ps[i]) < Rank(p)
    ensures var all := ps + If(r, lanes, p); Ranked(all) && forall i :: 0 <= i < |all| ==> Rank(all[i]) <= Rank(p)
  {}

  lemma PendingRanked(r: Rules, lanes: Lanes)
    ensures Ranked(Pending(r, lanes))
  {
    var two := If(r, lanes, Calibration) + If(r, lanes, Refinement);
    RankedSnoc(If(r, lanes, Calibration), r, lanes, Refinement);
    RankedSnoc(two, r, lanes, Validation);
    RankedSnoc(two + If(r, lanes, Validation), r, lanes, Evaluation);
  }

  lemma WinnerIsFirst(r: Rules, s: State, digest: string, q: Partition)
    requires !Done(r, s.lanes) && Needy(r, s.lanes.At(q)) && Rank(q) < Rank(Winner(r, s, digest))
    ensures r.score(Winner(r, s, digest), s.next, digest) < r.score(q, s.next, digest)
  {
    PendingRanked(r, s.lanes);
    BestIsFirst(Pending(r, s.lanes), q => r.score(q, s.next, digest), q);
  }

  lemma WonExtends(r: Rules, seen: set<string>, init: seq<Source>, stream: seq<Source>, p: Partition, row: Row)
    requires init <= stream && Won(r, seen, init, p, row)
    ensures Won(r, seen, stream, p, row)
  {
    assert stream[..row.index] == init[..row.index];
  }

  /** Every selected row went to the partition that its score and the needs of the moment demand. */
  lemma {:induction false} FoldWinners(r: Rules, seen: set<string>, stream: seq<Source>, p: Partition, i: nat)
    requires i < |Fold(r, seen, stream).lanes.At(p).rows|
    ensures Won(r, seen, stream, p, Fold(r, seen, stream).lanes.At(p).rows[i])
    decreases |stream|
  {
    var n := |stream| - 1;
    var init, x := stream[..n], stream[n];
    var s := Fold(r, seen, init);
    TakeAdds(r, s, x, p);
    if i < |s.lanes.At(p).rows| {
      FoldWinners(r, seen, init, p, i);
      WonExtends(r, seen, init, stream, p, s.lanes.At(p).rows[i]);
    } else {
      FoldLanes(r, seen, init);
      WinnerWon(r, seen, stream, s, x, p);
    }
  }

  lemma WinnerWon(r: Rules, seen: set<string>, stream: seq<Source>, s: State, x: Source, p: Partition)
    requires stream != [] && s == Fold(r, seen, stream[..|stream| - 1]) && s.next == |stream| - 1
    requires !Done(r, s.lanes) && Winner(r, s, r.digest(x.text)) == p
    ensures Won(r, seen, stream, p, Row(s.next, r.digest(x.text), x.text, x.shard, x.shardRow))
  {
    forall q: Partition | Short(r, s.lanes.At(q)) && Rank(q) < Rank(p)
      ensures r.score(p, s.next, r.digest(x.text)) < r.score(q, s.next, r.digest(x.text))
    {
      WinnerIsFirst(r, s, r.digest(x.text), q);
    }
  }

  /** A place in the lanes. */
  ghost predicate Slot(lanes: Lanes, p: Partition, i: int) { 0 <= i < |lanes.At(p).rows| }

  ghost function DigestAt(lanes: Lanes, p: Partition, i: int): string
    requires Slot(lanes, p, i)
  {
    lanes.At(p).rows[i].digest
  }

  /** No digest is in two places, none was seen before, and the seen set has grown by exactly
      the selected digests. */
  ghost predicate Ledger(seen: set<string>, s: State) {
    && seen <= s.seen
    && (forall p, i :: Slot(s.lanes, p, i) ==> DigestAt(s.lanes, p, i) in s.seen - seen)
    && (forall d :: d in s.seen - seen ==> exists p, i :: Slot(s.lanes, p, i) && DigestAt(s.lanes, p, i) == d)
    && (forall p, i, q, j ::
          Slot(s.lanes, p, i) && Slot(s.lanes, q, j) && DigestAt(s.lanes, p, i) == DigestAt(s.lanes, q, j)
          ==> p == q && i == j)
  }

  lemma TakeLedger(r: Rules, seen: set<string>, s: State, x: Source)
    requires Ledger(seen, s)
    ensures Ledger(seen, Take(r, s, x))
  {
    var d, t := r.digest(x.text), Take(r, s, x);
    if !Done(r, s.lanes) && r.size(x.text) > 0 && d !in s.seen {
      var p := Winner(r, s, d);
      var n := |s.lanes.At(p).rows|;
      assert Slot(t.lanes, p, n) && DigestAt(t.lanes, p, n) == d;
      forall q, i | Slot(s.lanes, q, i)
        ensures Slot(t.lanes, q, i) && DigestAt(t.lanes, q, i) == DigestAt(s.lanes, q, i) {}
      assert forall q, i :: Slot(t.lanes, q, i) ==> Slot(s.lanes, q, i) || (q == p && i == n);
      forall e | e in t.seen - seen
        ensures exists q, i :: Slot(t.lanes, q, i) && DigestAt(t.lanes, q, i) == e
      {
        if e != d {
          assert e in s.seen - seen;
          var q, i :| Slot(s.lanes, q, i) && DigestAt(s.lanes, q, i) == e;
          assert Slot(t.lanes, q, i) && DigestAt(t.lanes, q, i) == e;
        }
      }
    }
  }

  lemma {:induction false} FoldLedger(r: Rules, seen: set<string>, stream: seq<Source>)
    ensures Ledger(seen, Fold(r, seen, stream))
    decreases |stream|
  {
    if stream != [] {
      var init := stream[..|stream| - 1];
      FoldLedger(r, seen, init);
      TakeLedger(r, seen, Fold(r, seen, init), stream[|stream| - 1]);
    }
  }

  // Sharding independence ------------------------------------------------------------------

  /** The row without the place where it was found. */
  function Erased(row: Row): (nat, string, string) { (row.index, row.digest, row.text) }

  ghost predicate SameLane(a: Lane, b: Lane) {
    && a.bytes == b.bytes && |a.rows| == |b.rows|
    && forall i :: 0 <= i < |a.rows| ==> Erased(a.rows[i]) == Erased(b.rows[i])
  }

  /** The same rows are in the same partitions, wherever they were found. */
  ghost predicate SameChoice(a: State, b: State) {
    a.next == b.next && a.seen == b.seen && forall p: Partition :: SameLane(a.lanes.At(p), b.lanes.At(p))
  }

  ghost predicate SameTexts(a: seq<Source>, b: seq<Source>) {
    |a| == |b| && forall i :: 0 <= i < |a| ==> a[i].text == b[i].text
  }

  lemma SamePending(r: Rules, a: State, b: State)
    requires SameChoice(a, b)
    ensures Pending(r, a.lanes) == Pending(r, b.lanes)
  {
    assert SameLane(a.lanes.At(Calibration), b.lanes.At(Calibration));
    assert SameLane(a.lanes.At(Refinement), b.lanes.At(Refinement));
    assert SameLane(a.lanes.At(Validation), b.lanes.At(Validation));
    assert SameLane(a.lanes.At(Evaluation), b.lanes.At(Evaluation));
  }

  lemma SameWinner(r: Rules, a: State, b: State, digest: string)
    requires SameChoice(a, b) && !Done(r, a.lanes) && !Done(r, b.lanes)
    ensures Winner(r, a, digest) == Winner(r, b, digest)
  {
    SamePending(r, a, b);
    SameBest(Pending(r, a.lanes), q => r.score(q, a.next, digest), q => r.score(q, b.next, digest));
  }

  lemma AddSame(a: Lane, b: Lane, x: Row, y: Row, size: nat)
    requires SameLane(a, b) && Erased(x) == Erased(y)
    ensures SameLane(Add(a, x, size), Add(b, y, size))
  {}

  lemma WithSame(a: Lanes, b: Lanes, p: Partition, x: Lane, y: Lane)
    requires SameLane(x, y) && forall q: Partition :: SameLane(a.At(q), b.At(q))
    ensures forall q: Partition :: SameLane(a.With(p, x).At(q), b.With(p, y).At(q))
  {
    forall q: Partition ensures SameLane(a.With(p, x).At(q), b.With(p, y).At(q)) {
      assert SameLane(a.At(q), b.At(q));
    }
  }

  lemma TakeSame(r: Rules, a: State, b: State, x: Source, y: Source)
    requires SameChoice(a, b) && x.text == y.text
    ensures SameChoice(Take(r, a, x), Take(r, b, y))
  {
    var digest, size := r.digest(x.text), r.size(x.text);
    SamePending(r, a, b);
    if !Done(r, a.lanes) && size > 0 && digest !in a.seen {
      SameWinner(r, a, b, digest);
      var p := Winner(r, a, digest);
      var v, w := Row(a.next, digest, x.text, x.shard, x.shardRow), Row(b.next, digest, y.text, y.shard, y.shardRow);
      AddSame(a.lanes.At(p), b.lanes.At(p), v, w, size);
      WithSame(a.lanes, b.lanes, p, Add(a.lanes.At(p), v, size), Add(b.lanes.At(p), w, size));
    }
  }

  lemma {:induction false} SameBest(ps: seq<Partition>, f: Partition -> nat, g: Partition -> nat)
    requires ps != [] && forall p :: f(p) == g(p)
    ensures Best(ps, f) == Best(ps, g)
  {
    if |ps| > 1 { SameBest(ps[1..], f, g); }
  }

  lemma {:induction false} FoldSame(r: Rules, seen: set<string>, a: seq<Source>, b: seq<Source>)
    requires SameTexts(a, b)
    ensures SameChoice(Fold(r, seen, a), Fold(r, seen, b))
    decreases |a|
  {
    if a != [] {
      FoldSame(r, seen, a[..|a| - 1], b[..|b| - 1]);
      TakeSame(r, Fold(r, seen, a[..|a| - 1]), Fold(r, seen, b[..|b| - 1]), a[|a| - 1], b[|b| - 1]);
    }
  }

  lemma CollectedIsWhole(r: Rules, shards: seq<Shard>, remaining: int, seen: set<string>, result: Result)
    requires Correct(r, shards, remaining, seen, result) && result.Collected?
    ensures var end := Fold(r, seen, Stream(shards)); result.lanes == end.lanes && result.seen == end.seen
  {
    var more := StreamSplit(shards, |result.used|);
    FoldStops(r, seen, Stream(result.used), more);
  }

  /** However the same rows are cut into shards, two successful collections choose the same
      rows for the same partitions, under the same row numbers. */
  lemma ShardingIndependent(r: Rules, seen: set<string>, a: seq<Shard>, b: seq<Shard>,
                            remainingA: int, remainingB: int, x: Result, y: Result)
    requires Correct(r, a, remainingA, seen, x) && Correct(r, b, remainingB, seen, y)
    requires x.Collected? && y.Collected? && SameTexts(Stream(a), Stream(b))
    ensures x.seen == y.seen && forall p: Partition :: SameLane(x.lanes.At(p), y.lanes.At(p))
  {
    CollectedIsWhole(r, a, remainingA, seen, x);
    CollectedIsWhole(r, b, remainingB, seen, y);
    FoldSame(r, seen, Stream(a), Stream(b));
  }

  /** Where a row of the stream comes from. */
  lemma {:induction false} StreamPlace(shards: seq<Shard>, i: nat) returns (k: nat)
    requires i < |Stream(shards)|
    ensures k < |shards| && Stream(shards)[i].shard == shards[k].path
    ensures i == |Stream(shards[..k])| + Stream(shards)[i].shardRow
    ensures Stream(shards)[i].shardRow < |shards[k].rows|
    ensures Stream(shards)[i].text == shards[k].rows[Stream(shards)[i].shardRow]
    decreases |shards|
  {
    var init := shards[..|shards| - 1];
    if i < |Stream(init)| {
      k := StreamPlace(init, i);
      assert init[..k] == shards[..k];
    } else {
      k := |shards| - 1;
    }
  }

  /** A successful collection: every target is met and none by more than the last row, bytes
      and digests are accounted for, each lane is in stream order, and each row number is the
      number of rows in earlier shards plus the row's place in its own. */
  lemma CollectedGuarantees(r: Rules, shards: seq<Shard>, remaining: int, seen: set<string>, result: Result,
                            p: Partition, i: nat)
    requires Correct(r, shards, remaining, seen, result) && result.Collected?
    ensures Sum(r, result.lanes.At(p).rows) >= r.minBytes && |result.lanes.At(p).rows| >= r.minRows
    ensures LaneOk(r, Stream(shards), |Stream(shards)|, result.lanes.At(p))
    ensures exists next :: Ledger(seen, State(result.lanes, next, result.seen))
    ensures i < |result.lanes.At(p).rows| ==>
      var row := result.lanes.At(p).rows[i];
      exists k :: 0 <= k < |shards| && row.shard == shards[k].path && row.shardRow < |shards[k].rows|
        && row.text == shards[k].rows[row.shardRow] && row.index == |Stream(shards[..k])| + row.shardRow
    ensures i < |result.lanes.At(p).rows| ==> Won(r, seen, Stream(shards), p, result.lanes.At(p).rows[i])
  {
    CollectedIsWhole(r, shards, remaining, seen, result);
    var end := Fold(r, seen, Stream(shards));
    FoldLanes(r, seen, Stream(shards));
    FoldLedger(r, seen, Stream(shards));
    assert LaneOk(r, Stream(shards), end.next, end.lanes.At(p));
    assert end == State(result.lanes, end.next, result.seen);
    if i < |result.lanes.At(p).rows| {
      var row := result.lanes.At(p).rows[i];
      assert FromStream(r, Stream(shards), row);
      var k := StreamPlace(shards, row.index);
      FoldWinners(r, seen, Stream(shards), p, i);
    }
  }

  /** A dataset is exhausted only when all its shards have been read within the ceiling, and then the
      partition that is named misses one of its targets over the whole stream, while every partition
      before it meets both. */
  lemma ExhaustedMeans(r: Rules, shards: seq<Shard>, remaining: int, seen: set<string>, missing: Partition,
                       p: Partition)
    requires Correct(r, shards, remaining, seen, Exhausted(missing))
    ensures Bytes(shards) <= remaining || shards == []
    ensures var lanes := Fold(r, seen, Stream(shards)).lanes;
      && (Sum(r, lanes.At(missing).rows) < r.minBytes || |lanes.At(missing).rows| < r.minRows)
      && (Rank(p) < Rank(missing) ==> Sum(r, lanes.At(p).rows) >= r.minBytes && |lanes.At(p).rows| >= r.minRows)
  {
    assert shards[..|shards|] == shards;
    FoldLanes(r, seen, Stream(shards));
    var end := Fold(r, seen, Stream(shards));
    assert LaneOk(r, Stream(shards), end.next, end.lanes.At(missing));
    assert LaneOk(r, Stream(shards), end.next, end.lanes.At(p));
    if shards != [] { assert Reads(r, seen, shards, remaining, |shards| - 1); }
  }

  /** A dataset fails at a shard only when the shards before it, which are valid and within the ceiling,
      leave a partition short of a target; and the shard itself is malformed or goes beyond. */
  lemma FailedAtMeans(r: Rules, shards: seq<Shard>, remaining: int, seen: set<string>, result: Result) returns (k: nat)
    requires Correct(r, shards, remaining, seen, result) && (result.BadShard? || result.OverBudget?)
    ensures k < |shards| && (k > 0 ==> Bytes(shards[..k]) <= remaining)
    ensures forall j :: 0 <= j < k ==> shards[j].bytes > 0 && |shards[j].sha256| == 64
    ensures result.BadShard? <==> shards[k].bytes <= 0 || |shards[k].sha256| != 64
    ensures result.OverBudget? ==> Bytes(shards[..k]) + shards[k].bytes > remaining
    ensures exists p: Partition :: var rows := Fold(r, seen, Stream(shards[..k])).lanes.At(p).rows;
      Sum(r, rows) < r.minBytes || |rows| < r.minRows
  {
    if result.BadShard? {
      k :| BadAt(r, seen, shards, remaining, k);
    } else {
      k :| OverAt(r, seen, shards, remaining, k);
    }
    assert shards[..k + 1][..k] == shards[..k];
    if k > 0 { assert Reads(r, seen, shards, remaining, k - 1); }
    forall j | 0 <= j < k ensures shards[j].bytes > 0 && |shards[j].sha256| == 64 {
      assert Reads(r, seen, shards, remaining, j);
    }
    var end := Fold(r, seen, Stream(shards[..k]));
    var p :| Needy(r, end.lanes.At(p));
    FoldLanes(r, seen, Stream(shards[..k]));
    assert LaneOk(r, Stream(shards[..k]), end.next, end.lanes.At(p));
  }

  // All datasets -----------------------------------------------------------------------------

  datatype Dataset = Dataset(rules: Rules, shards: seq<Shard>)

  predicate AllCollected(results: seq<Result>) {
    forall a :: 0 <= a < |results| ==> results[a].Collected?
  }

  function Downloaded(results: seq<Result>): int
    requires AllCollected(results)
  {
    if results == [] then 0
    else Downloaded(results[..|results| - 1]) + results[|results| - 1].downloaded
  }

  ghost predicate Place(results: seq<Result>, a: int, p: Partition, i: int) {
    0 <= a < |results| && results[a].Collected? && Slot(results[a].lanes, p, i)
  }

  ghost function DigestOf(results: seq<Result>, a: int, p: Partition, i: int): string
    requires Place(results, a, p, i)
  {
    DigestAt(results[a].lanes, p, i)
  }

  function SeenBefore(results: seq<Result>, a: nat): set<string>
    requires a <= |results| && AllCollected(results)
  {
    if a == 0 then {} else results[a - 1].seen
  }

  /** One dataset was collected with what the earlier ones left of the budget, and with all
      the digests they had seen. */
  ghost predicate InTurn(datasets: seq<Dataset>, results: seq<Result>, max: int, a: nat)
    requires a < |results| <= |datasets| && AllCollected(results)
  {
    Correct(datasets[a].rules, datasets[a].shards, max - Downloaded(results[..a]), SeenBefore(results, a), results[a])
  }

  ghost predicate Collection(datasets: seq<Dataset>, results: seq<Result>, max: int) {
    && |results| <= |datasets| && AllCollected(results)
    && (forall a :: 0 <= a < |results| ==> InTurn(datasets, results, max, a))
    && Downloaded(results) <= max
  }

  lemma WithinBudget(r: Rules, shards: seq<Shard>, remaining: int, seen: set<string>, result: Result)
    requires Correct(r, shards, remaining, seen, result) && result.Collected? && remaining >= 0
    ensures result.downloaded <= remaining
  {
    var k := |result.used|;
    if k > 0 { assert Reads(r, seen, shards, remaining, k - 1); }
  }

  lemma InTurnSnoc(datasets: seq<Dataset>, results: seq<Result>, x: Result, max: int, a: nat)
    requires |results| < |datasets| && AllCollected(results) && x.Collected?
    requires a < |results| && InTurn(datasets, results, max, a)
    ensures InTurn(datasets, results + [x], max, a)
  {
    var all := results + [x];
    assert all[..a] == results[..a] && all[a] == results[a];
    assert SeenBefore(all, a) == SeenBefore(results, a);
  }

  lemma TurnsSnoc(datasets: seq<Dataset>, results: seq<Result>, x: Result, max: int)
    requires |results| < |datasets| && AllCollected(results) && x.Collected?
    requires forall a :: 0 <= a < |results| ==> InTurn(datasets, results, max, a)
    requires var d := datasets[|results|];
      Correct(d.rules, d.shards, max - Downloaded(results), SeenBefore(results, |results|), x)
    ensures forall a :: 0 <= a < |results + [x]| ==> InTurn(datasets, results + [x], max, a)
  {
    var all, n := results + [x], |results|;
    assert all[..n] == results && SeenBefore(all, n) == SeenBefore(results, n);
    forall a | 0 <= a < |all| ensures InTurn(datasets, all, max, a) {
      if a < n { InTurnSnoc(datasets, results, x, max, a); }
    }
  }

  lemma CollectionSnoc(datasets: seq<Dataset>, results: seq<Result>, x: Result, max: int)
    requires Collection(datasets, results, max) && |results| < |datasets| && x.Collected?
    requires var d := datasets[|results|];
      Correct(d.rules, d.shards, max - Downloaded(results), SeenBefore(results, |results|), x)
    ensures Collection(datasets, results + [x], max)
  {
    var d, n, all := datasets[|results|], |results|, results + [x];
    TurnsSnoc(datasets, results, x, max);
    WithinBudget(d.rules, d.shards, max - Downloaded(results), SeenBefore(results, n), x);
    assert all[..n] == results;
  }

  /** The dataset after those of `results` ended with `x`. */
  ghost predicate Ended(datasets: seq<Dataset>, results: seq<Result>, max: int, x: Result) {
    && |results| < |datasets| && AllCollected(results)
    && var d := datasets[|results|];
    Correct(d.rules, d.shards, max - Downloaded(results), SeenBefore(results, |results|), x)
  }

  method CollectNext(datasets: seq<Dataset>, results: seq<Result>, ghost max: int, remaining: int, seen: set<string>)
    returns (x: Result)
    requires |results| < |datasets| && AllCollected(results)
    requires remaining == max - Downloaded(results) && seen == SeenBefore(results, |results|)
    ensures Ended(datasets, results, max, x)
  {
    var d := datasets[|results|];
    x := CollectDataset(d.rules, d.shards, remaining, seen);
  }

  lemma EndedSnoc(datasets: seq<Dataset>, results: seq<Result>, x: Result, max: int)
    requires Collection(datasets, results, max) && Ended(datasets, results, max, x) && x.Collected?
    ensures Collection(datasets, results + [x], max)
    ensures Downloaded(results + [x]) == Downloaded(results) + x.downloaded
    ensures SeenBefore(results + [x], |results| + 1) == x.seen
  {
    CollectionSnoc(datasets, results, x, max);
    assert (results + [x])[..|results|] == results;
  }

  /** How the collection of all datasets ends. */
  datatype Ending = Complete | NoBudget | Stopped(result: Result)

  /** The datasets share one set of seen digests and one download budget.  A run that stops has
      collected the first datasets, and the next one could not be collected. */
  method CollectSampledRows(datasets: seq<Dataset>, maxDownload: int) returns (ending: Ending, results: seq<Result>)
    ensures ending.NoBudget? <==> maxDownload <= 0
    ensures ending.NoBudget? || Collection(datasets, results, maxDownload)
    ensures ending.Complete? ==> |results| == |datasets|
    ensures ending.Stopped? ==> Ended(datasets, results, maxDownload, ending.result) && !ending.result.Collected?
  {
    results := [];
    if maxDownload <= 0 { return NoBudget, results; }
    var seen: set<string>, remaining := {}, maxDownload;
    for a := 0 to |datasets|
      invariant Collection(datasets, results, maxDownload) && |results| == a
      invariant remaining == maxDownload - Downloaded(results) && seen == SeenBefore(results, a)
    {
      var x := CollectNext(datasets, results, maxDownload, remaining, seen);
      if !x.Collected? { return Stopped(x), results; }
      EndedSnoc(datasets, results, x, maxDownload);
      remaining := remaining - x.downloaded;
      seen := x.seen;
      results := results + [x];
    }
    ending := Complete;
  }

  lemma InTurnLedger(datasets: seq<Dataset>, results: seq<Result>, max: int, a: nat) returns (s: State)
    requires Collection(datasets, results, max) && a < |results|
    ensures s.lanes == results[a].lanes && s.seen == results[a].seen && Ledger(SeenBefore(results, a), s)
  {
    assert InTurn(datasets, results, max, a);
    var d, left := datasets[a], max - Downloaded(results[..a]);
    CollectedGuarantees(d.rules, d.shards, left, SeenBefore(results, a), results[a], Calibration, 0);
    var next :| Ledger(SeenBefore(results, a), State(results[a].lanes, next, results[a].seen));
    s := State(results[a].lanes, next, results[a].seen);
  }

  lemma {:induction false} SeenGrows(datasets: seq<Dataset>, results: seq<Result>, max: int, a: nat, b: nat)
    requires Collection(datasets, results, max) && a <= b <= |results|
    ensures SeenBefore(results, a) <= SeenBefore(results, b)
    decreases b
  {
    if a < b {
      SeenGrows(datasets, results, max, a, b - 1);
      var s := InTurnLedger(datasets, results, max, b - 1);
    }
  }

  /** No digest is in two places of any datasets and partitions. */
  lemma NoLeakage(datasets: seq<Dataset>, results: seq<Result>, max: int,
                  a: int, p: Partition, i: int, b: int, q: Partition, j: int)
    requires Collection(datasets, results, max) && Place(results, a, p, i) && Place(results, b, q, j)
    requires DigestOf(results, a, p, i) == DigestOf(results, b, q, j)
    ensures a == b && p == q && i == j
  {
    var s := InTurnLedger(datasets, results, max, a);
    var t := InTurnLedger(datasets, results, max, b);
    assert DigestAt(s.lanes, p, i) == DigestAt(t.lanes, q, j);
    if a < b { SeenGrows(datasets, results, max, a + 1, b); }
    if b < a { SeenGrows(datasets, results, max, b + 1, a); }
  }

  /** Nor is any text, when all datasets are measured with one digest. */
  lemma NoTextTwice(datasets: seq<Dataset>, results: seq<Result>, max: int, digest: string -> string,
                    a: int, p: Partition, i: int, b: int, q: Partition, j: int)
    requires Collection(datasets, results, max) && Place(results, a, p, i) && Place(results, b, q, j)
    requires forall d <- datasets :: d.rules.digest == digest
    requires results[a].lanes.At(p).rows[i].text == results[b].lanes.At(q).rows[j].text
    ensures a == b && p == q && i == j
  {
    DigestOfText(datasets, results, max, a, p, i);
    DigestOfText(datasets, results, max, b, q, j);
    NoLeakage(datasets, results, max, a, p, i, b, q, j);
  }

  lemma DigestOfText(datasets: seq<Dataset>, results: seq<Result>, max: int, a: int, p: Partition, i: int)
    requires Collection(datasets, results, max) && Place(results, a, p, i)
    ensures DigestOf(results, a, p, i) == datasets[a].rules.digest(results[a].lanes.At(p).rows[i].text)
  {
    assert InTurn(datasets, results, max, a);
    var d, left := datasets[a], max - Downloaded(results[..a]);
    CollectedGuarantees(d.rules, d.shards, left, SeenBefore(results, a), results[a], p, i);
    assert FromStream(d.rules, Stream(d.shards), results[a].lanes.At(p).rows[i]);
  }
}
