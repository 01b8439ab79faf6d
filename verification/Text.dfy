/** Occurrences of one string in another, and the string operations the release
    scripts rely on: counting, replacing, splitting.  Counting and replacing scan
    from the left and skip the whole occurrence once it has matched, so they see
    only occurrences that do not overlap. */
module Text {

  datatype Option<+T> = None | Some(value: T)

  /** `p` occurs in `s` at position `i`. */
  predicate At(s: string, p: string, i: int) {
    0 <= i && i + |p| <= |s| && s[i..i + |p|] == p
  }

  predicate Contains(s: string, p: string) {
    exists i :: 0 <= i <= |s| && At(s, p, i)
  }

  /** `p` occurs in `s` at `i` and nowhere else. */
  ghost predicate OnlyAt(s: string, p: string, i: int) {
    At(s, p, i) && forall j :: At(s, p, j) ==> j == i
  }

  /** No proper suffix of `p` is also a prefix of it, so two occurrences never overlap. */
  ghost predicate Unbordered(p: string) {
    forall k :: 0 < k < |p| ==> p[k..] != p[..|p| - k]
  }

  function Count(s: string, p: string): nat
    requires p != ""
    decreases |s|
  {
    if |s| < |p| then 0
    else if s[..|p|] == p then 1 + Count(s[|p|..], p)
    else Count(s[1..], p)
  }

  function Replace(s: string, p: string, put: string): string
    requires p != ""
    decreases |s|
  {
    if |s| < |p| then s
    else if s[..|p|] == p then put + Replace(s[|p|..], p, put)
    else s[..1] + Replace(s[1..], p, put)
  }

  /** The parts before and after the first occurrence, when there is one. */
  function SplitOnce(s: string, p: string): Option<(string, string)>
    decreases |s|
  {
    if |s| < |p| then None
    else if s[..|p|] == p then Some(("", s[|p|..]))
    else if s == "" then None
    else match SplitOnce(s[1..], p)
      case None => None
      case Some((a, b)) => Some((s[..1] + a, b))
  }

  lemma AtDrop(s: string, p: string, k: nat, i: int)
    requires k <= |s| && 0 <= i
    ensures At(s[k..], p, i) <==> At(s, p, i + k)
  {
    if i + k + |p| <= |s| {
      assert s[k..][i..i + |p|] == s[i + k..i + k + |p|];
    }
  }

  lemma ContainsTail(s: string, p: string)
    requires s != "" && !At(s, p, 0)
    ensures Contains(s, p) <==> Contains(s[1..], p)
  {
    if i :| 0 <= i <= |s| && At(s, p, i) {
      AtDrop(s, p, 1, i - 1);
    }
    if i :| 0 <= i <= |s[1..]| && At(s[1..], p, i) {
      AtDrop(s, p, 1, i);
      assert At(s, p, i + 1);
    }
  }

  lemma {:induction false} CountZero(s: string, p: string, put: string)
    requires p != ""
    ensures Count(s, p) == 0 <==> !Contains(s, p)
    ensures Count(s, p) == 0 ==> Replace(s, p, put) == s
    decreases |s|
  {
    if |s| >= |p| {
      if s[..|p|] == p {
        assert At(s, p, 0);
      } else {
        CountZero(s[1..], p, put);
        assert s == s[..1] + s[1..];
        ContainsTail(s, p);
      }
    }
  }

  lemma DropOnlyAt(text: string, p: string, k: nat, e: int)
    requires p != "" && k <= |text| && OnlyAt(text, p, e)
    ensures k <= e ==> OnlyAt(text[k..], p, e - k)
    ensures e < k ==> !Contains(text[k..], p)
  {
    if k <= e { AtDrop(text, p, k, e - k); }
    forall i | At(text[k..], p, i) ensures i == e - k { AtDrop(text, p, k, i); }
  }

  lemma {:induction false} OnlyAtCount(s: string, p: string, i: int)
    requires p != "" && OnlyAt(s, p, i)
    ensures Count(s, p) == 1
    decreases |s|
  {
    if i == 0 {
      DropOnlyAt(s, p, |p|, 0);
      CountZero(s[|p|..], p, "");
    } else {
      assert !At(s, p, 0);
      DropOnlyAt(s, p, 1, i);
      OnlyAtCount(s[1..], p, i - 1);
    }
  }

  lemma {:induction false} OnlyAtReplace(s: string, p: string, i: int, put: string)
    requires p != "" && OnlyAt(s, p, i)
    ensures Replace(s, p, put) == s[..i] + put + s[i + |p|..]
    decreases |s|
  {
    if i == 0 {
      DropOnlyAt(s, p, |p|, 0);
      CountZero(s[|p|..], p, put);
    } else {
      assert !At(s, p, 0);
      DropOnlyAt(s, p, 1, i);
      OnlyAtReplace(s[1..], p, i - 1, put);
      var a, b := s[1..][..i - 1], s[1..][i - 1 + |p|..];
      assert s[..1] + a == s[..i] && b == s[i + |p|..];
      assert s[..1] + (a + put + b) == (s[..1] + a) + put + b;
    }
  }

  lemma {:induction false} OnlyAtSplit(s: string, p: string, i: int)
    requires p != "" && OnlyAt(s, p, i)
    ensures SplitOnce(s, p) == Some((s[..i], s[i + |p|..]))
    decreases |s|
  {
    if i > 0 {
      assert !At(s, p, 0);
      DropOnlyAt(s, p, 1, i);
      OnlyAtSplit(s[1..], p, i - 1);
      assert s[..1] + s[1..][..i - 1] == s[..i];
      assert s[1..][i - 1 + |p|..] == s[i + |p|..];
    }
  }

  /** A string with a single occurrence: counting, replacing and splitting all find it. */
  lemma OnlyAtScan(s: string, p: string, i: int, put: string)
    requires p != "" && OnlyAt(s, p, i)
    ensures Count(s, p) == 1
    ensures Replace(s, p, put) == s[..i] + put + s[i + |p|..]
    ensures SplitOnce(s, p) == Some((s[..i], s[i + |p|..]))
  {
    OnlyAtCount(s, p, i);
    OnlyAtReplace(s, p, i, put);
    OnlyAtSplit(s, p, i);
  }

  lemma OverlapIsBorder(s: string, p: string, i: int, j: int)
    requires At(s, p, i) && At(s, p, j) && i < j < i + |p|
    ensures p[j - i..] == p[..|p| - (j - i)]
  {
    var k := j - i;
    assert p[k..] == s[i..i + |p|][k..] == s[j..i + |p|];
    assert p[..|p| - k] == s[j..j + |p|][..|p| - k] == s[j..i + |p|];
  }

  /** For an unbordered string, a count of one means a single occurrence. */
  lemma {:induction false} CountOneIsOnlyAt(s: string, p: string) returns (i: nat)
    requires p != "" && Unbordered(p) && Count(s, p) == 1
    ensures OnlyAt(s, p, i)
    decreases |s|
  {
    if s[..|p|] == p {
      i := 0;
      CountZero(s[|p|..], p, "");
      forall j | At(s, p, j) ensures j == 0 {
        if 0 < j < |p| {
          OverlapIsBorder(s, p, 0, j);
        } else if |p| <= j {
          AtDrop(s, p, |p|, j - |p|);
        }
      }
    } else {
      var k := CountOneIsOnlyAt(s[1..], p);
      i := k + 1;
      AtDrop(s, p, 1, k);
      forall j | At(s, p, j) ensures j == i { AtDrop(s, p, 1, j - 1); }
    }
  }

  /** A string whose first character never comes back in it has no border. */
  lemma FirstCharOnceIsUnbordered(p: string)
    requires p != "" && forall k :: 0 < k < |p| ==> p[k] != p[0]
    ensures Unbordered(p)
  {
    forall k | 0 < k < |p| ensures p[k..] != p[..|p| - k] {
      assert p[k..][0] == p[k] && p[..|p| - k][0] == p[0];
    }
  }
}
