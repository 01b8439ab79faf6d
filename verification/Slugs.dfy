/** Heading anchors of a Markdown page (scripts/check-community-contract.py): a heading whose slug is
    taken gets the first free numeric suffix, and a cache remembers where the last search for the
    same slug stopped. */
module Slugs {
  import Folds

  function Digit(d: nat): char
    requires d < 10
  {
    "0123456789"[d]
  }

  function Decimal(n: nat): string {
    if n < 10 then [Digit(n)] else Decimal(n / 10) + [Digit(n % 10)]
  }

  lemma DigitInjective(c: nat, d: nat)
    requires c < 10 && d < 10 && Digit(c) == Digit(d)
    ensures c == d
  {}

  lemma {:induction false} DecimalInjective(m: nat, n: nat)
    requires Decimal(m) == Decimal(n)
    ensures m == n
  {
    DecimalLength(m);
    DecimalLength(n);
    DigitInjective(m % 10, n % 10);
    if m >= 10 {
      var s := Decimal(m);
      assert Decimal(m / 10) == s[..|s| - 1] == Decimal(n / 10);
      DecimalInjective(m / 10, n / 10);
    }
  }

  lemma {:induction false} DecimalLength(n: nat)
    ensures |Decimal(n)| >= 1 && (|Decimal(n)| == 1 <==> n < 10)
    ensures Decimal(n)[|Decimal(n)| - 1] == Digit(n % 10)
  {
    if n >= 10 { DecimalLength(n / 10); }
  }

  predicate IsDigit(c: char) { '0' <= c <= '9' }

  /** The number that a text of decimal digits stands for. */
  function Numeral(s: string): int {
    if s == [] then 0 else 10 * Numeral(s[..|s| - 1]) + (s[|s| - 1] as int - '0' as int)
  }

  lemma DigitMeans(d: nat)
    requires d < 10
    ensures IsDigit(Digit(d)) && Digit(d) as int - '0' as int == d
  {}

  /** The text of a number is its decimal numeral, without leading zeros. */
  lemma {:induction false} DecimalMeans(n: nat)
    ensures forall i :: 0 <= i < |Decimal(n)| ==> IsDigit(Decimal(n)[i])
    ensures Numeral(Decimal(n)) == n
    ensures Decimal(n) != [] && (Decimal(n)[0] == '0' ==> n == 0)
  {
    DigitMeans(n % 10);
    if n < 10 {
      assert Decimal(n)[..0] == [];
    } else {
      DecimalMeans(n / 10);
      assert Decimal(n)[..|Decimal(n)| - 1] == Decimal(n / 10);
    }
  }

  /** The `k`th name that is tried for a slug. */
  function Candidate(slug: string, k: nat): string {
    if k == 0 then slug else slug + "-" + Decimal(k)
  }

  lemma CandidateInjective(slug: string, j: nat, k: nat)
    requires Candidate(slug, j) == Candidate(slug, k)
    ensures j == k
  {
    if j > 0 && k > 0 {
      assert Decimal(j) == Candidate(slug, j)[|slug| + 1..] == Candidate(slug, k)[|slug| + 1..] == Decimal(k);
      DecimalInjective(j, k);
    }
  }

  /** The first `n` names for a slug. */
  ghost function Tried(slug: string, n: nat): set<string> {
    if n == 0 then {} else Tried(slug, n - 1) + {Candidate(slug, n - 1)}
  }

  lemma {:induction false} TriedCount(slug: string, n: nat)
    ensures |Tried(slug, n)| == n
    ensures forall x :: x in Tried(slug, n) ==> exists k: nat :: k < n && Candidate(slug, k) == x
  {
    if n > 0 {
      TriedCount(slug, n - 1);
      if Candidate(slug, n - 1) in Tried(slug, n - 1) {
        var k: nat :| k < n - 1 && Candidate(slug, k) == Candidate(slug, n - 1);
        CandidateInjective(slug, k, n - 1);
      }
    }
  }

  ghost predicate TakenTo(used: set<string>, slug: string, n: nat) {
    forall k: nat :: k < n ==> Candidate(slug, k) in used
  }

  /** Fewer names are taken than there are used ones. */
  lemma TakenBound(used: set<string>, slug: string, n: nat)
    requires TakenTo(used, slug, n)
    ensures n <= |used|
  {
    TriedCount(slug, n);
    assert Tried(slug, n) <= used;
    Folds.SubsetCount(Tried(slug, n), used);
  }

  /** The plain search, from the slug itself upwards. */
  function FirstFree(used: set<string>, slug: string, k: nat): (r: nat)
    requires TakenTo(used, slug, k)
    ensures Candidate(slug, r) !in used && TakenTo(used, slug, r)
    decreases |used| + 1 - k
  {
    TakenBound(used, slug, k);
    if Candidate(slug, k) !in used then k else FirstFree(used, slug, k + 1)
  }

  function Anchor(used: set<string>, slug: string): string { Candidate(slug, FirstFree(used, slug, 0)) }

  lemma FirstFreeIsUnique(used: set<string>, slug: string, k: nat)
    requires Candidate(slug, k) !in used && TakenTo(used, slug, k)
    ensures k == FirstFree(used, slug, 0)
  {}

  lemma TakenGrows(used: set<string>, more: set<string>, slug: string, n: nat)
    requires TakenTo(used, slug, n) && used <= more
    ensures TakenTo(more, slug, n)
  {}

  /** What is remembered for a slug is taken, and so is everything below it. */
  ghost predicate Remembers(used: set<string>, nextSuffix: map<string, nat>) {
    forall s :: s in nextSuffix ==> TakenTo(used, s, nextSuffix[s] + 1)
  }

  lemma RememberMore(used: set<string>, nextSuffix: map<string, nat>, slug: string, n: nat)
    requires Remembers(used, nextSuffix) && TakenTo(used, slug, n)
    ensures Remembers(used + {Candidate(slug, n)}, nextSuffix[slug := n])
  {
    var more := used + {Candidate(slug, n)};
    TakenGrows(used, more, slug, n);
    forall s | s in nextSuffix ensures TakenTo(more, s, nextSuffix[s] + 1) {
      TakenGrows(used, more, s, nextSuffix[s] + 1);
    }
  }

  class Page {
    var used: set<string>
    var anchors: set<string>
    var nextSuffix: map<string, nat>

    ghost predicate Valid()
      reads this
    {
      anchors == used && Remembers(used, nextSuffix)
    }

    constructor (ids: set<string>)
      ensures Valid() && used == anchors == ids
    {
      used, anchors, nextSuffix := ids, ids, map[];
    }

    /** The cached search gives a heading the name that the plain search gives it. */
    method AddHeading(slug: string)
      requires Valid()
      modifies this
      ensures Valid()
      ensures anchors == if slug == "" then old(anchors) else old(anchors) + {Anchor(old(anchors), slug)}
      ensures slug == "" ==> nextSuffix == old(nextSuffix)
      ensures slug != "" ==> slug in nextSuffix && nextSuffix == old(nextSuffix)[slug := nextSuffix[slug]]
      ensures slug != "" ==> Candidate(slug, nextSuffix[slug]) == Anchor(old(anchors), slug)
    {
      if slug == "" { return; }
      var candidate := slug;
      var suffix := if slug in nextSuffix then nextSuffix[slug] else 0;
      assert Candidate(slug, 0) == slug;
      ghost var tried: nat := 0;
      while candidate in used
        invariant candidate == Candidate(slug, tried) && TakenTo(used, slug, tried)
        invariant if candidate in used then TakenTo(used, slug, suffix + 1) else tried == suffix
        modifies {}
        decreases |used| - suffix
      {
        TakenBound(used, slug, suffix + 1);
        suffix := suffix + 1;
        candidate := slug + "-" + Decimal(suffix);
        tried := suffix;
      }
      FirstFreeIsUnique(used, slug, tried);
      RememberMore(used, nextSuffix, slug, suffix);
      used, anchors := used + {candidate}, anchors + {candidate};
      nextSuffix := nextSuffix[slug := suffix];
    }
  }

  /** The anchors of a page by the plain search. */
  function Anchors(ids: set<string>, slugs: seq<string>): set<string> {
    if slugs == [] then ids
    else
      var before, slug := Anchors(ids, slugs[..|slugs| - 1]), slugs[|slugs| - 1];
      if slug == "" then before else before + {Anchor(before, slug)}
  }

  function NonEmpty(slugs: seq<string>): nat {
    if slugs == [] then 0 else NonEmpty(slugs[..|slugs| - 1]) + if slugs[|slugs| - 1] == "" then 0 else 1
  }

  /** One anchor for every explicit id, and a fresh one for every heading that has a slug. */
  lemma {:induction false} AnchorsCount(ids: set<string>, slugs: seq<string>)
    ensures ids <= Anchors(ids, slugs) && |Anchors(ids, slugs)| == |ids| + NonEmpty(slugs)
  {
    if slugs != [] { AnchorsCount(ids, slugs[..|slugs| - 1]); }
  }

  /** The cached search over a whole page is the plain search. */
  method GithubAnchors(ids: set<string>, slugs: seq<string>) returns (anchors: set<string>)
    ensures anchors == Anchors(ids, slugs)
  {
    var page := new Page(ids);
    for i := 0 to |slugs|
      invariant page.Valid() && fresh(page) && page.anchors == Anchors(ids, slugs[..i])
    {
      page.AddHeading(slugs[i]);
      assert slugs[..i + 1][..i] == slugs[..i];
    }
    assert slugs[..|slugs|] == slugs;
    anchors := page.anchors;
  }
}
