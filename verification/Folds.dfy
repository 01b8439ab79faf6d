/** Sequences without repeats, and a loop that checks items one by one, gathers a name of each and
    refuses a second item of the same kind. */
module Folds {
  ghost predicate NoRepeats<B>(s: seq<B>) {
    s == [] || (NoRepeats(s[..|s| - 1]) && s[|s| - 1] !in s[..|s| - 1])
  }

  /** Every value is at one place only. */
  ghost predicate Distinct<B>(s: seq<B>) {
    forall i, j :: 0 <= i < j < |s| ==> s[i] != s[j]
  }

  lemma {:induction false} NoRepeatsMeans<B>(s: seq<B>)
    ensures NoRepeats(s) <==> Distinct(s)
  {
    if s != [] {
      var front := s[..|s| - 1];
      NoRepeatsMeans(front);
      if Distinct(s) { assert forall i :: 0 <= i < |front| ==> front[i] == s[i]; }
      if NoRepeats(s) {
        forall i, j | 0 <= i < j < |s| ensures s[i] != s[j] {
          assert front[i] == s[i];
          if j < |front| { assert front[j] == s[j]; }
        }
      }
    }
  }

  lemma NoRepeatsStep<B>(s: seq<B>, x: B)
    ensures NoRepeats(s + [x]) <==> NoRepeats(s) && x !in s
  {
    assert (s + [x])[..|s|] == s;
  }

  lemma {:induction false} RepeatGrows<B>(s: seq<B>, t: seq<B>)
    requires s <= t && !NoRepeats(s)
    ensures !NoRepeats(t)
    decreases |t|
  {
    if s != t { RepeatGrows(s, t[..|t| - 1]); }
  }

  lemma {:induction false} SubsetCount<A>(a: set<A>, b: set<A>)
    requires a <= b
    ensures |a| <= |b|
  {
    if a != {} {
      var x :| x in a;
      SubsetCount(a - {x}, b - {x});
    }
  }

  ghost predicate All<D>(good: D -> bool, items: seq<D>, n: nat)
    requires n <= |items|
  {
    n == 0 || (All(good, items, n - 1) && good(items[n - 1]))
  }

  ghost function Image<D, N>(name: D -> N, items: seq<D>, n: nat): set<N>
    requires n <= |items|
  {
    if n == 0 then {} else Image(name, items, n - 1) + {name(items[n - 1])}
  }

  ghost function Map<D, K>(kind: D -> K, items: seq<D>, n: nat): seq<K>
    requires n <= |items|
  {
    if n == 0 then [] else Map(kind, items, n - 1) + [kind(items[n - 1])]
  }

  lemma {:induction false} AllMeans<D>(good: D -> bool, items: seq<D>, n: nat)
    requires n <= |items|
    ensures All(good, items, n) <==> forall i :: 0 <= i < n ==> good(items[i])
  {
    if n > 0 { AllMeans(good, items, n - 1); }
  }

  lemma {:induction false} MapGrows<D, K>(kind: D -> K, items: seq<D>, i: nat, n: nat)
    requires i <= n <= |items|
    ensures Map(kind, items, i) <= Map(kind, items, n)
  {
    if i < n { MapGrows(kind, items, i, n - 1); }
  }

  lemma RepeatStays<D, K>(carried: seq<K>, kind: D -> K, items: seq<D>, i: nat)
    requires i <= |items| && !NoRepeats(carried + Map(kind, items, i))
    ensures !NoRepeats(carried + Map(kind, items, |items|))
  {
    MapGrows(kind, items, i, |items|);
    RepeatGrows(carried + Map(kind, items, i), carried + Map(kind, items, |items|));
  }

  ghost predicate SameElements<K(!new)>(elements: set<K>, s: seq<K>) { forall k :: k in elements <==> k in s }

  lemma SameElementsStep<K(!new)>(elements: set<K>, s: seq<K>, x: K)
    requires SameElements(elements, s)
    ensures SameElements(elements + {x}, s + [x])
  {}

  lemma {:induction false} DistinctCount<K(!new)>(elements: set<K>, s: seq<K>)
    requires NoRepeats(s) && SameElements(elements, s)
    ensures |elements| == |s|
  {
    if s != [] {
      var front, x := s[..|s| - 1], s[|s| - 1];
      assert s == front + [x];
      assert forall k :: k in elements - {x} <==> k in front;
      DistinctCount(elements - {x}, front);
    } else {
      assert elements == {};
    }
  }

  /** `seen` holds the kinds of `carried` and of the items so far. */
  method Gather<D, N, K(==, !new)>(items: seq<D>, good: D -> bool, name: D -> N, kind: D -> K,
                                   before: set<N>, already: set<K>, ghost carried: seq<K>)
    returns (ok: bool, referenced: set<N>, seen: set<K>)
    requires NoRepeats(carried) && SameElements(already, carried)
    ensures ok == (All(good, items, |items|) && NoRepeats(carried + Map(kind, items, |items|)))
    ensures ok ==> SameElements(seen, carried + Map(kind, items, |items|))
    ensures ok ==> referenced == before + Image(name, items, |items|)
  {
    ok, referenced, seen := false, before, already;
    ghost var met := carried;
    for i := 0 to |items|
      invariant All(good, items, i) && referenced == before + Image(name, items, i)
      invariant met == carried + Map(kind, items, i) && NoRepeats(met) && SameElements(seen, met)
    {
      if !good(items[i]) {
        AllMeans(good, items, |items|);
        return;
      }
      var k := kind(items[i]);
      NoRepeatsStep(met, k);
      SameElementsStep(seen, met, k);
      assert carried + Map(kind, items, i + 1) == met + [k];
      if k in seen {
        RepeatStays(carried, kind, items, i + 1);
        return;
      }
      referenced, seen := referenced + {name(items[i])}, seen + {k};
      met := met + [k];
    }
    ok := true;
  }

  lemma {:induction false} ImageMeans<D, N>(name: D -> N, items: seq<D>, n: nat, x: N)
    requires n <= |items|
    ensures x in Image(name, items, n) <==> exists i :: 0 <= i < n && name(items[i]) == x
  {
    if n > 0 { ImageMeans(name, items, n - 1, x); }
  }

  /** How to look at an item that has parts: the check and the names of the item itself, its parts,
      and the check, the name and the kind of a part. */
  datatype Look<!D, !N, !K> = Look(
    head: D -> bool, heads: D -> set<N>, parts: D -> seq<D>, good: D -> bool, name: D -> N, kind: D -> K)

  ghost predicate Passes<D, N, K>(look: Look<D, N, K>, d: D) {
    look.head(d) && All(look.good, look.parts(d), |look.parts(d)|)
  }

  ghost function NamesIn<D, N, K>(look: Look<D, N, K>, d: D): set<N> {
    look.heads(d) + Image(look.name, look.parts(d), |look.parts(d)|)
  }

  ghost function KindsIn<D, N, K>(look: Look<D, N, K>, d: D): seq<K> {
    Map(look.kind, look.parts(d), |look.parts(d)|)
  }

  /** The first `n` items but the one at `skip` pass. */
  ghost predicate AllPass<D, N, K>(look: Look<D, N, K>, items: seq<D>, skip: nat, n: nat)
    requires n <= |items|
  {
    n == 0 || (AllPass(look, items, skip, n - 1) && (n - 1 == skip || Passes(look, items[n - 1])))
  }

  ghost function AllNames<D, N, K>(look: Look<D, N, K>, items: seq<D>, skip: nat, n: nat): set<N>
    requires n <= |items|
  {
    if n == 0 then {}
    else if n - 1 == skip then AllNames(look, items, skip, n - 1)
    else AllNames(look, items, skip, n - 1) + NamesIn(look, items[n - 1])
  }

  ghost function AllKinds<D, N, K>(look: Look<D, N, K>, items: seq<D>, skip: nat, n: nat): seq<K>
    requires n <= |items|
  {
    if n == 0 then []
    else if n - 1 == skip then AllKinds(look, items, skip, n - 1)
    else AllKinds(look, items, skip, n - 1) + KindsIn(look, items[n - 1])
  }

  lemma {:induction false} AllPassMeans<D, N, K>(look: Look<D, N, K>, items: seq<D>, skip: nat, n: nat)
    requires n <= |items|
    ensures AllPass(look, items, skip, n) <==> forall i :: 0 <= i < n && i != skip ==> Passes(look, items[i])
  {
    if n > 0 { AllPassMeans(look, items, skip, n - 1); }
  }

  lemma {:induction false} AllNamesMean<D, N, K>(look: Look<D, N, K>, items: seq<D>, skip: nat, n: nat, x: N)
    requires n <= |items|
    ensures x in AllNames(look, items, skip, n) <==> exists i :: 0 <= i < n && i != skip && x in NamesIn(look, items[i])
  {
    if n > 0 { AllNamesMean(look, items, skip, n - 1, x); }
  }

  lemma {:induction false} AllKindsGrow<D, N, K>(look: Look<D, N, K>, items: seq<D>, skip: nat, i: nat, n: nat)
    requires i <= n <= |items|
    ensures AllKinds(look, items, skip, i) <= AllKinds(look, items, skip, n)
  {
    if i < n { AllKindsGrow(look, items, skip, i, n - 1); }
  }

  /** An item that fails, or repeats a kind, fails them all. */
  lemma GatherFails<D, N, K>(look: Look<D, N, K>, items: seq<D>, skip: nat, i: nat)
    requires i < |items| && i != skip
    requires !(Passes(look, items[i]) && NoRepeats(AllKinds(look, items, skip, i) + KindsIn(look, items[i])))
    ensures !(AllPass(look, items, skip, |items|) && NoRepeats(AllKinds(look, items, skip, |items|)))
  {
    AllPassMeans(look, items, skip, |items|);
    if Passes(look, items[i]) {
      AllKindsGrow(look, items, skip, i + 1, |items|);
      RepeatGrows(AllKinds(look, items, skip, i + 1), AllKinds(look, items, skip, |items|));
    }
  }

  /** Look at every item but one, and at its parts. */
  method GatherAll<D, N, K(==, !new)>(look: Look<D, N, K>, items: seq<D>, skip: nat, before: set<N>)
    returns (ok: bool, referenced: set<N>, seen: set<K>)
    ensures ok == (AllPass(look, items, skip, |items|) && NoRepeats(AllKinds(look, items, skip, |items|)))
    ensures ok ==> SameElements(seen, AllKinds(look, items, skip, |items|))
    ensures ok ==> referenced == before + AllNames(look, items, skip, |items|)
  {
    referenced, seen := before, {};
    for i := 0 to |items|
      invariant AllPass(look, items, skip, i) && referenced == before + AllNames(look, items, skip, i)
      invariant NoRepeats(AllKinds(look, items, skip, i)) && SameElements(seen, AllKinds(look, items, skip, i))
    {
      if i != skip {
        ok := look.head(items[i]);
        if ok {
          ok, referenced, seen := Gather(
            look.parts(items[i]), look.good, look.name, look.kind,
            referenced + look.heads(items[i]), seen, AllKinds(look, items, skip, i));
        }
        if !ok {
          GatherFails(look, items, skip, i);
          return;
        }
      }
    }
    ok := true;
  }
}
