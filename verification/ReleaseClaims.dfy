/** Generated release-claim blocks in documents (scripts/generate-release-claims.py). */
module ReleaseClaims {
  import opened Text

  const CLAIMS := " TRITIUM GENERATED RELEASE CLAIMS -->"
  const BEGIN := "<!-- BEGIN" + CLAIMS
  const END := "<!-- END" + CLAIMS

  /** A rewrite ends in one of three ways: the new text, the tool's own error for a
      wrong marker count, or a failed unpacking when the markers are the wrong way round. */
  datatype Rewrite = Text(text: string) | MarkerError | UnpackError

  function ReplaceBetween(text: string, block: string, first: string, last: string): Rewrite
    requires first != "" && last != ""
  {
    if Count(text, first) != 1 || Count(text, last) != 1 then MarkerError
    else match SplitOnce(text, first)
      case None => UnpackError
      case Some((prefix, remainder)) =>
        match SplitOnce(remainder, last)
        case None => UnpackError
        case Some((_, suffix)) => Text(prefix + block + suffix)
  }

  function ReplaceBlock(text: string, replacement: string): Rewrite {
    ReplaceBetween(text, replacement, BEGIN, END)
  }

  /** Markers start with a '<' that does not come back in them. */
  predicate Marker(p: string) {
    |p| > 5 && p[0] == '<' && forall k :: 0 < k < |p| ==> p[k] != '<'
  }

  /** A block: `first` at its start, `last` at its end, and no other marker in it. */
  ghost predicate Delimited(block: string, first: string, last: string) {
    && |first| + |last| <= |block|
    && OnlyAt(block, first, 0)
    && OnlyAt(block, last, |block| - |last|)
  }

  ghost predicate Rendered(block: string) {
    Delimited(block, BEGIN, END)
  }

  lemma MarkersOfClaims()
    ensures Marker(BEGIN) && Marker(END) && BEGIN[5] != END[5]
  {
  }

  lemma MarkerAt(s: string, p: string, i: int)
    requires Marker(p) && At(s, p, i)
    ensures s[i] == '<' && s[i + 5] == p[5]
    ensures forall k :: i < k < i + |p| ==> s[k] != '<'
  {
    assert s[i..i + |p|][0] == s[i] && s[i..i + |p|][5] == s[i + 5];
    forall k | i < k < i + |p| ensures s[k] != '<' { assert s[k] == s[i..i + |p|][k - i]; }
  }

  lemma PlainBlockDelimited(body: string, first: string, last: string)
    requires Marker(first) && Marker(last) && first[5] != last[5]
    requires '<' !in body
    ensures Delimited(first + body + last, first, last)
  {
    var block := first + body + last;
    var e := |first + body|;
    assert block[..|first|] == first && block[e..] == last;
    assert forall i :: |first| <= i < e ==> block[i] == body[i - |first|];
    assert forall i :: 0 <= i < |block| && block[i] == '<' ==> i == 0 || i == e;
    forall i | At(block, first, i) ensures i == 0 { MarkerAt(block, first, i); }
    forall i | At(block, last, i) ensures i == e { MarkerAt(block, last, i); }
  }

  /** The blocks that the tool renders: the lines between the markers hold no '<'. */
  lemma PlainBlockRendered(body: string)
    requires '<' !in body
    ensures Rendered(BEGIN + body + END)
  {
    MarkersOfClaims();
    PlainBlockDelimited(body, BEGIN, END);
  }

  lemma AtPart(a: string, b: string, c: string, p: string, i: int)
    requires At(a + b + c, p, i)
    ensures i + |p| <= |a| ==> At(a, p, i)
    ensures |a + b| <= i ==> At(c, p, i - |a + b|)
    ensures |a| <= i && i + |p| <= |a + b| ==> At(b, p, i - |a|)
  {
    var s := a + b + c;
    if i + |p| <= |a| { assert a[i..i + |p|] == s[i..i + |p|]; }
    if |a + b| <= i { assert c[i - |a + b|..i - |a + b| + |p|] == s[i..i + |p|]; }
    if |a| <= i && i + |p| <= |a + b| { assert b[i - |a|..i - |a| + |p|] == s[i..i + |p|]; }
  }

  /** No marker lies across a seam of `a + block + c`: all that is left is the block's own. */
  lemma SeamsHoldNoMarker(a: string, block: string, c: string, first: string, last: string,
                          p: string, k: int)
    requires Marker(first) && Marker(last) && first[5] != last[5]
    requires p == first || p == last
    requires Delimited(block, first, last) && OnlyAt(block, p, k)
    requires !Contains(a, p) && !Contains(c, p)
    ensures OnlyAt(a + block + c, p, |a| + k)
  {
    var s := a + block + c;
    var e := |a + block| - |last|;
    assert s[|a| + k..|a| + k + |p|] == block[k..k + |p|];
    assert s[|a|..|a| + |first|] == block[0..|first|] == first;
    assert s[e..e + |last|] == block[|block| - |last|..] == last;
    MarkerAt(s, first, |a|);
    MarkerAt(s, last, e);
    forall i | At(s, p, i) ensures i == |a| + k {
      MarkerAt(s, p, i);
      AtPart(a, block, c, p, i);
    }
  }

  /** Where the two markers of a document with one of each are. */
  lemma Located(text: string, first: string, last: string) returns (b: int, e: int)
    requires Marker(first) && Marker(last) && first[5] != last[5]
    requires Count(text, first) == 1 && Count(text, last) == 1
    ensures OnlyAt(text, first, b) && OnlyAt(text, last, e)
    ensures b + |first| <= e || e + |last| <= b
  {
    FirstCharOnceIsUnbordered(first);
    FirstCharOnceIsUnbordered(last);
    b := CountOneIsOnlyAt(text, first);
    e := CountOneIsOnlyAt(text, last);
    MarkerAt(text, first, b);
    MarkerAt(text, last, e);
  }

  lemma TakeHasNone(text: string, p: string, k: nat, e: int)
    requires OnlyAt(text, p, e) && k <= |text| && k < e + |p|
    ensures !Contains(text[..k], p)
  {
    forall i | At(text[..k], p, i) ensures false {
      assert text[i..i + |p|] == text[..k][i..i + |p|];
      assert At(text, p, i);
    }
  }

  lemma {:induction false} NoSplit(s: string, p: string)
    requires p != "" && !Contains(s, p)
    ensures SplitOnce(s, p) == None
    decreases |s|
  {
    if |s| >= |p| {
      assert !At(s, p, 0);
      assert s[0..|p|] == s[..|p|];
      ContainsTail(s, p);
      NoSplit(s[1..], p);
    }
  }

  lemma ReplaceBetweenAt(text: string, block: string, first: string, last: string, b: int, e: int)
    requires Marker(first) && Marker(last)
    requires OnlyAt(text, first, b) && OnlyAt(text, last, e)
    requires b + |first| <= e || e + |last| <= b
    ensures ReplaceBetween(text, block, first, last) ==
      if b < e then Text(text[..b] + block + text[e + |last|..]) else UnpackError
  {
    OnlyAtCount(text, first, b);
    OnlyAtCount(text, last, e);
    OnlyAtSplit(text, first, b);
    var k := b + |first|;
    DropOnlyAt(text, last, k, e);
    if b < e {
      OnlyAtSplit(text[k..], last, e - k);
      assert text[k..][e - k + |last|..] == text[e + |last|..];
    } else {
      NoSplit(text[k..], last);
    }
  }

  lemma SplicedMarkers(text: string, block: string, first: string, last: string, b: int, e: int)
    requires Marker(first) && Marker(last) && first[5] != last[5]
    requires OnlyAt(text, first, b) && OnlyAt(text, last, e) && b < e
    requires Delimited(block, first, last)
    ensures var out := text[..b] + block + text[e + |last|..];
      OnlyAt(out, first, b) && OnlyAt(out, last, b + |block| - |last|)
  {
    TakeHasNone(text, first, b, b);
    TakeHasNone(text, last, b, e);
    DropOnlyAt(text, first, e + |last|, b);
    DropOnlyAt(text, last, e + |last|, e);
    SeamsHoldNoMarker(text[..b], block, text[e + |last|..], first, last, first, 0);
    SeamsHoldNoMarker(text[..b], block, text[e + |last|..], first, last, last, |block| - |last|);
  }

  /** The rewritten text has one block again, and rewriting it later gives what rewriting
      the first text would have given. */
  lemma RewriteBetween(text: string, block: string, later: string, first: string, last: string)
    requires Marker(first) && Marker(last) && first[5] != last[5]
    requires Delimited(block, first, last) && ReplaceBetween(text, block, first, last).Text?
    ensures var out := ReplaceBetween(text, block, first, last).text;
      && Count(out, first) == 1 && Count(out, last) == 1
      && ReplaceBetween(out, later, first, last) == ReplaceBetween(text, later, first, last)
  {
    var b, e := Located(text, first, last);
    ReplaceBetweenAt(text, block, first, last, b, e);
    ReplaceBetweenAt(text, later, first, last, b, e);
    SplicedMarkers(text, block, first, last, b, e);
    var out, e' := text[..b] + block + text[e + |last|..], b + |block| - |last|;
    OnlyAtCount(out, first, b);
    OnlyAtCount(out, last, e');
    ReplaceBetweenAt(out, later, first, last, b, e');
    assert out[..b] == text[..b] && out[e' + |last|..] == text[e + |last|..];
  }

  /** When the rewrite succeeds: exactly when there is one marker of each kind and BEGIN
      comes first; the text before BEGIN and the text after END are then kept.  With END first
      the unpacking fails. */
  lemma ReplaceBlockOutcome(text: string, block: string)
    ensures ReplaceBlock(text, block).MarkerError? <==> Count(text, BEGIN) != 1 || Count(text, END) != 1
    ensures ReplaceBlock(text, block).Text? <==>
      exists b, e :: OnlyAt(text, BEGIN, b) && OnlyAt(text, END, e) && b < e
    ensures ReplaceBlock(text, block).UnpackError? <==>
      exists b, e :: OnlyAt(text, BEGIN, b) && OnlyAt(text, END, e) && e < b
    ensures forall b, e :: OnlyAt(text, BEGIN, b) && OnlyAt(text, END, e) && b < e ==>
      ReplaceBlock(text, block) == Text(text[..b] + block + text[e + |END|..])
  {
    MarkersOfClaims();
    if Count(text, BEGIN) == 1 && Count(text, END) == 1 {
      var b, e := Located(text, BEGIN, END);
      ReplaceBetweenAt(text, block, BEGIN, END, b, e);
    } else {
      forall b, e | OnlyAt(text, BEGIN, b) && OnlyAt(text, END, e) ensures false {
        OnlyAtCount(text, BEGIN, b);
        OnlyAtCount(text, END, e);
      }
    }
  }

  lemma ReversedBetween(block: string, first: string, last: string)
    requires Marker(first) && Marker(last) && first[5] != last[5]
    ensures ReplaceBetween(last + first, block, first, last) == UnpackError
  {
    PlainBlockDelimited("", last, first);
    assert last + "" + first == last + first;
    ReplaceBetweenAt(last + first, block, first, last, |last|, 0);
  }

  /** The two markers, the wrong way round and nothing else. */
  lemma ReversedMarkersExample(block: string)
    ensures ReplaceBlock(END + BEGIN, block) == UnpackError
  {
    MarkersOfClaims();
    ReversedBetween(block, BEGIN, END);
  }

  /** A rewritten document has one block again, and a later rewrite of it gives what the
      same rewrite of the first document gives; in particular rewriting is idempotent. */
  lemma RewriteIsStable(text: string, block: string, later: string)
    requires Rendered(block) && ReplaceBlock(text, block).Text?
    ensures var out := ReplaceBlock(text, block).text;
      && Count(out, BEGIN) == 1 && Count(out, END) == 1
      && ReplaceBlock(out, later) == ReplaceBlock(text, later)
      && ReplaceBlock(out, block) == Text(out)
  {
    MarkersOfClaims();
    RewriteBetween(text, block, later, BEGIN, END);
    RewriteBetween(text, block, block, BEGIN, END);
  }

  // The claim documents of one repository.  `rendered` holds the block of each of them.  The
  // compatibility page is a further file, whose whole text is projected from the matrix.

  type Files = map<string, string>

  predicate Rewritable(files: Files, rendered: Files, d: string) {
    d in rendered && d in files && ReplaceBlock(files[d], rendered[d]).Text?
  }

  function Rewritten(files: Files, rendered: Files, d: string): string
    requires Rewritable(files, rendered, d)
  {
    ReplaceBlock(files[d], rendered[d]).text
  }

  ghost predicate AllRewritable(documents: seq<string>, files: Files, rendered: Files) {
    forall i :: 0 <= i < |documents| ==> Rewritable(files, rendered, documents[i])
  }

  ghost predicate UpToDate(documents: seq<string>, files: Files, rendered: Files, page: string, text: string) {
    && AllRewritable(documents, files, rendered)
    && (forall i :: 0 <= i < |documents| ==>
          Rewritten(files, rendered, documents[i]) == files[documents[i]])
    && page in files && files[page] == text
  }

  /** All new texts are computed before any is written; one bad document yields none. */
  method GeneratedDocuments(documents: seq<string>, files: Files, rendered: Files) returns (result: Option<Files>)
    requires forall i :: 0 <= i < |documents| ==> documents[i] in rendered
    ensures result.Some? <==> AllRewritable(documents, files, rendered)
    ensures result.Some? ==> forall d :: d in result.value <==> d in documents
    ensures result.Some? ==> forall d :: d in result.value ==>
      Rewritable(files, rendered, d) && result.value[d] == Rewritten(files, rendered, d)
  {
    var out: Files := map[];
    for i := 0 to |documents|
      invariant forall d :: d in out <==> d in documents[..i]
      invariant AllRewritable(documents[..i], files, rendered)
      invariant forall d :: d in out ==>
        Rewritable(files, rendered, d) && out[d] == Rewritten(files, rendered, d)
    {
      var d := documents[i];
      if d !in files || !ReplaceBlock(files[d], rendered[d]).Text? {
        assert !Rewritable(files, rendered, documents[i]);
        return None;
      }
      out := out[d := ReplaceBlock(files[d], rendered[d]).text];
    }
    result := Some(out);
  }

  method SameOn(documents: seq<string>, files: Files, generated: Files) returns (same: bool)
    requires forall i :: 0 <= i < |documents| ==> documents[i] in files && documents[i] in generated
    ensures same <==> forall i :: 0 <= i < |documents| ==> generated[documents[i]] == files[documents[i]]
  {
    for i := 0 to |documents|
      invariant forall k :: 0 <= k < i ==> generated[documents[k]] == files[documents[k]]
    {
      if files[documents[i]] != generated[documents[i]] { return false; }
    }
    same := true;
  }

  method Check(documents: seq<string>, files: Files, rendered: Files, page: string, text: string)
    returns (passed: bool)
    requires forall i :: 0 <= i < |documents| ==> documents[i] in rendered
    ensures passed <==> UpToDate(documents, files, rendered, page, text)
  {
    var generated := GeneratedDocuments(documents, files, rendered);
    if generated.None? { return false; }
    var same := SameOn(documents, files, generated.value);
    passed := same && page in files && files[page] == text;
  }

  lemma WrittenUpToDate(documents: seq<string>, files: Files, out: Files, rendered: Files, page: string, text: string)
    requires AllRewritable(documents, files, rendered)
    requires forall i :: 0 <= i < |documents| ==> Rendered(rendered[documents[i]])
    requires page in out && out[page] == text
    requires forall i :: 0 <= i < |documents| ==>
      documents[i] in out && out[documents[i]] == Rewritten(files, rendered, documents[i])
    ensures UpToDate(documents, out, rendered, page, text)
  {
    forall i | 0 <= i < |documents|
      ensures Rewritable(out, rendered, documents[i])
      ensures Rewritten(out, rendered, documents[i]) == out[documents[i]]
    {
      RewriteIsStable(files[documents[i]], rendered[documents[i]], rendered[documents[i]]);
    }
  }

  method WriteAll(documents: seq<string>, files: Files, generated: Files) returns (out: Files)
    requires forall d :: d in documents ==> d in generated && d in files
    ensures out.Keys == files.Keys
    ensures forall f :: f in files ==> out[f] == if f in documents then generated[f] else files[f]
  {
    out := files;
    for i := 0 to |documents|
      invariant out.Keys == files.Keys
      invariant forall f :: f in files ==>
        out[f] == if f in documents[..i] then generated[f] else files[f]
    {
      out := out[documents[i] := generated[documents[i]]];
    }
  }

  /** After a successful write the check passes, and no other file has changed. */
  method Write(documents: seq<string>, files: Files, rendered: Files, page: string, text: string)
    returns (result: Option<Files>)
    requires page !in documents
    requires forall i :: 0 <= i < |documents| ==>
      documents[i] in rendered && Rendered(rendered[documents[i]])
    ensures result.Some? <==> AllRewritable(documents, files, rendered)
    ensures result.Some? ==> UpToDate(documents, result.value, rendered, page, text)
    ensures result.Some? ==> result.value.Keys == files.Keys + {page}
    ensures result.Some? ==> forall f :: f in files && f !in documents && f != page ==>
      result.value[f] == files[f]
  {
    var generated := GeneratedDocuments(documents, files, rendered);
    if generated.None? { return None; }
    var out := WriteAll(documents, files, generated.value);
    out := out[page := text];
    WrittenUpToDate(documents, files, out, rendered, page, text);
    result := Some(out);
  }
}
