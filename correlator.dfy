/**
 * The image-phase correlator of the extract route (src/app/api/extract/node/route.ts). The
 * images are collected page by page; each page's text is cut into tokens and scanned for the
 * `分相` (phase) markers, each marker yielding one tag; the tags are given to the page's images
 * by position, and the images are grouped by the type code they received.
 */
module Correlator {
  import opened Wrappers
  import opened Text
  import Seqs
  import opened Grouping
  import Tokenizer

  // ---------------------------------------------------------------------------------------
  // Tokens and markers

  /** `pageText.split(/\s+/).map((t) => t.trim()).filter(Boolean)` */
  function PageTokens(pageText: string): seq<string>
  {
    Seqs.NonEmpty(Seqs.Map(Trim, SplitOn(Collapse(pageText), ' ')))
  }

  /** The tokens of a page are non-empty and hold no white space. */
  lemma PageTokensAreTokens(pageText: string)
    ensures Tokenizer.AreTokens(PageTokens(pageText))
  {
    var collapsed := Collapse(pageText);
    Tokenizer.CollapseOnlySpaces(pageText);
    Tokenizer.SplitOnChars(collapsed, ' ');
    var pieces := SplitOn(collapsed, ' ');
    var trimmed := Seqs.Map(Trim, pieces);
    forall k | 0 <= k < |PageTokens(pageText)|
      ensures NoSpace(PageTokens(pageText)[k])
    {
      var w := PageTokens(pageText)[k];
      var m :| 0 <= m < |trimmed| && trimmed[m] == w;
      var p := pieces[m];
      assert NoSpace(p) by {
        forall i | 0 <= i < |p|
          ensures !IsSpace(p[i])
        {
          assert p[i] in collapsed;
          assert p[i] != ' ';
        }
      }
      TrimOfNoSpace(p);
    }
  }

  /** The two characters `分相`. */
  const Marker: string := "\U{5206}\U{76F8}"

  /** `/^分相\s*[:：]?\s*(\d{1,2})?$/`: the marker, then white space, an optional ASCII or
      full-width colon, white space, and at most two digits. */
  predicate IsMarker(tok: string)
  {
    |tok| >= 2 && tok[..2] == Marker && MarkerTail(tok[2..])
  }

  predicate MarkerTail(r: string)
  {
    var a := TrimStart(r);
    var b := if |a| > 0 && (a[0] == ':' || a[0] == '\U{FF1A}') then a[1..] else a;
    var d := TrimStart(b);
    |d| <= 2 && AllDigits(d)
  }

  /** The optional colon of the marker pattern: none, an ASCII colon or a full-width one. */
  predicate IsColonPart(c: string)
  {
    c == "" || c == ":" || c == "\U{FF1A}"
  }

  /** What follows the marker: white space, an optional colon, white space, at most two digits. */
  predicate IsTailShape(ws1: string, colon: string, ws2: string, digits: string)
  {
    AllSpace(ws1) && IsColonPart(colon) && AllSpace(ws2) && |digits| <= 2 && AllDigits(digits)
  }

  lemma TailShape(ws1: string, colon: string, ws2: string, digits: string)
    requires IsTailShape(ws1, colon, ws2, digits)
    ensures MarkerTail(ws1 + (colon + (ws2 + digits)))
  {
    TrimStartSpaces(ws1, colon + (ws2 + digits));
    TrimStartSpaces(ws2, digits);
    assert digits == [] || !IsSpace(digits[0]) by {
      if digits != [] {
        assert IsDigit(digits[0]);
      }
    }
    if colon == "" {
      assert colon + (ws2 + digits) == ws2 + digits;
    } else {
      assert (colon + (ws2 + digits))[0] == colon[0] && (colon + (ws2 + digits))[1..] == ws2 + digits;
    }
  }

  lemma TailParts(r: string) returns (ws1: string, colon: string, ws2: string, digits: string)
    requires MarkerTail(r)
    ensures r == ws1 + (colon + (ws2 + digits)) && IsTailShape(ws1, colon, ws2, digits)
  {
    var a := TrimStart(r);
    ws1 := TrimStartSplit(r);
    var b;
    if |a| > 0 && (a[0] == ':' || a[0] == '\U{FF1A}') {
      colon, b := a[..1], a[1..];
    } else {
      colon, b := "", a;
    }
    assert a == colon + b;
    digits := TrimStart(b);
    ws2 := TrimStartSplit(b);
  }

  /** Every string of the pattern's shape is a marker. */
  lemma MarkerShape(ws1: string, colon: string, ws2: string, digits: string)
    requires IsTailShape(ws1, colon, ws2, digits)
    ensures IsMarker(Marker + ws1 + colon + ws2 + digits)
  {
    var tail := ws1 + (colon + (ws2 + digits));
    TailShape(ws1, colon, ws2, digits);
    assert Marker + ws1 + colon + ws2 + digits == Marker + tail;
    var tok := Marker + tail;
    assert tok[..2] == Marker && tok[2..] == tail;
  }

  /** Every marker has the pattern's shape: the marker, white space, an optional colon, white
      space and at most two digits. */
  lemma MarkerParts(tok: string) returns (ws1: string, colon: string, ws2: string, digits: string)
    requires IsMarker(tok)
    ensures tok == Marker + ws1 + colon + ws2 + digits && IsTailShape(ws1, colon, ws2, digits)
  {
    ws1, colon, ws2, digits := TailParts(tok[2..]);
    assert tok == tok[..2] + tok[2..];
    assert Marker + ws1 + colon + ws2 + digits == Marker + (ws1 + (colon + (ws2 + digits)));
  }

  /** The forms the page text uses are markers. */
  lemma MarkerFormsAccepted()
    ensures IsMarker("\U{5206}\U{76F8}") && IsMarker("\U{5206}\U{76F8}\U{FF1A}01") && IsMarker("\U{5206}\U{76F8}:7")
  {
    var v := "\U{5206}\U{76F8}\U{FF1A}01";
    assert v[2..] == "\U{FF1A}01" && TrimStart("\U{FF1A}01") == "\U{FF1A}01" && TrimStart("01") == "01";
  }

  /** A longer number, a letter or half the marker is not a marker. */
  lemma MarkerFormsRejected()
    ensures !IsMarker("\U{5206}\U{76F8}123") && !IsMarker("\U{5206}\U{76F8}:x") && !IsMarker("\U{5206}")
  {
    var t := "\U{5206}\U{76F8}123";
    assert t[2..] == "123";
    var u := "\U{5206}\U{76F8}:x";
    assert u[2..] == ":x" && TrimStart(":x") == ":x" && TrimStart("x") == "x";
  }

  // ---------------------------------------------------------------------------------------
  // The marker scan

  /** An entry of `seq`: `{ typeCode: undefined, phaseIndex: undefined }` or a type code with
      the running number of its marker. */
  datatype Tag = Untagged | Tagged(code: string, n: int)

  /** `currentType`, `typeSeenThisBlock` and `seq` while the tokens are scanned. */
  datatype ScanState = ScanState(current: Option<string>, seen: map<string, int>, tags: seq<Tag>)

  /** Marker `ti` is directly preceded by a type code. */
  predicate TypedMarker(tokens: seq<string>, ti: nat)
    requires ti < |tokens|
  {
    IsMarker(tokens[ti]) && ti > 0 && IsTypeCodeAnyCase(tokens[ti - 1])
  }

  /** The scan after token `ti`. */
  function Step(tokens: seq<string>, ti: nat, st: ScanState): ScanState
    requires ti < |tokens|
  {
    if !IsMarker(tokens[ti]) then st
    else Mark(if TypedMarker(tokens, ti) then TakeType(st, ToUpper(tokens[ti - 1])) else st)
  }

  /** `currentType = prev.toUpperCase(); typeSeenThisBlock[currentType] = 0` */
  function TakeType(st: ScanState, c: string): ScanState
  {
    st.(current := Some(c), seen := st.seen[c := 0])
  }

  /** The tag of a marker: untagged without a current type, otherwise the type with its
      counter advanced. */
  function Mark(st: ScanState): ScanState
  {
    match st.current
    case None => st.(tags := st.tags + [Untagged])
    case Some(c) =>
      var k := (if c in st.seen then st.seen[c] else 0) + 1;
      st.(seen := st.seen[c := k], tags := st.tags + [Tagged(c, k)])
  }

  /** The scan after the first `n` tokens, starting with no type and no counters. */
  function ScanUpTo(tokens: seq<string>, n: nat): ScanState
    requires n <= |tokens|
  {
    if n == 0 then ScanState(None, map[], []) else Step(tokens, n - 1, ScanUpTo(tokens, n - 1))
  }

  /** The tags of one page. */
  function PageTags(pageText: string): seq<Tag>
  {
    var tokens := PageTokens(pageText);
    ScanUpTo(tokens, |tokens|).tags
  }

  /** The token loop of one page. */
  method ScanMarkers(tokens: seq<string>) returns (tags: seq<Tag>)
    ensures tags == ScanUpTo(tokens, |tokens|).tags
  {
    var currentType: Option<string> := None;
    var typeSeenThisBlock: map<string, int> := map[];
    tags := [];
    for ti := 0 to |tokens|
      invariant ScanState(currentType, typeSeenThisBlock, tags) == ScanUpTo(tokens, ti)
    {
      var tok := tokens[ti];
      if IsMarker(tok) {
        if ti > 0 {
          var prev := tokens[ti - 1];
          if IsTypeCodeAnyCase(prev) {
            var c := ToUpper(prev);
            currentType := Some(c);
            typeSeenThisBlock := typeSeenThisBlock[c := 0];
          }
        }
        match currentType {
          case None =>
            tags := tags + [Untagged];
          case Some(c) =>
            var k := (if c in typeSeenThisBlock then typeSeenThisBlock[c] else 0) + 1;
            typeSeenThisBlock := typeSeenThisBlock[c := k];
            tags := tags + [Tagged(c, k)];
        }
      }
    }
  }

  /** Every marker token pushes one tag and no other token pushes one. */
  lemma {:induction false} TagPerMarker(tokens: seq<string>, n: nat)
    requires n <= |tokens|
    ensures |ScanUpTo(tokens, n).tags| == |Seqs.Filter(IsMarker, tokens[..n])|
  {
    if n > 0 {
      TagPerMarker(tokens, n - 1);
      assert tokens[..n] == tokens[..n - 1] + [tokens[n - 1]];
      Seqs.FilterSnoc(IsMarker, tokens[..n - 1], tokens[n - 1]);
    }
  }

  /** What the scan keeps true: without a current type every tag is untagged; with one, the
      last tag is that type with its counter; every tag names an upper-case type code and a
      number from one on. */
  predicate Coherent(st: ScanState)
  {
    (st.current.None? ==> forall k :: 0 <= k < |st.tags| ==> st.tags[k] == Untagged) &&
    (st.current.Some? ==> var c := st.current.value;
      c in st.seen && st.tags != [] && st.tags[|st.tags| - 1] == Tagged(c, st.seen[c])) &&
    (forall k :: 0 <= k < |st.tags| && st.tags[k].Tagged? ==> st.tags[k].n >= 1 && IsTypeCode(st.tags[k].code))
  }

  lemma {:induction false} ScanCoherent(tokens: seq<string>, n: nat)
    requires n <= |tokens|
    ensures Coherent(ScanUpTo(tokens, n))
  {
    if n > 0 {
      ScanCoherent(tokens, n - 1);
      StepCoherent(tokens, n - 1, ScanUpTo(tokens, n - 1));
    }
  }

  /** One token keeps the scan coherent. */
  lemma StepCoherent(tokens: seq<string>, ti: nat, st: ScanState)
    requires ti < |tokens| && Coherent(st)
    ensures Coherent(Step(tokens, ti, st))
  {
    if IsMarker(tokens[ti]) {
      assert ReadyToMark(st);
      if TypedMarker(tokens, ti) {
        TypeCodeUpper(tokens[ti - 1]);
        TakeTypeReady(st, ToUpper(tokens[ti - 1]));
      }
      MarkCoherent(if TypedMarker(tokens, ti) then TakeType(st, ToUpper(tokens[ti - 1])) else st);
    }
  }

  /** What a marker needs of the scan for its tag to keep the scan coherent. */
  predicate ReadyToMark(st: ScanState)
  {
    (st.current.None? ==> forall k :: 0 <= k < |st.tags| ==> st.tags[k] == Untagged) &&
    (st.current.Some? ==> var c := st.current.value; IsTypeCode(c) && c in st.seen && st.seen[c] >= 0) &&
    (forall k :: 0 <= k < |st.tags| && st.tags[k].Tagged? ==> st.tags[k].n >= 1 && IsTypeCode(st.tags[k].code))
  }

  lemma TakeTypeReady(st: ScanState, c: string)
    requires ReadyToMark(st) && IsTypeCode(c)
    ensures ReadyToMark(TakeType(st, c))
  {
  }

  lemma MarkCoherent(st: ScanState)
    requires ReadyToMark(st)
    ensures Coherent(Mark(st))
  {
    var st' := Mark(st);
    assert st'.tags[..|st'.tags| - 1] == st.tags;
    forall k | 0 <= k < |st'.tags| - 1
      ensures st'.tags[k] == st.tags[k]
    {
    }
  }

  /** A marker after a type code takes that code up, upper-cased, and restarts its count. */
  lemma TypedMarkerRestarts(tokens: seq<string>, ti: nat)
    requires ti < |tokens| && TypedMarker(tokens, ti)
    ensures var c := ToUpper(tokens[ti - 1]);
      ScanUpTo(tokens, ti + 1).current == Some(c) &&
      ScanUpTo(tokens, ti + 1).tags == ScanUpTo(tokens, ti).tags + [Tagged(c, 1)]
  {
  }

  /** A marker under a current type without a type code before it continues that type's count. */
  lemma MarkerContinues(tokens: seq<string>, ti: nat)
    requires ti < |tokens| && IsMarker(tokens[ti]) && !TypedMarker(tokens, ti)
    requires ScanUpTo(tokens, ti).current.Some?
    ensures var before := ScanUpTo(tokens, ti).tags;
      before != [] && before[|before| - 1].Tagged? &&
      ScanUpTo(tokens, ti + 1).tags ==
        before + [Tagged(before[|before| - 1].code, before[|before| - 1].n + 1)]
  {
    ScanCoherent(tokens, ti);
  }

  /** Tokens that are not markers change nothing. */
  lemma OtherTokensIgnored(tokens: seq<string>, ti: nat)
    requires ti < |tokens| && !IsMarker(tokens[ti])
    ensures ScanUpTo(tokens, ti + 1) == ScanUpTo(tokens, ti)
  {
  }

  /** The scan has a current type exactly when some earlier marker followed a type code, and
      until then every marker is untagged. */
  lemma {:induction false} UntypedUntil(tokens: seq<string>, n: nat)
    requires n <= |tokens|
    ensures ScanUpTo(tokens, n).current.None? <==> forall ti :: 0 <= ti < n ==> !TypedMarker(tokens, ti)
    ensures ScanUpTo(tokens, n).current.None? ==>
      forall k :: 0 <= k < |ScanUpTo(tokens, n).tags| ==> ScanUpTo(tokens, n).tags[k] == Untagged
  {
    if n > 0 {
      UntypedUntil(tokens, n - 1);
      ScanCoherent(tokens, n);
    }
  }

  // ---------------------------------------------------------------------------------------
  // Images and their tags

  /** An entry of `imagesWithMeta`: page, position on the page (together the `key`), data URL,
      and the tag it received. */
  datatype Meta = Meta(page: int, index: int, dataUrl: string, typeCode: Option<string>, phaseIndex: Option<int>)

  /** The images of page `p + 1`, untagged. */
  function PageImages(p: nat, urls: seq<string>): (r: seq<Meta>)
    ensures |r| == |urls|
  {
    seq(|urls|, i requires 0 <= i < |urls| => Meta(p + 1, i, urls[i], None, None))
  }

  /** `imagesWithMeta` before assignment: the images of every page, in page order and, within a
      page, in extraction order. `pageUrls[p]` are the data URLs of page `p + 1`. */
  function Extracted(pageUrls: seq<seq<string>>): seq<Meta>
  {
    if pageUrls == [] then []
    else Extracted(pageUrls[..|pageUrls| - 1]) + PageImages(|pageUrls| - 1, pageUrls[|pageUrls| - 1])
  }

  /** The collection loop: every image of every page, pushed in order. */
  method CollectImages(pageUrls: seq<seq<string>>) returns (images: seq<Meta>)
    ensures images == Extracted(pageUrls)
  {
    images := [];
    for p := 0 to |pageUrls|
      invariant images == Extracted(pageUrls[..p])
    {
      ghost var before := images;
      var urls := pageUrls[p];
      for i := 0 to |urls|
        invariant images == before + PageImages(p, urls[..i])
      {
        assert PageImages(p, urls[..i + 1]) == PageImages(p, urls[..i]) + [Meta(p + 1, i, urls[i], None, None)];
        images := images + [Meta(p + 1, i, urls[i], None, None)];
      }
      assert urls[..|urls|] == urls;
      assert pageUrls[..p + 1][..p] == pageUrls[..p];
    }
    assert pageUrls[..|pageUrls|] == pageUrls;
  }

  /** Image `i` of page `p + 1` sits after the images of the earlier pages. */
  lemma {:induction false} ExtractedAt(pageUrls: seq<seq<string>>, p: nat, i: nat)
    requires p < |pageUrls| && i < |pageUrls[p]|
    ensures |Extracted(pageUrls[..p])| + i < |Extracted(pageUrls)|
    ensures Extracted(pageUrls)[|Extracted(pageUrls[..p])| + i] == Meta(p + 1, i, pageUrls[p][i], None, None)
  {
    var init := pageUrls[..|pageUrls| - 1];
    if p == |pageUrls| - 1 {
      assert pageUrls[..p] == init;
    } else {
      assert init[..p] == pageUrls[..p] && init[p] == pageUrls[p];
      ExtractedAt(init, p, i);
    }
  }

  lemma ExtractedStep(pageUrls: seq<seq<string>>, p: nat)
    requires p < |pageUrls|
    ensures |Extracted(pageUrls[..p + 1])| == |Extracted(pageUrls[..p])| + |pageUrls[p]|
  {
    assert pageUrls[..p + 1][..p] == pageUrls[..p];
  }

  /** Every image belongs to one of the pages. */
  lemma {:induction false} ExtractedPage(pageUrls: seq<seq<string>>, j: nat)
    requires j < |Extracted(pageUrls)|
    ensures 1 <= Extracted(pageUrls)[j].page <= |pageUrls|
  {
    var init := pageUrls[..|pageUrls| - 1];
    if j < |Extracted(init)| {
      ExtractedPage(init, j);
    }
  }

  /** The images run in page order, and within a page in extraction order. */
  lemma {:induction false} ExtractedOrder(pageUrls: seq<seq<string>>, j: nat, j': nat)
    requires j < j' < |Extracted(pageUrls)|
    ensures var e := Extracted(pageUrls);
      e[j].page < e[j'].page || (e[j].page == e[j'].page && e[j].index < e[j'].index)
  {
    var init := pageUrls[..|pageUrls| - 1];
    var e, ei := Extracted(pageUrls), Extracted(init);
    if j' < |ei| {
      assert e[j] == ei[j] && e[j'] == ei[j'];
      ExtractedOrder(init, j, j');
    } else if j < |ei| {
      assert e[j] == ei[j];
      ExtractedPage(init, j);
    }
  }

  /** `text[pageNum - 1] || ""` */
  function PageText(texts: seq<string>, page: int): string
  {
    if 1 <= page <= |texts| then texts[page - 1] else ""
  }

  /** `globalImg.typeCode = assigned.typeCode; globalImg.phaseIndex = assigned.phaseIndex` */
  function Apply(m: Meta, t: Tag): Meta
  {
    match t
    case Untagged => m.(typeCode := None, phaseIndex := None)
    case Tagged(c, n) => m.(typeCode := Some(c), phaseIndex := Some(n))
  }

  /** An image after assignment, given the tags of every page: `seq[i]` for image `i` of its
      page if that page has that many tags, and nothing otherwise. */
  function Annotate(pageTags: seq<seq<Tag>>, m: Meta): Meta
  {
    if 1 <= m.page <= |pageTags| then Pick(m, pageTags[m.page - 1], m.index) else m
  }

  /** `if (assigned)`, with `assigned = seq[i]`: the image with the tag, if there is one. */
  function Pick(m: Meta, tags: seq<Tag>, i: int): Meta
  {
    if 0 <= i < |tags| then Apply(m, tags[i]) else m
  }

  /** The tags of pages `1..n`, each scanned from a fresh state. */
  function PagesTags(texts: seq<string>, n: nat): seq<seq<Tag>>
  {
    seq(n, p requires 0 <= p < n => PageTags(PageText(texts, p + 1)))
  }

  /** The images after assignment. */
  function Annotated(pageUrls: seq<seq<string>>, pageTags: seq<seq<Tag>>): (r: seq<Meta>)
    ensures |r| == |Extracted(pageUrls)|
  {
    Seqs.Map((m: Meta) => Annotate(pageTags, m), Extracted(pageUrls))
  }

  /** The assignment loop: for every page, scan its text and give its `i`-th image the `i`-th
      tag. The lookup of an image by its key is its position after the earlier pages' images. */
  method AssignTags(meta: array<Meta>, pageUrls: seq<seq<string>>, texts: seq<string>)
    requires meta[..] == Extracted(pageUrls)
    modifies meta
    ensures meta[..] == Annotated(pageUrls, PagesTags(texts, |pageUrls|))
  {
    ghost var e := meta[..];
    ghost var pt := PagesTags(texts, |pageUrls|);
    ghost var want := Annotated(pageUrls, pt);
    var offset := 0;
    for p := 0 to |pageUrls|
      invariant offset == |Extracted(pageUrls[..p])| <= meta.Length
      invariant AssignedUpTo(want, e, meta[..], offset)
    {
      var pageText := PageText(texts, p + 1);
      var tokens := PageTokens(pageText);
      var tags := ScanMarkers(tokens);
      assert tags == pt[p];
      var count := |pageUrls[p]|;
      ExtractedStep(pageUrls, p);
      PageWanted(pageUrls, pt, p, offset);
      AssignPage(meta, offset, count, tags, e, want);
      offset := offset + count;
    }
    assert pageUrls[..|pageUrls|] == pageUrls;
  }

  /** The images before `offset` are as `want` has them, the others as `e` has them. */
  predicate AssignedUpTo(want: seq<Meta>, e: seq<Meta>, cur: seq<Meta>, offset: nat)
  {
    |cur| == |e| == |want| && offset <= |e| &&
    (forall j :: 0 <= j < offset ==> cur[j] == want[j]) &&
    (forall j :: offset <= j < |e| ==> cur[j] == e[j])
  }

  /** The inner loop over one page's images, found at `offset` onwards: image `i` gets
      `tags[i]` if there is one. */
  method AssignPage(meta: array<Meta>, offset: nat, count: nat, tags: seq<Tag>, ghost e: seq<Meta>, ghost want: seq<Meta>)
    requires offset + count <= meta.Length
    requires AssignedUpTo(want, e, meta[..], offset)
    requires PageAnnotated(want, e, offset, count, tags)
    modifies meta
    ensures AssignedUpTo(want, e, meta[..], offset + count)
  {
    for i := 0 to count
      invariant AssignedUpTo(want, e, meta[..], offset + i)
    {
      assert meta[..][offset + i] == e[offset + i];
      assert want[offset + i] == Pick(e[offset + i], tags, i);
      if i < |tags| {
        meta[offset + i] := Apply(meta[offset + i], tags[i]);
      }
      assert meta[offset + i] == want[offset + i];
    }
  }

  /** Image `i` of the `count` images from `offset` on is its `e` entry with tag `i`. */
  predicate PageAnnotated(want: seq<Meta>, e: seq<Meta>, offset: nat, count: nat, tags: seq<Tag>)
  {
    offset + count <= |e| && offset + count <= |want| &&
    forall j :: offset <= j < offset + count ==> want[j] == Pick(e[j], tags, j - offset)
  }

  /** Image `i` of page `p + 1` is annotated with the `i`-th tag of that page. */
  lemma AnnotatedAt(pageUrls: seq<seq<string>>, pageTags: seq<seq<Tag>>, p: nat, i: nat)
    requires p < |pageUrls| && p < |pageTags| && i < |pageUrls[p]|
    ensures |Extracted(pageUrls[..p])| + i < |Extracted(pageUrls)|
    ensures Annotated(pageUrls, pageTags)[|Extracted(pageUrls[..p])| + i]
         == Pick(Extracted(pageUrls)[|Extracted(pageUrls[..p])| + i], pageTags[p], i)
  {
    ExtractedAt(pageUrls, p, i);
  }

  /** On page `p + 1`, image `i` is annotated with the `i`-th tag of that page. */
  lemma PageWanted(pageUrls: seq<seq<string>>, pageTags: seq<seq<Tag>>, p: nat, offset: nat)
    requires p < |pageUrls| && p < |pageTags|
    requires offset == |Extracted(pageUrls[..p])|
    ensures PageAnnotated(Annotated(pageUrls, pageTags), Extracted(pageUrls), offset, |pageUrls[p]|, pageTags[p])
  {
    var want, e, count := Annotated(pageUrls, pageTags), Extracted(pageUrls), |pageUrls[p]|;
    ExtractedStep(pageUrls, p);
    ExtractedPrefix(pageUrls, p + 1);
    assert offset + count <= |e| == |want|;
    forall j | offset <= j < offset + count
      ensures want[j] == Pick(e[j], pageTags[p], j - offset)
    {
      var i := j - offset;
      AnnotatedAt(pageUrls, pageTags, p, i);
      assert |Extracted(pageUrls[..p])| + i == j;
    }
  }

  /** The earlier pages' images are a prefix of all images. */
  lemma {:induction false} ExtractedPrefix(pageUrls: seq<seq<string>>, p: nat)
    requires p <= |pageUrls|
    ensures |Extracted(pageUrls[..p])| <= |Extracted(pageUrls)|
  {
    if p < |pageUrls| {
      var init := pageUrls[..|pageUrls| - 1];
      assert init[..p] == pageUrls[..p];
      ExtractedPrefix(init, p);
    } else {
      assert pageUrls[..p] == pageUrls;
    }
  }

  /** The images after assignment: tagged from their own page's text when `text` is an array,
      untouched otherwise. */
  function TagImages(pageUrls: seq<seq<string>>, text: Option<Tokenizer.ExtractedText>): seq<Meta>
  {
    var e := Extracted(pageUrls);
    match text
    case Some(PerPage(texts)) => Annotated(pageUrls, PagesTags(texts, |pageUrls|))
    case _ => e
  }

  // ---------------------------------------------------------------------------------------
  // Grouping by type code

  /** `g.typeCode || "unknown"` */
  function GroupKey(m: Meta): string
  {
    match m.typeCode
    case None => "unknown"
    case Some(c) => if c == "" then "unknown" else c
  }

  function TypePair(m: Meta): (string, string)
  {
    (GroupKey(m), m.dataUrl)
  }

  /** The `imagesByType` loop. */
  method GroupByType(metas: seq<Meta>) returns (imagesByType: Groups)
    ensures imagesByType == Bucket(Seqs.Map(TypePair, metas))
  {
    imagesByType := map[];
    ghost var ps := Seqs.Map(TypePair, metas);
    for i := 0 to |metas|
      invariant imagesByType == Bucket(ps[..i])
    {
      var g := metas[i];
      var key := GroupKey(g);
      imagesByType := Push(imagesByType, key, g.dataUrl);
      BucketStep(ps, i);
    }
    assert ps[..|ps|] == ps;
  }

  /** The route from the extracted images and text to `imagesByType`. */
  method ExtractRoute(pageUrls: seq<seq<string>>, text: Option<Tokenizer.ExtractedText>) returns (imagesByType: Groups)
    ensures imagesByType == Bucket(Seqs.Map(TypePair, TagImages(pageUrls, text)))
  {
    var images := CollectImages(pageUrls);
    var meta := new Meta[|images|](j requires 0 <= j < |images| => images[j]);
    assert meta[..] == images;
    match text {
      case Some(PerPage(texts)) =>
        AssignTags(meta, pageUrls, texts);
      case _ =>
    }
    imagesByType := GroupByType(meta[..]);
  }

  /** Every image is in exactly one list, the one of its type code or "unknown"; each list holds
      its images' data URLs in image order; and the lists hold as many data URLs as there are
      images. */
  lemma ImagesGrouped(metas: seq<Meta>, k: string)
    ensures var g := Bucket(Seqs.Map(TypePair, metas));
      (k in g <==> exists j :: 0 <= j < |metas| && GroupKey(metas[j]) == k) &&
      (k in g ==> g[k] == ValuesOf(Seqs.Map(TypePair, metas), k)) &&
      Total(g) == |metas|
  {
    var ps := Seqs.Map(TypePair, metas);
    BucketContents(ps, k);
    BucketTotal(ps);
    if HasKey(ps, k) {
      var j :| 0 <= j < |ps| && ps[j].0 == k;
      assert GroupKey(metas[j]) == k;
    }
    if exists j :: 0 <= j < |metas| && GroupKey(metas[j]) == k {
      var j :| 0 <= j < |metas| && GroupKey(metas[j]) == k;
      assert ps[j].0 == k;
    }
  }

  /** Image `i` of page `p + 1` gets the `i`-th tag of its own page's text, or stays untagged
      past the last tag; the text of other pages plays no part. */
  lemma PositionalTags(pageUrls: seq<seq<string>>, texts: seq<string>, p: nat, i: nat)
    requires p < |pageUrls| && i < |pageUrls[p]|
    ensures var j, imgs := |Extracted(pageUrls[..p])| + i, TagImages(pageUrls, Some(Tokenizer.PerPage(texts)));
      j < |imgs| &&
      var m, tags := imgs[j], PageTags(PageText(texts, p + 1));
      m.page == p + 1 && m.index == i && m.dataUrl == pageUrls[p][i] &&
      (i < |tags| ==> m == Apply(Meta(p + 1, i, pageUrls[p][i], None, None), tags[i])) &&
      (i >= |tags| ==> m.typeCode.None? && m.phaseIndex.None?)
  {
    var pt := PagesTags(texts, |pageUrls|);
    AnnotatedAt(pageUrls, pt, p, i);
    ExtractedAt(pageUrls, p, i);
    assert pt[p] == PageTags(PageText(texts, p + 1));
  }

  /** When the text is not an array, no image is tagged and all of them are in "unknown". */
  lemma AllUnknownWithoutPages(pageUrls: seq<seq<string>>, text: Option<Tokenizer.ExtractedText>)
    requires !(text.Some? && text.value.PerPage?)
    ensures var e, g := Extracted(pageUrls), Bucket(Seqs.Map(TypePair, TagImages(pageUrls, text)));
      (e == [] ==> g == map[]) &&
      (e != [] ==> g == map["unknown" := seq(|e|, j requires 0 <= j < |e| => e[j].dataUrl)])
  {
    var e := Extracted(pageUrls);
    var ps := Seqs.Map(TypePair, e);
    assert TagImages(pageUrls, text) == e;
    forall j | 0 <= j < |e|
      ensures ps[j].0 == "unknown"
    {
      ExtractedUntagged(pageUrls, j);
    }
    BucketOneKey(ps, "unknown");
    assert seq(|ps|, j requires 0 <= j < |ps| => ps[j].1) == seq(|e|, j requires 0 <= j < |e| => e[j].dataUrl);
  }

  lemma {:induction false} ExtractedUntagged(pageUrls: seq<seq<string>>, j: nat)
    requires j < |Extracted(pageUrls)|
    ensures Extracted(pageUrls)[j].typeCode.None? && Extracted(pageUrls)[j].phaseIndex.None?
  {
    var init := pageUrls[..|pageUrls| - 1];
    if j < |Extracted(init)| {
      ExtractedUntagged(init, j);
    }
  }
}
