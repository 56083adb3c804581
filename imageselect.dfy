/**
 * The viewer's image handling in src/app/traffic/page.tsx: the normalisation of the two image
 * formats the extract route may answer with, and `selectImagesForPhase`, which picks the images
 * to show for the current phase and rotates them so that the current one sits in the middle.
 *
 * Selection keys the groups by the phase label `phaseType` and reads `phaseIndex` as one-based,
 * although the calculator returns a zero-based index; the model keeps both as written.
 */
module ImageSelect {
  import opened Wrappers
  import opened Text
  import Seqs
  import Arith
  import opened Grouping
  import opened PhaseCalc

  /** `TrafficImage`: a data URL with the type code and phase index it was tagged with, if any
      (`null` and a missing field both read as `None`). */
  datatype TrafficImage = TrafficImage(dataUrl: string, typeCode: Option<string>, phaseIndex: Option<int>)

  /** One image as `selectImagesForPhase` returns it. */
  datatype Shown = Shown(dataUrl: string, typeCode: Option<string>, originalIndex: int, isCurrent: bool)

  /** `Number.MAX_SAFE_INTEGER`, the sort key of an image without a phase index. */
  const MaxSafeInteger: int := 0x1F_FFFF_FFFF_FFFF

  function Min(a: int, b: int): int {
    if a <= b then a else b
  }

  /** `String(x).toUpperCase().trim()` */
  function NormalKey(s: string): string {
    Trim(ToUpper(s))
  }

  /** `String(phase.phaseType ?? "").toUpperCase().trim()` */
  function TypeKey(phase: PhaseInfo): string {
    NormalKey(phase.phaseType)
  }

  // ---------------------------------------------------------------------------------------
  // Centring a rotation

  /** `(pos - Math.floor(n / 2) + n) % n`: the rotation that brings index `pos` to the middle
      position `n / 2`. */
  function CenterStart(pos: nat, n: nat): (start: nat)
    requires pos < n
    ensures start < n && (start + n / 2) % n == pos
  {
    var a := pos - n / 2 + n;
    Arith.ModBelowTwice(a, n);
    Arith.ModBelowTwice(pos + n, n);
    Arith.ModBelowTwice(pos, n);
    a % n
  }

  /** Position `i` of a rotation by `start` shows index `(start + i) % n`, and only position
      `n / 2` shows index `pos`. */
  lemma CenteredPositions(pos: nat, n: nat, i: nat, j: nat)
    requires pos < n && i < n && j < n
    ensures var start := CenterStart(pos, n);
      ((start + i) % n == pos <==> i == n / 2) &&
      (i != j ==> (start + i) % n != (start + j) % n)
  {
    var start := CenterStart(pos, n);
    Arith.ModBelowTwice(start + i, n);
    Arith.ModBelowTwice(start + j, n);
    Arith.ModBelowTwice(start + n / 2, n);
  }

  /** Every index is shown at some position. */
  lemma CenteredCovers(pos: nat, n: nat, o: nat) returns (i: nat)
    requires pos < n && o < n
    ensures i < n && (CenterStart(pos, n) + i) % n == o
  {
    var start := CenterStart(pos, n);
    i := if o >= start then o - start else o - start + n;
    Arith.ModBelowTwice(start + i, n);
  }

  // ---------------------------------------------------------------------------------------
  // The grouped branch

  /** `Math.max(0, Math.min(n - 1, Number(phase.phaseIndex) - 1))`: the phase index read as
      one-based and clamped into the group. */
  function GroupIndex(phaseIndex: int, n: nat): (idx: nat)
    requires n > 0
    ensures idx < n
    ensures 1 <= phaseIndex <= n ==> idx == phaseIndex - 1
    ensures phaseIndex < 1 ==> idx == 0
    ensures phaseIndex > n ==> idx == n - 1
  {
    Max(0, Min(n - 1, phaseIndex - 1))
  }

  /** The group of the phase's type, rotated so that image `idx` is in the middle; each image
      carries its index in the group and whether it is the chosen one. */
  function SelectGrouped(group: seq<string>, key: string, phaseIndex: int): (r: seq<Shown>)
    requires group != []
    ensures |r| == |group|
  {
    var n := |group|;
    var idx := GroupIndex(phaseIndex, n);
    var start := CenterStart(idx, n);
    var rotated := Seqs.Rotate(group, start);
    seq(n, i requires 0 <= i < n => Shown(rotated[i], Some(key), (start + i) % n, (start + i) % n == idx))
  }

  /** Position `i` of the grouped result shows image `(start + i) % n` of the group under its
      own index, and is the current one exactly in the middle position. */
  lemma GroupedEntry(group: seq<string>, key: string, phaseIndex: int, i: nat)
    requires group != [] && i < |group|
    ensures var n := |group|;
      var o := (CenterStart(GroupIndex(phaseIndex, n), n) + i) % n;
      SelectGrouped(group, key, phaseIndex)[i] == Shown(group[o], Some(key), o, i == n / 2)
  {
    var n := |group|;
    var idx := GroupIndex(phaseIndex, n);
    Seqs.RotateIndex(group, CenterStart(idx, n), i);
    CenteredPositions(idx, n, i, i);
  }

  /** The chosen image is in the middle of the grouped result. */
  lemma GroupedCurrent(group: seq<string>, key: string, phaseIndex: int)
    requires group != []
    ensures var r := SelectGrouped(group, key, phaseIndex);
      r[|group| / 2].isCurrent && r[|group| / 2].originalIndex == GroupIndex(phaseIndex, |group|)
  {
    var n := |group|;
    GroupedEntry(group, key, phaseIndex, n / 2);
  }

  /** No image of the group is shown twice ... */
  lemma GroupedDistinct(group: seq<string>, key: string, phaseIndex: int, i: nat, j: nat)
    requires group != [] && i < |group| && j < |group| && i != j
    ensures var r := SelectGrouped(group, key, phaseIndex);
      r[i].originalIndex != r[j].originalIndex
  {
    GroupedEntry(group, key, phaseIndex, i);
    GroupedEntry(group, key, phaseIndex, j);
    CenteredPositions(GroupIndex(phaseIndex, |group|), |group|, i, j);
  }

  /** ... and every image of the group is shown. */
  lemma GroupedCovers(group: seq<string>, key: string, phaseIndex: int, o: nat) returns (i: nat)
    requires o < |group|
    ensures i < |group| && SelectGrouped(group, key, phaseIndex)[i].originalIndex == o
    ensures SelectGrouped(group, key, phaseIndex)[i].dataUrl == group[o]
  {
    i := CenteredCovers(GroupIndex(phaseIndex, |group|), |group|, o);
    GroupedEntry(group, key, phaseIndex, i);
  }

  /** With the calculator's zero-based index, phase 0 and phase 1 both centre the group's first
      image, and phase `k >= 1` centres image `k - 1`. */
  lemma GroupedOneBased(group: seq<string>, key: string, k: int)
    requires group != [] && 1 <= k <= |group|
    ensures SelectGrouped(group, key, 0) == SelectGrouped(group, key, 1)
    ensures SelectGrouped(group, key, k)[|group| / 2].dataUrl == group[k - 1]
  {
    GroupedCurrent(group, key, k);
    GroupedEntry(group, key, k, |group| / 2);
  }

  // ---------------------------------------------------------------------------------------
  // The fallback branch

  /** `String(img.typeCode ?? "").toUpperCase().trim()` */
  function ImageKey(img: TrafficImage): string {
    NormalKey(match img.typeCode case None => "" case Some(c) => c)
  }

  /** `m.tc && typeKey && m.tc === typeKey` */
  predicate SameType(img: TrafficImage, key: string) {
    ImageKey(img) != "" && key != "" && ImageKey(img) == key
  }

  predicate SamePhase(img: TrafficImage, pi: int) {
    img.phaseIndex == Some(pi)
  }

  predicate HasPhase(img: TrafficImage) {
    img.phaseIndex.Some?
  }

  /** The candidate cascade: images of the phase's type, else images with the phase's index,
      else images with any index, else all images. */
  function Candidates(flat: seq<TrafficImage>, key: string, pi: int): seq<TrafficImage>
  {
    var byType := Seqs.Filter(img => SameType(img, key), flat);
    var byPhase := Seqs.Filter(img => SamePhase(img, pi), flat);
    var withPi := Seqs.Filter(HasPhase, flat);
    if byType != [] then byType
    else if byPhase != [] then byPhase
    else if withPi != [] then withPi
    else flat
  }

  /** Each tier of the cascade is used exactly when every earlier tier is empty and it is not. */
  lemma CandidatesCascade(flat: seq<TrafficImage>, key: string, pi: int)
    ensures var c := Candidates(flat, key, pi);
      ((exists x :: x in flat && SameType(x, key)) ==> c == Seqs.Filter(img => SameType(img, key), flat)) &&
      ((forall x :: x in flat ==> !SameType(x, key)) && (exists x :: x in flat && SamePhase(x, pi)) ==>
        c == Seqs.Filter(img => SamePhase(img, pi), flat)) &&
      ((forall x :: x in flat ==> !SameType(x, key) && !SamePhase(x, pi)) && (exists x :: x in flat && HasPhase(x)) ==>
        c == Seqs.Filter(HasPhase, flat)) &&
      ((forall x :: x in flat ==> !SameType(x, key) && !HasPhase(x)) ==> c == flat) &&
      (forall x :: x in c ==> x in flat) &&
      (c == [] <==> flat == [])
  {
    Seqs.FilterEmpty(img => SameType(img, key), flat);
    Seqs.FilterEmpty(img => SamePhase(img, pi), flat);
    Seqs.FilterEmpty(HasPhase, flat);
  }

  /** The sort key: the phase index, or `Number.MAX_SAFE_INTEGER` without one. */
  function SortKey(img: TrafficImage): int {
    match img.phaseIndex
    case None => MaxSafeInteger
    case Some(k) => k
  }

  /** `x` placed before the first image whose key is not smaller. */
  function InsertByKey(x: TrafficImage, s: seq<TrafficImage>): (r: seq<TrafficImage>)
    ensures |r| == |s| + 1 && (r[0] == x || (s != [] && r[0] == s[0]))
  {
    if s == [] || SortKey(x) <= SortKey(s[0]) then [x] + s else [s[0]] + InsertByKey(x, s[1..])
  }

  /** `candidates.slice().sort((a, b) => ai - bi)`. The sort of ECMAScript is stable, so the
      result is the ordering by key that keeps images of equal key in their original order. */
  function SortByKey(xs: seq<TrafficImage>): seq<TrafficImage>
  {
    if xs == [] then [] else InsertByKey(xs[0], SortByKey(xs[1..]))
  }

  predicate SortedByKey(s: seq<TrafficImage>) {
    forall i, j :: 0 <= i < j < |s| ==> SortKey(s[i]) <= SortKey(s[j])
  }

  /** The images of key `v`, in order. */
  function WithKey(s: seq<TrafficImage>, v: int): seq<TrafficImage>
  {
    if s == [] then [] else (if SortKey(s[0]) == v then [s[0]] else []) + WithKey(s[1..], v)
  }

  lemma {:induction false} InsertSorted(x: TrafficImage, s: seq<TrafficImage>)
    requires SortedByKey(s)
    ensures SortedByKey(InsertByKey(x, s))
  {
    if s != [] && SortKey(x) > SortKey(s[0]) {
      var t := s[1..];
      assert SortedByKey(t) by {
        forall i, j | 0 <= i < j < |t|
          ensures SortKey(t[i]) <= SortKey(t[j])
        {
          assert t[i] == s[i + 1] && t[j] == s[j + 1];
        }
      }
      InsertSorted(x, t);
      var it := InsertByKey(x, t);
      var r := [s[0]] + it;
      assert SortKey(s[0]) <= SortKey(it[0]) by {
        if it[0] != x {
          assert it[0] == s[1];
        }
      }
      forall i, j | 0 <= i < j < |r|
        ensures SortKey(r[i]) <= SortKey(r[j])
      {
        assert r[j] == it[j - 1];
        if i == 0 {
          assert SortKey(it[0]) <= SortKey(it[j - 1]) || j - 1 == 0;
        } else {
          assert r[i] == it[i - 1];
        }
      }
    }
  }

  lemma {:induction false} InsertPermutes(x: TrafficImage, s: seq<TrafficImage>)
    ensures multiset(InsertByKey(x, s)) == multiset([x] + s)
  {
    if s != [] && SortKey(x) > SortKey(s[0]) {
      InsertPermutes(x, s[1..]);
      assert s == [s[0]] + s[1..];
    }
  }

  lemma {:induction false} InsertKeepsOrder(x: TrafficImage, s: seq<TrafficImage>, v: int)
    ensures WithKey(InsertByKey(x, s), v) == WithKey([x] + s, v)
  {
    if s != [] && SortKey(x) > SortKey(s[0]) {
      var t := s[1..];
      InsertKeepsOrder(x, t, v);
      var r := [s[0]] + InsertByKey(x, t);
      assert r[0] == s[0] && r[1..] == InsertByKey(x, t);
      var xs := [x] + s;
      assert xs[0] == x && xs[1..] == s;
      var xt := [x] + t;
      assert xt[0] == x && xt[1..] == t;
    }
  }

  /** The sort orders by key ... */
  lemma {:induction false} SortSorts(xs: seq<TrafficImage>)
    ensures SortedByKey(SortByKey(xs))
  {
    if xs != [] {
      SortSorts(xs[1..]);
      InsertSorted(xs[0], SortByKey(xs[1..]));
    }
  }

  /** ... keeps every image ... */
  lemma {:induction false} SortPermutes(xs: seq<TrafficImage>)
    ensures multiset(SortByKey(xs)) == multiset(xs)
  {
    if xs != [] {
      SortPermutes(xs[1..]);
      InsertPermutes(xs[0], SortByKey(xs[1..]));
      assert xs == [xs[0]] + xs[1..];
    }
  }

  /** ... and keeps images of equal key in their original order. */
  lemma {:induction false} SortIsStable(xs: seq<TrafficImage>, v: int)
    ensures WithKey(SortByKey(xs), v) == WithKey(xs, v)
  {
    if xs != [] {
      SortIsStable(xs[1..], v);
      var s := SortByKey(xs[1..]);
      InsertKeepsOrder(xs[0], s, v);
      var a := [xs[0]] + s;
      assert a[0] == xs[0] && a[1..] == s;
    }
  }

  /** `Number(img.phaseIndex ?? -999)` */
  function PiOr(img: TrafficImage): int {
    match img.phaseIndex
    case None => -999
    case Some(k) => k
  }

  /** `sorted.findIndex((im) => Number(im.phaseIndex ?? -999) === pi)` */
  function FindIndex(s: seq<TrafficImage>, pi: int): (r: int)
    ensures -1 <= r < |s|
    ensures r >= 0 ==> PiOr(s[r]) == pi && forall j :: 0 <= j < r ==> PiOr(s[j]) != pi
    ensures r == -1 ==> forall j :: 0 <= j < |s| ==> PiOr(s[j]) != pi
  {
    if s == [] then -1
    else if PiOr(s[0]) == pi then 0
    else
      var r := FindIndex(s[1..], pi);
      if r < 0 then -1 else r + 1
  }

  /** `baseIndexes`: an image's phase index, or its one-based position without one. */
  function BaseIndex(s: seq<TrafficImage>, j: nat): int
    requires j < |s|
  {
    match s[j].phaseIndex
    case None => j + 1
    case Some(k) => k
  }

  /** `sorted`: the candidates in order of their sort key. */
  function FallbackOrder(flat: seq<TrafficImage>, phase: PhaseInfo): seq<TrafficImage>
  {
    SortByKey(Candidates(flat, TypeKey(phase), phase.phaseIndex))
  }

  /** `pos`: the first image with the phase's index, or the first image. */
  function CurrentPos(sorted: seq<TrafficImage>, pi: int): (pos: nat)
    ensures sorted != [] ==> pos < |sorted|
  {
    var curPos := FindIndex(sorted, pi);
    if curPos >= 0 then curPos else 0
  }

  /** The sorted candidates, rotated so that the image at `pos` is in the middle. */
  function SelectFallback(flat: seq<TrafficImage>, phase: PhaseInfo): (r: seq<Shown>)
    ensures |r| == |FallbackOrder(flat, phase)|
  {
    var pi := phase.phaseIndex;
    var sorted := FallbackOrder(flat, phase);
    var n := |sorted|;
    if n == 0 then []
    else
      var start := CenterStart(CurrentPos(sorted, pi), n);
      var rotated := Seqs.Rotate(sorted, start);
      var base := seq(n, j requires 0 <= j < n => BaseIndex(sorted, j));
      var rotatedIndexes := Seqs.Rotate(base, start);
      seq(n, i requires 0 <= i < n =>
        Shown(rotated[i].dataUrl, rotated[i].typeCode, rotatedIndexes[i] - 1, PiOr(rotated[i]) == pi))
  }

  /** The fallback shows every candidate once, and shows nothing only when there are no images. */
  lemma FallbackSize(flat: seq<TrafficImage>, phase: PhaseInfo)
    ensures |FallbackOrder(flat, phase)| == |Candidates(flat, TypeKey(phase), phase.phaseIndex)|
    ensures multiset(FallbackOrder(flat, phase)) == multiset(Candidates(flat, TypeKey(phase), phase.phaseIndex))
    ensures SelectFallback(flat, phase) == [] <==> flat == []
  {
    var cands := Candidates(flat, TypeKey(phase), phase.phaseIndex);
    CandidatesCascade(flat, TypeKey(phase), phase.phaseIndex);
    SortPermutes(cands);
    assert |FallbackOrder(flat, phase)| == |multiset(FallbackOrder(flat, phase))| == |multiset(cands)| == |cands|;
  }

  /** Position `i` of the fallback result shows sorted image `(start + i) % n`, numbered by its
      base index less one and flagged current exactly when its index is the phase's. */
  lemma FallbackEntry(flat: seq<TrafficImage>, phase: PhaseInfo, i: nat)
    requires i < |FallbackOrder(flat, phase)|
    ensures var sorted, pi := FallbackOrder(flat, phase), phase.phaseIndex;
      var n := |sorted|;
      var o := (CenterStart(CurrentPos(sorted, pi), n) + i) % n;
      SelectFallback(flat, phase)[i] ==
        Shown(sorted[o].dataUrl, sorted[o].typeCode, BaseIndex(sorted, o) - 1, PiOr(sorted[o]) == pi)
  {
    var sorted := FallbackOrder(flat, phase);
    var n := |sorted|;
    var start := CenterStart(CurrentPos(sorted, phase.phaseIndex), n);
    var base := seq(n, j requires 0 <= j < n => BaseIndex(sorted, j));
    Seqs.RotateIndex(sorted, start, i);
    Seqs.RotateIndex(base, start, i);
  }

  /** When some candidate has the phase's index, the first such is in the middle and current. */
  lemma FallbackCurrent(flat: seq<TrafficImage>, phase: PhaseInfo)
    requires FindIndex(FallbackOrder(flat, phase), phase.phaseIndex) >= 0
    ensures var sorted, r := FallbackOrder(flat, phase), SelectFallback(flat, phase);
      var pos := FindIndex(sorted, phase.phaseIndex);
      r[|sorted| / 2].isCurrent && r[|sorted| / 2].dataUrl == sorted[pos].dataUrl
  {
    var sorted := FallbackOrder(flat, phase);
    var n := |sorted|;
    FallbackEntry(flat, phase, n / 2);
  }

  // ---------------------------------------------------------------------------------------
  // Selection

  /** `selectImagesForPhase(phase, imagesByType, flatImages)` */
  function SelectImagesForPhase(phase: PhaseInfo, imagesByType: Groups, flat: seq<TrafficImage>): seq<Shown>
  {
    var key := TypeKey(phase);
    if key in imagesByType && imagesByType[key] != [] then SelectGrouped(imagesByType[key], key, phase.phaseIndex)
    else SelectFallback(flat, phase)
  }

  /** Selection shows the whole group of the phase's label when there is one, and otherwise as
      many images as there are fallback candidates; it shows nothing only when it has nothing
      to show. */
  lemma SelectionSize(phase: PhaseInfo, imagesByType: Groups, flat: seq<TrafficImage>)
    ensures var key, r := TypeKey(phase), SelectImagesForPhase(phase, imagesByType, flat);
      (key in imagesByType && imagesByType[key] != [] ==> |r| == |imagesByType[key]|) &&
      (r == [] <==> (key !in imagesByType || imagesByType[key] == []) && flat == [])
  {
    FallbackSize(flat, phase);
  }

  // ---------------------------------------------------------------------------------------
  // Normalising the route's answer

  /** `json.images`: missing, the legacy list of tagged images, or the record from type code to
      data URLs as `Object.entries` lists it (`None` stands for a value that is not an array). */
  datatype ApiImages = NoImages | ImageList(items: seq<TrafficImage>) | ImageGroups(entries: seq<(string, Option<seq<string>>)>)

  /** `String(it.typeCode ?? "unknown").toUpperCase().trim()` */
  function LegacyKey(it: TrafficImage): string {
    NormalKey(match it.typeCode case None => "unknown" case Some(c) => c)
  }

  function LegacyPair(it: TrafficImage): (string, string) {
    (LegacyKey(it), it.dataUrl)
  }

  /** The image list the viewer keeps for a record: every data URL of every array entry, in
      entry order, tagged with the entry's key and no phase index. */
  function EntryImages(entries: seq<(string, Option<seq<string>>)>): seq<TrafficImage>
  {
    if entries == [] then []
    else
      var last := entries[|entries| - 1];
      EntryImages(entries[..|entries| - 1]) +
        match last.1
        case None => []
        case Some(arr) => Seqs.Map((d: string) => TrafficImage(d, Some(last.0), None), arr)
  }

  /** The groups the viewer keeps for a record: each array entry replaces the group of its
      normalised key. */
  function EntryGroups(entries: seq<(string, Option<seq<string>>)>): Groups
  {
    if entries == [] then map[]
    else
      var last := entries[|entries| - 1];
      var g := EntryGroups(entries[..|entries| - 1]);
      match last.1
      case None => g
      case Some(arr) => g[NormalKey(last.0) := arr]
  }

  function FlatImages(images: ApiImages): seq<TrafficImage>
  {
    match images
    case NoImages => []
    case ImageList(items) => items
    case ImageGroups(entries) => EntryImages(entries)
  }

  function GroupedImages(images: ApiImages): Groups
  {
    match images
    case NoImages => map[]
    case ImageList(items) => Bucket(Seqs.Map(LegacyPair, items))
    case ImageGroups(entries) => EntryGroups(entries)
  }

  lemma EntrySnoc(entries: seq<(string, Option<seq<string>>)>, e: (string, Option<seq<string>>))
    ensures EntryImages(entries + [e]) == EntryImages(entries) +
      match e.1
      case None => []
      case Some(arr) => Seqs.Map((d: string) => TrafficImage(d, Some(e.0), None), arr)
    ensures EntryGroups(entries + [e]) ==
      match e.1
      case None => EntryGroups(entries)
      case Some(arr) => EntryGroups(entries)[NormalKey(e.0) := arr]
  {
    assert (entries + [e])[..|entries|] == entries;
  }

  /** The normalisation of `json.images` into `imgsOut` and `grouped`. */
  method NormalizeImages(images: ApiImages) returns (imgsOut: seq<TrafficImage>, grouped: Groups)
    ensures imgsOut == FlatImages(images) && grouped == GroupedImages(images)
  {
    imgsOut := [];
    grouped := map[];
    match images {
      case NoImages =>
      case ImageList(items) =>
        imgsOut, grouped := NormalizeList(items);
      case ImageGroups(entries) =>
        imgsOut, grouped := NormalizeGroups(entries);
    }
  }

  /** The legacy list: copy each image and push its data URL onto the group of its key. */
  method NormalizeList(items: seq<TrafficImage>) returns (imgsOut: seq<TrafficImage>, grouped: Groups)
    ensures imgsOut == items && grouped == Bucket(Seqs.Map(LegacyPair, items))
  {
    imgsOut := [];
    grouped := map[];
    for i := 0 to |items|
      invariant imgsOut == items[..i]
      invariant grouped == Bucket(Seqs.Map(LegacyPair, items[..i]))
    {
      var it := items[i];
      imgsOut := imgsOut + [TrafficImage(it.dataUrl, it.typeCode, it.phaseIndex)];
      grouped := Push(grouped, LegacyKey(it), it.dataUrl);
      LegacyStep(items, i);
    }
    assert items[..|items|] == items;
  }

  lemma LegacyStep(items: seq<TrafficImage>, i: nat)
    requires i < |items|
    ensures items[..i + 1] == items[..i] + [items[i]]
    ensures Bucket(Seqs.Map(LegacyPair, items[..i + 1])) ==
      Push(Bucket(Seqs.Map(LegacyPair, items[..i])), LegacyKey(items[i]), items[i].dataUrl)
  {
    var ps := Seqs.Map(LegacyPair, items[..i + 1]);
    assert items[..i + 1][..i] == items[..i];
    assert ps[..i] == Seqs.Map(LegacyPair, items[..i]);
    BucketStep(ps, i);
    assert ps[..i + 1] == ps;
  }

  /** The record: every array entry sets the group of its key and adds its data URLs. */
  method NormalizeGroups(entries: seq<(string, Option<seq<string>>)>) returns (imgsOut: seq<TrafficImage>, grouped: Groups)
    ensures imgsOut == EntryImages(entries) && grouped == EntryGroups(entries)
  {
    imgsOut := [];
    grouped := map[];
    for e := 0 to |entries|
      invariant imgsOut == EntryImages(entries[..e])
      invariant grouped == EntryGroups(entries[..e])
    {
      var (t, value) := entries[e];
      assert entries[..e + 1] == entries[..e] + [entries[e]];
      EntrySnoc(entries[..e], entries[e]);
      if value.Some? {
        var arr := value.value;
        grouped := grouped[NormalKey(t) := arr];
        imgsOut := AppendUntagged(imgsOut, t, arr);
      }
    }
    assert entries[..|entries|] == entries;
  }

  /** `for (const dataUrl of arr) imgsOut.push({ dataUrl, typeCode: type, phaseIndex: null })` */
  method AppendUntagged(imgs: seq<TrafficImage>, t: string, arr: seq<string>) returns (out: seq<TrafficImage>)
    ensures out == imgs + Seqs.Map((d: string) => TrafficImage(d, Some(t), None), arr)
  {
    out := imgs;
    for j := 0 to |arr|
      invariant out == imgs + Seqs.Map((d: string) => TrafficImage(d, Some(t), None), arr[..j])
    {
      Seqs.MapSnoc((d: string) => TrafficImage(d, Some(t), None), arr[..j], arr[j]);
      assert arr[..j + 1] == arr[..j] + [arr[j]];
      out := out + [TrafficImage(arr[j], Some(t), None)];
    }
    assert arr[..|arr|] == arr;
  }

  /** The legacy list keeps every image, and groups its data URLs by normalised type code
      ("UNKNOWN" for none), each group in list order, with no data URL lost. */
  lemma LegacyGroups(items: seq<TrafficImage>, k: string)
    ensures var g := GroupedImages(ImageList(items));
      (k in g <==> exists i :: 0 <= i < |items| && LegacyKey(items[i]) == k) &&
      (k in g ==> g[k] == ValuesOf(Seqs.Map(LegacyPair, items), k)) &&
      Total(g) == |items|
  {
    var ps := Seqs.Map(LegacyPair, items);
    BucketContents(ps, k);
    BucketTotal(ps);
    if HasKey(ps, k) {
      var i :| 0 <= i < |ps| && ps[i].0 == k;
      assert LegacyKey(items[i]) == k;
    }
    if exists i :: 0 <= i < |items| && LegacyKey(items[i]) == k {
      var i :| 0 <= i < |items| && LegacyKey(items[i]) == k;
      assert ps[i].0 == k;
    }
  }

  /** For a record, the last array entry of a key decides that key's group ... */
  lemma {:induction false} RecordLastWins(entries: seq<(string, Option<seq<string>>)>, i: nat, k: string)
    requires i < |entries| && entries[i].1.Some? && NormalKey(entries[i].0) == k
    requires forall j :: i < j < |entries| ==> entries[j].1.None? || NormalKey(entries[j].0) != k
    ensures k in EntryGroups(entries) && EntryGroups(entries)[k] == entries[i].1.value
  {
    var init, last := entries[..|entries| - 1], entries[|entries| - 1];
    if i < |entries| - 1 {
      assert last.1.None? || NormalKey(last.0) != k;
      forall j | i < j < |init|
        ensures init[j].1.None? || NormalKey(init[j].0) != k
      {
        assert init[j] == entries[j];
      }
      assert init[i] == entries[i];
      RecordLastWins(init, i, k);
    }
  }

  /** ... and a key of no array entry has no group. */
  lemma {:induction false} RecordMissing(entries: seq<(string, Option<seq<string>>)>, k: string)
    requires forall j :: 0 <= j < |entries| ==> entries[j].1.None? || NormalKey(entries[j].0) != k
    ensures k !in EntryGroups(entries)
  {
    if entries != [] {
      var init := entries[..|entries| - 1];
      forall j | 0 <= j < |init|
        ensures init[j].1.None? || NormalKey(init[j].0) != k
      {
        assert init[j] == entries[j];
      }
      RecordMissing(init, k);
    }
  }
}
