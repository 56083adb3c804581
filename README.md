# Taipei traffic-light timing plans, modelled in Dafny

The application reads a Taipei traffic-signal timing-plan PDF and shows which phase a junction
is in right now, together with the phase diagrams from the PDF. This project models its core:

- **The row tokenizer and the timing-table parser** (`pdfToArray` and `parseTrafficLightPDF`).
  Page text becomes rows of white-space-free tokens. The parser scans adjacent rows for the
  `時間` / `時制` anchor pair. The run of `DD:DD` times in the upper row ends at the boundary.
  Column `d` before the boundary is a schedule entry for weekday `d`. The cells after the
  boundary define one timing type: code, period, offset, direction, phase label and durations.
- **The phase calculator** (`computeCurrentPhase`) and the weekday mapping of the viewer. The
  calculator picks the timing type the day's schedule has reached. It reduces the seconds since
  midnight with JavaScript's double remainder, then walks the running totals of the phase
  durations.
- **The viewer's image handling.** It normalises the two answer formats of the extract route.
  `selectImagesForPhase` then rotates the images so that the current one is in the middle,
  falling back to a cascade of candidates.
- **The extract route's correlator.** Each page's tokens are scanned for `分相` (phase)
  markers, and each marker yields a (type code, running number) tag. Tags go by position to the
  page's images, and the images are grouped by type code. The route's RGB→RGBA pixel loop is
  modelled too.

Imperative code is modelled as Dafny methods with loops, proved equal to specification
functions. The parser loop, the calculator, the normalisation loops, the marker scan, tag
assignment, grouping and the pixel loop are all written this way. Tag assignment updates an
array of image records in place, and the pixel loop fills a byte array. The list logic of the
viewer's selection is written as functions. Lemmas state what the source promises about these
functions.

Points where the model follows the code as written:

- The calculator's start-time lookback compares `e.type`, but schedule entries only carry
  `time` and `timingType`. The lookback therefore never matches, and the cycle is always counted
  from midnight (`PhaseCalc.LookbackNeverMatches`).
- Selection keys the groups by the phase's label `phaseType`, not its type code. It also reads
  `phaseIndex` as one-based, although the calculator returns a zero-based index.
  `ImageSelect.GroupedOneBased` states the consequence: phase 0 and phase 1 centre the same
  image.
- The schedule part pushes onto `scheduleMap[day]` for every column `day` before the boundary
  whose upper cell is a `DD:DD` time and whose lower cell is two digits. Only days 1..7 have
  lists. A column 8 or later that passes both tests reaches `scheduleMap[8]`, which is
  `undefined`, and `push` throws a TypeError (src/lib/trafficParser.ts:72-76). The model returns
  `Err(NoDayList(d))` there (`TimingTable.ParseFailure`, `TimingTable.ParseFailureDay`).
- Column `d` of an anchor pair goes to weekday `d`: a header with two times puts its first
  entry on day 1 and its second on day 2 (`TimingTable.ParseSchedule`).
- `toUpperCase` is modelled on ASCII letters, plus the few non-ASCII characters whose upper
  case is made of ASCII letters only (`ı`, `ſ`, `ß` and the Latin ligatures). Every other
  character is kept. This is exact for the two-character code test made on the upper-cased
  token (src/lib/trafficParser.ts:82-85, src/app/api/extract/node/route.ts:112-113;
  `Text.SharpSUpper`), but not for the viewer's key comparisons (see `ImageSelect.NormalKey`
  under "Left out").

## Model

| member | source | states |
|---|---|---|
| Tokenizer.PdfToArray | src/lib/trafficParser.ts:21-38 | the rows `pdfToArray` returns for the output of `extractText`; `Tokenizer.PdfToArrayShape` states their shape |
| Tokenizer.PdfToArrayShape | src/lib/trafficParser.ts:21-38 | every row returned is a non-empty row of non-empty, white-space-free tokens; for one merged string the rows are that string's rows |
| Tokenizer.Pages | src/lib/trafficParser.ts:23 | `Array.isArray(text) ? text : [text]`: the page strings, or the one merged string as a single page |
| Tokenizer.SplitLines | src/lib/trafficParser.ts:27 | `page.split(/\r?\n/)`: the pieces between line feeds, a carriage return before a line feed dropped; pinned by `Text.JoinSplit` and `Text.SplitJoin` |
| Tokenizer.Words | src/lib/trafficParser.ts:28-34 | the tokens of one line; `Tokenizer.WordsAreTokens` and `Tokenizer.WordsOfJoin` state what they are |
| Tokenizer.PageRows | src/lib/trafficParser.ts:26-35 | the non-empty token rows of one page, in line order; shape in `Tokenizer.PageRowsAreTokenRows` |
| Tokenizer.Rows | src/lib/trafficParser.ts:25-36 | `pages.flatMap(...)`; shape in `Tokenizer.RowsAreTokenRows`, page order in `Tokenizer.RowsAppend` |
| Tokenizer.Safe | src/lib/trafficParser.ts:19 | an index past the row reads as ""; a white-space-free cell reads as itself |
| Tokenizer.WordsAreTokens | src/lib/trafficParser.ts:28-34 | every token of a line is non-empty and holds no white space |
| Tokenizer.RowsAreTokenRows | src/lib/trafficParser.ts:25-36 | every row is non-empty, and every token in it is non-empty and free of white space |
| Tokenizer.PageRowsAreTokenRows | src/lib/trafficParser.ts:26-35 | every row of one page is a non-empty row of non-empty, white-space-free tokens |
| Seqs.NonEmpty | src/lib/trafficParser.ts:33-35 | `filter(Boolean)` on tokens and `filter((row) => row.length > 0)` on rows: every element kept is non-empty and one of the input's |
| Seqs.NonEmptyComplete | src/lib/trafficParser.ts:33-35 | every non-empty element of the input is kept |
| Seqs.NonEmptyAppend | src/lib/trafficParser.ts:33-35 | the filter keeps order: filtering a concatenation gives the concatenation of the filtered parts |
| Seqs.NonEmptyKeepsAll | src/lib/trafficParser.ts:33-35 | a sequence with no empty element is kept whole |
| Tokenizer.RowsAppend | src/lib/trafficParser.ts:25 | the rows of a concatenation of pages are the rows of the first pages followed by those of the rest (page order) |
| Tokenizer.WordsOfJoin | src/lib/trafficParser.ts:28-34 | tokenizing a line of tokens joined by single spaces gives back exactly those tokens |
| Text.Trim | src/lib/trafficParser.ts:19 | `trim` as `trimEnd` of `trimStart`; each side pinned by `Text.TrimStartShape` and `Text.TrimEndShape` |
| Text.TrimStartShape | src/lib/trafficParser.ts:19 | the leading-trim drops exactly the leading run of white space |
| Text.TrimEndShape | src/lib/trafficParser.ts:19 | the trailing-trim drops exactly the trailing run of white space |
| Text.Collapse | src/lib/trafficParser.ts:31 | `replace(/\s+/g, " ")`: every maximal run of white space becomes one space; `Tokenizer.CollapseOnlySpaces` and `Tokenizer.CollapseJoin` state its effect |
| Text.JoinSplit | src/lib/trafficParser.ts:32 | joining the pieces of `split(c)` with `c` gives back the string |
| Text.SplitJoin | src/lib/trafficParser.ts:32 | splitting a join of separator-free pieces gives back the pieces |
| Text.ParseInt | src/lib/trafficParser.ts:86-93 | `parseInt(_, 10)`, NaN as `None`; characterised by `Text.ParseIntLeading` and `Text.ParseIntNaN` |
| Text.IntOrZero | src/lib/trafficParser.ts:86-88 | `parseInt(_, 10)` with 0 in place of NaN: the value read, or 0 |
| Text.ParseIntLeading | src/lib/trafficParser.ts:86-88 | `parseInt` reads back the numeral of any integer followed by any non-digit text |
| Text.ParseIntNaN | src/lib/trafficParser.ts:86-88 | `parseInt` yields NaN exactly when no digit follows the white space and the optional sign |
| Text.IsTime | src/lib/trafficParser.ts:66 | `/^\d{2}:\d{2}$/`, the time test of the boundary loop and of the schedule columns (line 75); used by `TimingTable.BoundaryIsFirstNonTime` and `TimingTable.PushDaysContents` |
| Text.IsTwoDigits | src/lib/trafficParser.ts:75 | `/^\d{2}$/`, the type test of a schedule column's lower cell; used by `TimingTable.PushDaysContents` |
| Text.IsTypeCode | src/lib/trafficParser.ts:85 | `/^[A-Z0-9]{2}$/` on the upper-cased code; used by `TimingTable.DefineTimingType` and `TimingTable.LastDefinitionCode` |
| Text.IsTypeCodeAnyCase | src/app/api/extract/node/route.ts:99-112 | `/^[A-Z0-9]{2}$/i`: without the `u` flag the case-insensitive match folds ASCII letters only, so it accepts two ASCII letters or digits; used by `Text.TypeCodeUpper` and `Correlator.TypedMarkerRestarts` |
| Text.ToUpper | src/lib/trafficParser.ts:82 | `toUpperCase` character by character; its effect on codes is stated by `Text.TypeCodeUpper` and `Text.SharpSUpper` |
| Text.StrLe | src/app/traffic/page.tsx:301 | `time >= s.time` on strings: lexicographic order of characters, a proper prefix first; on `DD:DD` times it is the order of the times (`PhaseCalc.SortedReached`) |
| Text.TypeCodeUpper | src/lib/trafficParser.ts:82-85 | an upper-cased case-insensitive code is a case-sensitive code; an upper-case code is unchanged |
| Text.SharpSUpper | src/lib/trafficParser.ts:82-85 | `"ß"` upper-cases to the code `"SS"`, while the case-insensitive pattern rejects it |
| TimingTable.Parse | src/lib/trafficParser.ts:46-108 | the whole result of `parseTrafficLightPDF` on its rows; characterised by `TimingTable.ScanIsFold`, `TimingTable.ParseSchedule`, `TimingTable.ParseTimings` and `TimingTable.ParseFailure` |
| TimingTable.ScanFrom | src/lib/trafficParser.ts:57-107 | the scan from row `i`: an anchor pair is processed and both rows skipped, other rows passed by one; equal to the fold of the anchor pairs (`TimingTable.ScanIsFold`) |
| TimingTable.Boundary | src/lib/trafficParser.ts:65-68 | where the times after the label stop; `TimingTable.BoundaryIsFirstNonTime` characterises it |
| TimingTable.PushDays | src/lib/trafficParser.ts:72-78 | the schedule loop's effect; characterised by `TimingTable.PushDaysOk`, `TimingTable.PushDaysContents` and `TimingTable.PushDaysFailure` |
| TimingTable.TimingAt | src/lib/trafficParser.ts:86-102 | the definition read from the cells after the boundary; pinned by `TimingTable.ReadTiming` and `TimingTable.DurationsAreReadable` |
| TimingTable.DefineType | src/lib/trafficParser.ts:81-104 | the definition part: a block with a valid code overwrites that code's entry; stated by `TimingTable.DefineTimingType` and `TimingTable.FoldTimings` |
| TimingTable.ApplyBlock | src/lib/trafficParser.ts:64-104 | everything one anchor pair does to the two tables; `TimingTable.ApplyBlockEffect` characterises it |
| TimingTable.ParseTimingTable | src/lib/trafficParser.ts:46-108 | the scan loop returns exactly the result of the scan specification `Parse` |
| TimingTable.FindBoundary | src/lib/trafficParser.ts:65-68 | the `while` loop stops at `Boundary(upper)` |
| TimingTable.BoundaryIsFirstNonTime | src/lib/trafficParser.ts:65-68 | the boundary is the least index from 1 whose cell is not `DD:DD`, or the row length; every cell before it is a time |
| TimingTable.ScheduleColumns | src/lib/trafficParser.ts:72-78 | the schedule loop returns the pushes of `PushDays`, or fails on the first day with no list |
| TimingTable.PushDaysOk | src/lib/trafficParser.ts:72-78 | the schedule loop succeeds exactly when every entry column has a day list |
| TimingTable.PushDaysContents | src/lib/trafficParser.ts:72-78 | on success, column `d`'s entry is appended to day `d` only, only when it is a time over two digits; the days are kept |
| TimingTable.PushDaysFailure | src/lib/trafficParser.ts:47-55 | on failure, the day named is the first entry column with no list |
| TimingTable.FoldFailure | src/lib/trafficParser.ts:72-76 | a failed scan names a day, from 1 on, that the schedule has no list for |
| TimingTable.DefineTimingType | src/lib/trafficParser.ts:81-104 | the definition is stored under the upper-cased code only when it is a two-character `[A-Z0-9]` code |
| TimingTable.ReadTiming | src/lib/trafficParser.ts:86-90 | period, offset and direction are the values `parseInt` reads from their cells, 0 when it reads NaN or 0, and the label is `safe(upper, boundary + 4)` |
| TimingTable.ReadDurations | src/lib/trafficParser.ts:92-95 | the durations loop collects every value `parseInt` reads, in cell order |
| TimingTable.DurationsAreReadable | src/lib/trafficParser.ts:92-95 | the durations are the values `parseInt` reads from the cells from `boundary + 5` on, in order |
| TimingTable.ReadableNumerals | src/lib/trafficParser.ts:92-95 | cells written as integer numerals read back as exactly those integers |
| TimingTable.BlocksFromMembers | src/lib/trafficParser.ts:57-62 | the blocks are exactly the adjacent row pairs that carry the two labels |
| TimingTable.LowerRowIsNoAnchor | src/lib/trafficParser.ts:106 | the skipped `時制` row can never start an anchor pair |
| TimingTable.ScanIsFold | src/lib/trafficParser.ts:57-107 | the scan with its skip is the fold of every anchor pair, in row order |
| TimingTable.NoAnchorNoTables | src/lib/trafficParser.ts:46-62 | without an anchor pair the result is the empty timing map and days 1..7 with empty lists |
| TimingTable.EmptySchedule | src/lib/trafficParser.ts:47-55 | the schedule starts with exactly the days 1..7, each with an empty list |
| TimingTable.ApplyBlockEffect | src/lib/trafficParser.ts:64-104 | one anchor pair succeeds exactly when its entry columns have lists; it then appends its columns and defines its type |
| TimingTable.FoldOk | src/lib/trafficParser.ts:57-107 | the fold succeeds exactly when no anchor pair has an entry column without a day list |
| TimingTable.FoldSchedule | src/lib/trafficParser.ts:72-78 | after a successful fold, each day holds its old entries followed by its column in every anchor pair, in row order |
| TimingTable.FoldTimings | src/lib/trafficParser.ts:97-103 | a code gets the definition of the last block that defines it; every other code is unchanged |
| TimingTable.LastDefinitionCode | src/lib/trafficParser.ts:85 | only two-character upper-case codes are defined, and each by some block |
| TimingTable.ParseFailure | src/lib/trafficParser.ts:47-55 | the parser throws exactly when some anchor pair has an entry column whose day is not 1..7 |
| TimingTable.ParseFailureDay | src/lib/trafficParser.ts:72-76 | the day it throws on is 8 or more |
| TimingTable.ParseSchedule | src/lib/trafficParser.ts:47-55 | on success the days are 1..7, and day `d` holds column `d` of every anchor pair, in row order |
| TimingTable.ParseTimings | src/lib/trafficParser.ts:97-103 | on success a code is defined exactly when some block defines it, with the last such definition |
| PhaseCalc.CurrentPhase | src/app/traffic/page.tsx:287-334 | what `computeCurrentPhase` returns; characterised by `PhaseCalc.CurrentPhaseUnresolved`, `PhaseCalc.CurrentPhaseResolved` and `PhaseCalc.CurrentPhaseWellFormed` |
| PhaseCalc.ActiveType | src/app/traffic/page.tsx:299-303 | the type the schedule walk leaves in `currentTimingType`; characterised by `PhaseCalc.ActiveTypeIsLastReached` |
| PhaseCalc.ClockSeconds | src/app/traffic/page.tsx:308-309 | hours times 3600 plus minutes times 60 plus seconds, read from the split clock; `PhaseCalc.ClockRoundTrip` ties it to the tick |
| PhaseCalc.Elapsed | src/app/traffic/page.tsx:316 | the double JavaScript remainder; `PhaseCalc.ElapsedInCycle` and `PhaseCalc.ElapsedZeroPeriod` give its value |
| PhaseCalc.PhaseAt | src/app/traffic/page.tsx:318-333 | the duration walk; `PhaseCalc.PhaseAtIsFirstPassing` characterises it |
| PhaseCalc.Lookback | src/app/traffic/page.tsx:312 | `[...schedule].reverse().find((e) => e.type === currentTimingType)`: the last entry whose `type` property is the active type; `PhaseCalc.LookbackNeverMatches` shows that there is none |
| PhaseCalc.StartSeconds | src/app/traffic/page.tsx:313-314 | `startH * 3600 + startM * 60` of the entry found, or of "00:00"; `PhaseCalc.LookbackNeverMatches` shows it is 0 |
| PhaseCalc.Weekday | src/app/traffic/page.tsx:112 | the weekday is in 1..7 and congruent to `getDay()` modulo 7 (Sunday 0 becomes 7) |
| PhaseCalc.WeekdayBijective | src/app/traffic/page.tsx:112 | distinct days of `Date` give distinct weekdays |
| PhaseCalc.ClockRoundTrip | src/app/traffic/page.tsx:108-111 | the padded `HH:MM:SS` string of the tick reads back, through the calculator's split, as `h*3600 + m*60 + s` |
| PhaseCalc.SplitClock | src/app/traffic/page.tsx:308 | a well-formed clock string splits at its colons into its three two-digit fields |
| PhaseCalc.FindActiveType | src/app/traffic/page.tsx:299-303 | the schedule loop returns the specified active type |
| PhaseCalc.ActiveTypeIsLastReached | src/app/traffic/page.tsx:299-303 | the active type is that of the last entry of the leading run of started entries, or the first entry's when none has started |
| PhaseCalc.SortedReached | src/app/traffic/page.tsx:299-303 | for a schedule in time order, the walk passes exactly the entries whose time is not after the clock |
| PhaseCalc.LookbackNeverMatches | src/app/traffic/page.tsx:312-314 | as written the lookback finds no entry, so the start second is 0 |
| PhaseCalc.JsRem | src/app/traffic/page.tsx:316 | JavaScript's `%` is smaller than the divisor in magnitude and has the sign of the dividend |
| PhaseCalc.JsRemMultiple | src/app/traffic/page.tsx:316 | the dividend less JavaScript's `%` is a multiple of the divisor |
| PhaseCalc.CycleLength | src/app/traffic/page.tsx:316 | the cycle length (the period, or 1 when the period is 0) is never zero |
| PhaseCalc.ElapsedInCycle | src/app/traffic/page.tsx:316 | for a positive period the double remainder is the Euclidean remainder, in `0 .. period - 1` |
| PhaseCalc.ElapsedZeroPeriod | src/app/traffic/page.tsx:316 | a zero period gives position 0 |
| PhaseCalc.FindPhase | src/app/traffic/page.tsx:318-333 | the duration loop returns the specified phase |
| PhaseCalc.PhaseAtFirstPassing | src/app/traffic/page.tsx:318-327 | when running total `k` is the first to pass the position, the phase is `k` with the rest of that total left |
| PhaseCalc.PhaseAtExhausted | src/app/traffic/page.tsx:329-333 | when no running total passes the position, the phase is the last index (-1 without durations) with 0 left |
| PhaseCalc.PhaseAtIsFirstPassing | src/app/traffic/page.tsx:318-333 | the phase is the first one whose running total passes the position, with the rest of that total left; otherwise the last index (-1 without durations) with 0 left |
| PhaseCalc.PhaseRemaining | src/app/traffic/page.tsx:318-327 | from a non-negative position, the phase found has between 1 second and its own duration left |
| PhaseCalc.ComputeCurrentPhase | src/app/traffic/page.tsx:287-334 | the procedure with its loops and early returns returns `CurrentPhase` |
| PhaseCalc.CurrentPhaseUnresolved | src/app/traffic/page.tsx:295-297 | a missing or empty day schedule, or an active type with no definition, gives `("", -1, 0)` |
| PhaseCalc.CurrentPhaseResolved | src/app/traffic/page.tsx:305-316 | otherwise the phase is read at `(seconds - offset) mod period`, counted from midnight; a zero period gives position 0 |
| PhaseCalc.CurrentPhaseWellFormed | src/app/traffic/page.tsx:318-333 | a resolved result carries the type's label, an index from -1 to the last phase, and a remainder within the running phase's duration or 0 past the last total |
| ImageSelect.SelectImagesForPhase | src/app/traffic/page.tsx:131-193 | the images shown for a phase; `ImageSelect.SelectionSize` states which branch is taken and how much is shown |
| ImageSelect.TypeKey | src/app/traffic/page.tsx:138 | `String(phase.phaseType ?? "").toUpperCase().trim()`: the normalised label of the phase, the key of its group |
| ImageSelect.NormalKey | src/app/traffic/page.tsx:74 | `String(x).toUpperCase().trim()` on a string, with the upper-casing described above |
| ImageSelect.SelectGrouped | src/app/traffic/page.tsx:141-156 | the grouped branch; each entry is given by `ImageSelect.GroupedEntry`, with `ImageSelect.GroupedDistinct` and `ImageSelect.GroupedCovers` |
| ImageSelect.Candidates | src/app/traffic/page.tsx:160-171 | the candidate cascade; `ImageSelect.CandidatesCascade` states which tier is used |
| ImageSelect.SelectFallback | src/app/traffic/page.tsx:174-192 | the fallback branch shows as many images as there are sorted candidates; each entry is given by `ImageSelect.FallbackEntry` |
| ImageSelect.CenterStart | src/app/traffic/page.tsx:150 | the start of the rotation brings the chosen index to position `n / 2` |
| ImageSelect.CenteredPositions | src/app/traffic/page.tsx:150-154 | only position `n / 2` shows the chosen index, and distinct positions show distinct indices |
| ImageSelect.CenteredCovers | src/app/traffic/page.tsx:150-154 | every index of the group is shown at some position of the rotation |
| ImageSelect.GroupIndex | src/app/traffic/page.tsx:144-147 | the index is `phaseIndex - 1` clamped into `0 .. n - 1` |
| ImageSelect.GroupedEntry | src/app/traffic/page.tsx:150-156 | position `i` of the grouped result shows group image `(start + i) % n` under that index, current exactly at position `n / 2` |
| ImageSelect.GroupedCurrent | src/app/traffic/page.tsx:150-156 | the middle entry is current and carries the chosen index |
| ImageSelect.GroupedDistinct | src/app/traffic/page.tsx:153-156 | no two positions carry the same original index |
| ImageSelect.GroupedCovers | src/app/traffic/page.tsx:151-156 | every image of the group is shown, under its own index |
| ImageSelect.GroupedOneBased | src/app/traffic/page.tsx:146 | phase indices 0 and 1 give the same selection, and index `k >= 1` centres image `k - 1` |
| ImageSelect.CandidatesCascade | src/app/traffic/page.tsx:160-171 | each candidate tier is used exactly when the earlier ones are empty and it is not; candidates are images; none only without images |
| ImageSelect.InsertSorted | src/app/traffic/page.tsx:174-178 | inserting by key keeps a list ordered by key |
| ImageSelect.InsertPermutes | src/app/traffic/page.tsx:174-178 | inserting one image keeps every image, as a permutation |
| ImageSelect.SortSorts | src/app/traffic/page.tsx:174-178 | the sort orders by phase index, missing indices last |
| ImageSelect.SortPermutes | src/app/traffic/page.tsx:174-178 | the sort keeps every candidate, as a permutation |
| ImageSelect.SortIsStable | src/app/traffic/page.tsx:174-178 | images of equal key keep their order |
| ImageSelect.SortByKey | src/app/traffic/page.tsx:174-178 | the stable sort by phase index, missing indices last; `ImageSelect.SortSorts`, `ImageSelect.SortPermutes` and `ImageSelect.SortIsStable` characterise it |
| ImageSelect.FindIndex | src/app/traffic/page.tsx:184 | the first image whose index (or -999) equals the phase's, or -1 when none does |
| ImageSelect.CurrentPos | src/app/traffic/page.tsx:184-186 | the rotation's pivot is a position of the sorted list whenever the list is not empty |
| ImageSelect.FallbackSize | src/app/traffic/page.tsx:174-181 | the fallback shows every candidate once, and nothing only when there are no images |
| ImageSelect.FallbackEntry | src/app/traffic/page.tsx:185-192 | position `i` shows sorted image `(start + i) % n`, numbered by its base index less one, current exactly when its index is the phase's |
| ImageSelect.FallbackCurrent | src/app/traffic/page.tsx:184-192 | when some candidate has the phase's index, the first such is in the middle and current |
| ImageSelect.SelectionSize | src/app/traffic/page.tsx:131-193 | the whole group of the phase's label is shown when present, else the fallback; nothing only when there is nothing to show |
| ImageSelect.LegacyKey | src/app/traffic/page.tsx:74 | the group key of a legacy image: its normalised type code, or "UNKNOWN" without one |
| ImageSelect.FlatImages | src/app/traffic/page.tsx:68-88 | the flat image list for each answer format; `ImageSelect.NormalizeImages` proves the loops compute it |
| ImageSelect.GroupedImages | src/app/traffic/page.tsx:68-88 | the groups for each answer format; stated by `ImageSelect.LegacyGroups`, `ImageSelect.RecordLastWins` and `ImageSelect.RecordMissing` |
| ImageSelect.EntryImages | src/app/traffic/page.tsx:79-86 | the images of a record: every data URL of every array entry, in entry order; stated step by step by `ImageSelect.AppendUntagged` |
| ImageSelect.EntryGroups | src/app/traffic/page.tsx:79-82 | the groups of a record: each array entry replaces its key's group; stated by `ImageSelect.RecordLastWins` and `ImageSelect.RecordMissing` |
| ImageSelect.NormalizeImages | src/app/traffic/page.tsx:68-88 | the normalisation returns the specified flat list and groups for each answer format |
| ImageSelect.NormalizeList | src/app/traffic/page.tsx:72-76 | the legacy list is copied and its data URLs pushed onto the groups of their normalised keys |
| ImageSelect.LegacyGroups | src/app/traffic/page.tsx:72-76 | a key has a group exactly when some image has that key; the group holds that key's data URLs in order; no data URL is lost |
| ImageSelect.NormalizeGroups | src/app/traffic/page.tsx:77-86 | the record loop returns the specified images and groups |
| ImageSelect.AppendUntagged | src/app/traffic/page.tsx:83-85 | every data URL of the entry is appended, tagged with the entry's key and no phase index |
| ImageSelect.RecordLastWins | src/app/traffic/page.tsx:81-82 | the last array entry with a normalised key decides that key's group |
| ImageSelect.RecordMissing | src/app/traffic/page.tsx:80-82 | a key of no array entry has no group |
| Correlator.PageTokens | src/app/api/extract/node/route.ts:98 | the tokens of the page text; `Correlator.PageTokensAreTokens` states their shape |
| Correlator.IsMarker | src/app/api/extract/node/route.ts:107 | `/^分相\s*[:：]?\s*(\d{1,2})?$/`; characterised by `Correlator.MarkerShape` and `Correlator.MarkerParts` |
| Correlator.MarkerShape | src/app/api/extract/node/route.ts:107 | every string made of the marker, white space, an optional ASCII or full-width colon, white space and at most two digits is a marker |
| Correlator.MarkerParts | src/app/api/extract/node/route.ts:107 | every marker is made of the marker, white space, an optional colon, white space and at most two digits |
| Correlator.TypedMarker | src/app/api/extract/node/route.ts:110-112 | a marker right after a case-insensitive two-character code; used by `Correlator.TypedMarkerRestarts` |
| Correlator.Step | src/app/api/extract/node/route.ts:105-127 | one iteration of the token loop; its cases are `Correlator.TypedMarkerRestarts`, `Correlator.MarkerContinues` and `Correlator.OtherTokensIgnored` |
| Correlator.ScanUpTo | src/app/api/extract/node/route.ts:100-128 | the scan state after the first `n` tokens; `Correlator.ScanCoherent`, `Correlator.TagPerMarker` and `Correlator.UntypedUntil` state what it holds |
| Correlator.PageTags | src/app/api/extract/node/route.ts:98-128 | the tags `seq` of one page's text; `Correlator.ScanCoherent`, `Correlator.TagPerMarker` and `Correlator.UntypedUntil` state what they are |
| Correlator.PageTokensAreTokens | src/app/api/extract/node/route.ts:98 | the page's tokens are non-empty and white-space free |
| Correlator.MarkerFormsAccepted | src/app/api/extract/node/route.ts:107 | the marker alone, with a full-width colon and two digits, or with a colon and one digit, is a marker |
| Correlator.MarkerFormsRejected | src/app/api/extract/node/route.ts:107 | three digits, a letter after the colon, or half the marker is not a marker |
| Correlator.ScanMarkers | src/app/api/extract/node/route.ts:100-128 | the token loop returns the tags of the scan specification |
| Correlator.TagPerMarker | src/app/api/extract/node/route.ts:104-127 | the tags are as many as the marker tokens: each marker pushes one, other tokens none |
| Correlator.ScanCoherent | src/app/api/extract/node/route.ts:100-128 | untagged until a type is current, then the last tag is the current type with its counter; every tag has an upper-case code and a number from 1 |
| Correlator.TypedMarkerRestarts | src/app/api/extract/node/route.ts:110-116 | a marker after a type code makes that code, upper-cased, current and is tagged with it and 1 |
| Correlator.MarkerContinues | src/app/api/extract/node/route.ts:122-123 | a later marker without a code before it continues the current type's count by one |
| Correlator.OtherTokensIgnored | src/app/api/extract/node/route.ts:104-108 | a token that is not a marker changes nothing |
| Correlator.UntypedUntil | src/app/api/extract/node/route.ts:118-120 | there is no current type exactly while no marker has followed a code, and until then every tag is untagged |
| Correlator.Extracted | src/app/api/extract/node/route.ts:57-89 | `imagesWithMeta` before assignment: every page's images, in page order and then extraction order, untagged; `Correlator.ExtractedAt`, `Correlator.ExtractedOrder` and `Correlator.ExtractedPage` characterise it |
| Correlator.CollectImages | src/app/api/extract/node/route.ts:57-84 | the collection loop gathers every page's images, in page order and then extraction order |
| Correlator.ExtractedAt | src/app/api/extract/node/route.ts:57-89 | image `i` of page `p` sits after the earlier pages' images, with its page, position and data URL and no tag |
| Correlator.ExtractedOrder | src/app/api/extract/node/route.ts:57-84 | the images run in page order, and within a page in extraction order |
| Correlator.ExtractedPage | src/app/api/extract/node/route.ts:76-82 | every collected image names one of the pages, from 1 on |
| Correlator.AssignTags | src/app/api/extract/node/route.ts:91-144 | the page loop updates the image array in place to the annotated images of the specification |
| Correlator.AssignPage | src/app/api/extract/node/route.ts:130-143 | one page's loop gives image `i` tag `i` if there is one and leaves the others as they are |
| Correlator.Annotated | src/app/api/extract/node/route.ts:91-144 | the images after the assignment loop, each given the tag at its position in its page; `Correlator.AnnotatedAt` and `Correlator.PositionalTags` characterise it |
| Correlator.AnnotatedAt | src/app/api/extract/node/route.ts:130-143 | image `i` of page `p` gets the `i`-th tag of that page, or keeps its fields past the last tag |
| Correlator.PositionalTags | src/app/api/extract/node/route.ts:92-143 | image `i` of a page gets the `i`-th tag of its own page's freshly scanned text, or stays untagged past the last tag |
| Correlator.AllUnknownWithoutPages | src/app/api/extract/node/route.ts:145-156 | without per-page text every image is untagged and all data URLs are in the one group "unknown", in image order |
| Correlator.TagImages | src/app/api/extract/node/route.ts:89-147 | the images after assignment; `Correlator.PositionalTags` and `Correlator.AllUnknownWithoutPages` state them |
| Correlator.GroupKey | src/app/api/extract/node/route.ts:153 | the grouping key: the image's type code, or "unknown" when it has none or an empty one |
| Correlator.GroupByType | src/app/api/extract/node/route.ts:151-156 | the grouping loop pushes each data URL onto the list of its type code, or of "unknown" when it has none |
| Grouping.Bucket | src/app/api/extract/node/route.ts:151-156 | the lists built by pushing each pair's value under its key; `Grouping.BucketContents`, `Grouping.BucketOneKey` and `Grouping.BucketTotal` state them |
| Grouping.Push | src/app/api/extract/node/route.ts:155 | after the push the keys are the old keys plus the pushed key (its list is created when missing) |
| Grouping.BucketContents | src/app/api/extract/node/route.ts:151-156 | a key has a list exactly when some pair has it; the list holds that key's values, in order |
| Grouping.BucketOneKey | src/app/api/extract/node/route.ts:151-156 | pairs all of one key give that key's one list of every value, in order |
| Grouping.BucketTotal | src/app/api/extract/node/route.ts:151-156 | the lists hold as many values as there are pairs: none is lost or duplicated |
| Correlator.ImagesGrouped | src/app/api/extract/node/route.ts:151-156 | a key has a list exactly when some image has that key; the list holds its data URLs in image order; the lists hold as many data URLs as there are images |
| Correlator.ExtractRoute | src/app/api/extract/node/route.ts:57-156 | collection, tag assignment and grouping together give the grouping of the tagged images |
| Pixels.Expand | src/app/api/extract/node/route.ts:67-73 | each RGB triple followed by alpha 255; `Pixels.StripExpand` and `Pixels.ExpandAt` state it |
| Pixels.Rgba | src/app/api/extract/node/route.ts:64-74 | the buffer after the conversion, chosen by the source's length; stated by `Pixels.RgbaFromRgb` and `Pixels.RgbaUnknownLayout` |
| Pixels.StripExpand | src/app/api/extract/node/route.ts:67-73 | dropping the alpha bytes from the widened data gives back the RGB data |
| Pixels.ExpandAt | src/app/api/extract/node/route.ts:68-73 | pixel `k` is written as `src[3k..3k+2]` followed by 255 |
| Pixels.RgbaFromRgb | src/app/api/extract/node/route.ts:67-73 | three bytes per pixel become four, the fourth 255, and the colour bytes are exactly the source's |
| Pixels.RgbaUnknownLayout | src/app/api/extract/node/route.ts:64-74 | data in neither layout leaves the fresh buffer all zero |
| Pixels.CopyPixels | src/app/api/extract/node/route.ts:66 | the copy makes the buffer equal to the source |
| Pixels.WidenPixels | src/app/api/extract/node/route.ts:67-73 | the two-counter loop writes the widened RGB data into the buffer |
| Pixels.FillPixels | src/app/api/extract/node/route.ts:64-74 | the fresh buffer holds the copy, the widened data or zeros, by the source's length |

## Left out

- PDF decoding through `unpdf` (`extractText`, `getDocumentProxy`, `extractImages`) is a foreign call. Its outputs are inputs here: page strings, or one merged string, for the text, and per-page lists of image data URLs for the images.
- The page count (`totalPages`) is the number of image lists. Text entries past the last page are never read.
- `PNG` construction, `PNG.sync.write` and base64 data-URL encoding are library code. The pixel buffer is modelled as a fresh zero-filled array of `4 * width * height` bytes. `Pixels.FillPixels` returns an empty buffer for a zero-size image (`width * height == 0`). The library allocates no buffer for such an image, so `png.data.length` at src/app/api/extract/node/route.ts:66 throws and the route answers with an error (src/app/api/extract/node/route.ts:159-161); that failure is not modelled.
- `png.data.set(src)` is modelled as a copying loop.
- HTTP handling (`fetch`, `NextResponse`, the URL and id parameters, the error responses) is left out. So is the whole of src/app/api/parse/route.ts.
- React state, effects and `setInterval` are left out. The clock is an input: the tick is modelled as building the padded `HH:MM:SS` string from hours, minutes and seconds.
- The rendering (JSX, src/app/traffic/CurrentPhase.tsx, src/app/page.tsx) is left out.
- The debug field `_pageText` is left out, and so is the `imagesWithMeta.find` lookup. The lookup is modelled as alignment by position, since each key `${page}-${i}` is unique.
- `Object.entries` order of the route's answer is an input: the record is given as a list of entries, in order.
- JavaScript numbers are modelled as unbounded integers: no floating point, no NaN beyond `parseInt`, no loss of precision near `Number.MAX_SAFE_INTEGER`. The sort comparator `ai - bi` is modelled as a comparison of keys.
- `String(...)` of values that are not strings is left out; type codes, data URLs and array entries are strings.
- `ImageSelect.SelectImagesForPhase`: the `if (!phase) return []` guard is not modelled; the phase is always a record.
- `PhaseCalc.ComputeCurrentPhase`: requires a well-formed `HH:MM:SS` string, which is what the tick builds. Other strings, which `Number` would read as NaN, are not modelled.
- `ImageSelect.NormalKey`: equality between keys that differ only in the case of non-ASCII letters is not modelled. The model keeps such letters as they are, so a phase label "é" does not find the group "É", while JavaScript upper-cases both to "É" (src/app/traffic/page.tsx:74, 81, 138, 160-162).
