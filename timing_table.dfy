/**
 * The timing-table parser, `parseTrafficLightPDF` in src/lib/trafficParser.ts.
 *
 * It walks the token rows looking for an adjacent pair whose first cells are the labels
 * 時間 ("time") and 時制 ("timing type"). In such a pair the upper row starts with a run of
 * `DD:DD` times; the index where that run stops is the boundary. Column d before the boundary
 * is a schedule entry for weekday d; the cells from the boundary on define one timing type:
 * code, period, offset, direction, label and phase durations.
 *
 * `ParseTimingTable` is the loop as the source writes it; `ScanFrom` is the same scan as a
 * function, and the lemmas below state what the scan produces.
 */
module TimingTable {
  import opened Wrappers
  import opened Text
  import opened Tokenizer
  import Seqs

  /** One timing program (`TrafficLightTimings`). */
  datatype Timing = Timing(period: int, offset: int, direction: int, phaseType: string, phaseDurations: seq<int>)

  /** "From this time on, the day runs timing type `timingType`" (`ScheduleEntry`). */
  datatype Entry = Entry(time: string, timingType: string)

  /** `TrafficLightTimingMap`: type code to definition. */
  type TimingMap = map<string, Timing>

  /** `TrafficLightSchedule`: weekday to its entries, in document order. */
  type Schedule = map<int, seq<Entry>>

  datatype Tables = Tables(timingMap: TimingMap, scheduleMap: Schedule)

  /** The one way the parser fails: `scheduleMap[day]` is `undefined` for a day past 7, and
      calling `push` on it throws a TypeError. */
  datatype ParseError = NoDayList(day: int)

  const TimeLabel: string := "時間"
  const TypeLabel: string := "時制"

  /** The weekdays the schedule is created with. */
  const Days: set<int> := {1, 2, 3, 4, 5, 6, 7}

  function EmptySchedule(): (s: Schedule)
    ensures s.Keys == Days && forall d :: d in s ==> s[d] == []
  {
    map[1 := [], 2 := [], 3 := [], 4 := [], 5 := [], 6 := [], 7 := []]
  }

  function EmptyTables(): Tables
  {
    Tables(map[], EmptySchedule())
  }

  // ---------------------------------------------------------------------------------------
  // One header block

  /** `safe(upper, 0) === "時間" && safe(lower, 0) === "時制"` */
  predicate IsAnchorPair(upper: seq<string>, lower: seq<string>)
  {
    Safe(upper, 0) == TimeLabel && Safe(lower, 0) == TypeLabel
  }

  /** The index where the run of `DD:DD` cells that starts at `b` stops. */
  function BoundaryFrom(upper: seq<string>, b: nat): (r: nat)
    decreases |upper| - b
    ensures b <= r
  {
    if b < |upper| && IsTime(Safe(upper, b)) then BoundaryFrom(upper, b + 1) else b
  }

  /** `boundary`: where the times after the label stop. */
  function Boundary(upper: seq<string>): nat
  {
    BoundaryFrom(upper, 1)
  }

  /** The run stops at the first cell from `b` on that is not a time, or at the end of the row. */
  lemma {:induction false} BoundaryFromIsFirstNonTime(upper: seq<string>, b: nat)
    ensures var r := BoundaryFrom(upper, b);
      (forall k :: b <= k < r ==> IsTime(Safe(upper, k))) &&
      (b <= |upper| ==> r <= |upper|) &&
      (r < |upper| ==> !IsTime(Safe(upper, r)))
    decreases |upper| - b
  {
    if b < |upper| && IsTime(Safe(upper, b)) {
      BoundaryFromIsFirstNonTime(upper, b + 1);
    }
  }

  /** The boundary is the least index from 1 on whose cell is not a `DD:DD` time, or the row
      length when every cell after the label is one. */
  lemma BoundaryIsFirstNonTime(upper: seq<string>)
    requires |upper| >= 1
    ensures 1 <= Boundary(upper) <= |upper|
    ensures forall k :: 1 <= k < Boundary(upper) ==> IsTime(Safe(upper, k))
    ensures Boundary(upper) < |upper| ==> !IsTime(Safe(upper, Boundary(upper)))
  {
    BoundaryFromIsFirstNonTime(upper, 1);
  }

  /** Column `d` holds a schedule entry: a `DD:DD` time above exactly two digits. */
  predicate IsColumn(upper: seq<string>, lower: seq<string>, d: int)
  {
    IsTime(Safe(upper, d)) && IsTwoDigits(Safe(lower, d))
  }

  /** The schedule loop, `for (let day = day; day < boundary; day++)`. */
  function PushDays(upper: seq<string>, lower: seq<string>, day: nat, boundary: nat, sched: Schedule): Result<Schedule, ParseError>
    decreases boundary - day
  {
    if day >= boundary then Ok(sched)
    else if IsColumn(upper, lower, day) then
      if day in sched then
        PushDays(upper, lower, day + 1, boundary, sched[day := sched[day] + [Entry(Safe(upper, day), Safe(lower, day))]])
      else Err(NoDayList(day))
    else PushDays(upper, lower, day + 1, boundary, sched)
  }

  /** The phase durations: `acc` followed by every cell from `j` on that `parseInt` reads, in
      order (inside the row, `safe(upper, j)` is the trimmed cell). */
  function CollectDurations(upper: seq<string>, j: nat, acc: seq<int>): seq<int>
    decreases |upper| - j
  {
    if j >= |upper| then acc
    else match ParseInt(Trim(upper[j]))
      case None => CollectDurations(upper, j + 1, acc)
      case Some(v) => CollectDurations(upper, j + 1, acc + [v])
  }

  function Durations(upper: seq<string>, from: nat): seq<int>
  {
    CollectDurations(upper, from, [])
  }

  /** The type code a block whose times stop at `b` defines, if its cell there is one. */
  function CodeAt(upper: seq<string>, b: nat): Option<string>
  {
    var code := ToUpper(Safe(upper, b));
    if IsTypeCode(code) then Some(code) else None
  }

  /** The definition read from the cells after `b`. */
  function TimingAt(upper: seq<string>, b: nat): Timing
  {
    Timing(IntOrZero(Safe(upper, b + 1)), IntOrZero(Safe(upper, b + 2)), IntOrZero(Safe(upper, b + 3)),
           Safe(upper, b + 4), Durations(upper, b + 5))
  }

  function DefinedCode(upper: seq<string>): Option<string>
  {
    CodeAt(upper, Boundary(upper))
  }

  /** The definition the block stores under its code. */
  function DefinitionOf(upper: seq<string>): Timing
  {
    TimingAt(upper, Boundary(upper))
  }

  /** The definition part: a later block with the same code overwrites the earlier one. */
  function DefineType(upper: seq<string>, tm: TimingMap): TimingMap
  {
    match DefinedCode(upper)
    case None => tm
    case Some(code) => tm[code := DefinitionOf(upper)]
  }

  /** Everything one header block does to the two tables. */
  function ApplyBlock(upper: seq<string>, lower: seq<string>, t: Tables): Result<Tables, ParseError>
  {
    match PushDays(upper, lower, 1, Boundary(upper), t.scheduleMap)
    case Err(e) => Err(e)
    case Ok(s) => Ok(Tables(DefineType(upper, t.timingMap), s))
  }

  // ---------------------------------------------------------------------------------------
  // The scan

  /** The outer loop from row `i` on with tables `t`: an anchor pair is processed and both of
      its rows are skipped; any other row is passed by one. */
  function ScanFrom(rows: seq<seq<string>>, i: nat, t: Tables): Result<Tables, ParseError>
    decreases |rows| - i
  {
    if i + 1 >= |rows| then Ok(t)
    else if !IsAnchorPair(rows[i], rows[i + 1]) then ScanFrom(rows, i + 1, t)
    else match ApplyBlock(rows[i], rows[i + 1], t)
      case Err(e) => Err(e)
      case Ok(t') => ScanFrom(rows, i + 2, t')
  }

  /** What `parseTrafficLightPDF` returns for the token rows; an `Err` is its TypeError. */
  function Parse(rows: seq<seq<string>>): Result<Tables, ParseError>
  {
    ScanFrom(rows, 0, EmptyTables())
  }

  /** The scan loop of `parseTrafficLightPDF`. */
  method ParseTimingTable(rows: seq<seq<string>>) returns (r: Result<Tables, ParseError>)
    ensures r == Parse(rows)
  {
    var timingMap: TimingMap := map[];
    var scheduleMap := EmptySchedule();
    var i := 0;
    while i + 1 < |rows|
      invariant ScanFrom(rows, i, Tables(timingMap, scheduleMap)) == Parse(rows)
      decreases |rows| - i
    {
      var upper := rows[i];
      var lower := rows[i + 1];
      if Safe(upper, 0) != TimeLabel || Safe(lower, 0) != TypeLabel {
        i := i + 1;
        continue;
      }
      var boundary := FindBoundary(upper);
      var pushed := ScheduleColumns(upper, lower, boundary, scheduleMap);
      if pushed.Err? {
        return Err(pushed.error);
      }
      scheduleMap := pushed.value;
      timingMap := DefineTimingType(upper, boundary, timingMap);
      // the `i++` that skips the paired 時制 row, then the loop's own
      i := i + 2;
    }
    return Ok(Tables(timingMap, scheduleMap));
  }

  /** The `while` loop that finds where the times stop. */
  method FindBoundary(upper: seq<string>) returns (boundary: nat)
    ensures boundary == Boundary(upper)
  {
    boundary := 1;
    while boundary < |upper| && IsTime(Safe(upper, boundary))
      invariant 1 <= boundary
      invariant BoundaryFrom(upper, boundary) == Boundary(upper)
      decreases |upper| - boundary
    {
      boundary := boundary + 1;
    }
  }

  /** The schedule part: push every entry column before the boundary onto its weekday. */
  method ScheduleColumns(upper: seq<string>, lower: seq<string>, boundary: nat, sched: Schedule)
    returns (r: Result<Schedule, ParseError>)
    ensures r == PushDays(upper, lower, 1, boundary, sched)
  {
    var scheduleMap := sched;
    var day := 1;
    while day < boundary
      invariant 1 <= day
      invariant PushDays(upper, lower, day, boundary, scheduleMap) == PushDays(upper, lower, 1, boundary, sched)
      decreases boundary - day
    {
      var time := Safe(upper, day);
      var timingType := Safe(lower, day);
      if IsTime(time) && IsTwoDigits(timingType) {
        if day !in scheduleMap {
          return Err(NoDayList(day));
        }
        scheduleMap := scheduleMap[day := scheduleMap[day] + [Entry(time, timingType)]];
      }
      day := day + 1;
    }
    return Ok(scheduleMap);
  }

  /** The type definition part: store the definition when the cell at the boundary, upper-cased,
      is a two-character code. */
  method DefineTimingType(upper: seq<string>, boundary: nat, tm: TimingMap) returns (r: TimingMap)
    requires boundary == Boundary(upper)
    ensures r == DefineType(upper, tm)
  {
    r := tm;
    var typeCode := ToUpper(Safe(upper, boundary));
    if IsTypeCode(typeCode) {
      assert CodeAt(upper, boundary) == Some(typeCode);
      var timing := ReadTiming(upper, boundary);
      r := tm[typeCode := timing];
    } else {
      assert CodeAt(upper, boundary) == None;
    }
  }

  /** The fields of one definition, read from the cells after the boundary. */
  method ReadTiming(upper: seq<string>, boundary: nat) returns (t: Timing)
    ensures t == TimingAt(upper, boundary)
  {
    var period := IntOrZero(Safe(upper, boundary + 1));
    var offset := IntOrZero(Safe(upper, boundary + 2));
    var direction := IntOrZero(Safe(upper, boundary + 3));
    var phaseType := Safe(upper, boundary + 4);
    var phaseDurations := ReadDurations(upper, boundary + 5);
    t := Timing(period, offset, direction, phaseType, phaseDurations);
  }

  /** `for (let j = boundary + 5; j < upper.length; j++)`: collect what `parseInt` reads. */
  method ReadDurations(upper: seq<string>, from: nat) returns (phaseDurations: seq<int>)
    ensures phaseDurations == Durations(upper, from)
  {
    phaseDurations := [];
    var j := from;
    while j < |upper|
      invariant CollectDurations(upper, j, phaseDurations) == Durations(upper, from)
      decreases |upper| - j
    {
      var val := ParseInt(Safe(upper, j));
      if val.Some? {
        phaseDurations := phaseDurations + [val.value];
      }
      j := j + 1;
    }
  }

  // ---------------------------------------------------------------------------------------
  // What the scan produces

  /** The two rows of one anchor pair. */
  datatype Block = Block(upper: seq<string>, lower: seq<string>)

  /** The anchor pairs from row `i` on, in row order. */
  function BlocksFrom(rows: seq<seq<string>>, i: nat): seq<Block>
    decreases |rows| - i
  {
    if i + 1 >= |rows| then []
    else if IsAnchorPair(rows[i], rows[i + 1]) then [Block(rows[i], rows[i + 1])] + BlocksFrom(rows, i + 1)
    else BlocksFrom(rows, i + 1)
  }

  function Blocks(rows: seq<seq<string>>): seq<Block>
  {
    BlocksFrom(rows, 0)
  }

  /** Rows `j` and `j + 1` form the anchor pair `b`. */
  predicate PairAt(rows: seq<seq<string>>, j: nat, b: Block)
  {
    j + 1 < |rows| && IsAnchorPair(rows[j], rows[j + 1]) && b == Block(rows[j], rows[j + 1])
  }

  /** The blocks are exactly the adjacent row pairs that carry the two labels. */
  lemma {:induction false} BlocksFromMembers(rows: seq<seq<string>>, i: nat, b: Block)
    ensures b in BlocksFrom(rows, i) <==> exists j :: i <= j && PairAt(rows, j, b)
    decreases |rows| - i
  {
    if i + 1 < |rows| {
      BlocksFromMembers(rows, i + 1, b);
      if PairAt(rows, i, b) {
        assert b in BlocksFrom(rows, i);
      }
      if exists j :: i <= j && PairAt(rows, j, b) {
        var j :| i <= j && PairAt(rows, j, b);
        if j > i {
          assert b in BlocksFrom(rows, i + 1);
        }
      }
    }
  }

  /** A 時制 row never starts an anchor pair, since its first cell is not 時間. */
  lemma LowerRowIsNoAnchor(rows: seq<seq<string>>, i: nat)
    requires i + 1 < |rows| && IsAnchorPair(rows[i], rows[i + 1])
    ensures BlocksFrom(rows, i + 1) == BlocksFrom(rows, i + 2)
  {
    assert TimeLabel != TypeLabel;
  }

  /** Each block applied in turn; the first failing one ends the fold. */
  function FoldBlocks(blocks: seq<Block>, t: Tables): Result<Tables, ParseError>
  {
    if blocks == [] then Ok(t)
    else match ApplyBlock(blocks[0].upper, blocks[0].lower, t)
      case Err(e) => Err(e)
      case Ok(t') => FoldBlocks(blocks[1..], t')
  }

  /** Skipping the lower row after a match loses no anchor pair: the scan is the fold of every
      anchor pair, in row order. */
  lemma {:induction false} ScanIsFold(rows: seq<seq<string>>, i: nat, t: Tables)
    ensures ScanFrom(rows, i, t) == FoldBlocks(BlocksFrom(rows, i), t)
    decreases |rows| - i
  {
    if i + 1 < |rows| {
      if IsAnchorPair(rows[i], rows[i + 1]) {
        LowerRowIsNoAnchor(rows, i);
        var blocks := BlocksFrom(rows, i);
        assert blocks[0] == Block(rows[i], rows[i + 1]) && blocks[1..] == BlocksFrom(rows, i + 2);
        match ApplyBlock(rows[i], rows[i + 1], t)
        case Err(e) =>
        case Ok(t') =>
          ScanIsFold(rows, i + 2, t');
      } else {
        ScanIsFold(rows, i + 1, t);
      }
    }
  }

  /** Without an anchor pair the parser returns the empty timing map and seven empty days. */
  lemma NoAnchorNoTables(rows: seq<seq<string>>)
    requires forall j :: 0 <= j && j + 1 < |rows| ==> !IsAnchorPair(rows[j], rows[j + 1])
    ensures Parse(rows) == Ok(Tables(map[], map[1 := [], 2 := [], 3 := [], 4 := [], 5 := [], 6 := [], 7 := []]))
  {
    ScanIsFold(rows, 0, EmptyTables());
    if Blocks(rows) != [] {
      var b := Blocks(rows)[0];
      BlocksFromMembers(rows, 0, b);
      assert false;
    }
  }

  // ---------------------------------------------------------------------------------------
  // The schedule part

  /** What column `d` contributes to weekday `d` when the columns `day` .. `boundary - 1` are
      pushed. */
  function Pushed(upper: seq<string>, lower: seq<string>, day: nat, boundary: nat, d: int): seq<Entry>
  {
    if day <= d < boundary && IsColumn(upper, lower, d) then [Entry(Safe(upper, d), Safe(lower, d))] else []
  }

  /** Every entry column among `day` .. `boundary - 1` has a day list in `keys`. */
  predicate Listed(upper: seq<string>, lower: seq<string>, day: nat, boundary: nat, keys: set<int>)
  {
    forall d :: day <= d < boundary && IsColumn(upper, lower, d) ==> d in keys
  }

  lemma ListedStep(upper: seq<string>, lower: seq<string>, day: nat, boundary: nat, keys: set<int>)
    requires day < boundary
    ensures Listed(upper, lower, day, boundary, keys) <==>
      (IsColumn(upper, lower, day) ==> day in keys) && Listed(upper, lower, day + 1, boundary, keys)
  {
  }

  /** The schedule loop succeeds exactly when every entry column has a day list. */
  lemma {:induction false} PushDaysOk(upper: seq<string>, lower: seq<string>, day: nat, boundary: nat, s: Schedule)
    ensures PushDays(upper, lower, day, boundary, s).Ok? <==> Listed(upper, lower, day, boundary, s.Keys)
    decreases boundary - day
  {
    if day < boundary {
      ListedStep(upper, lower, day, boundary, s.Keys);
      if IsColumn(upper, lower, day) {
        if day in s {
          var e := Entry(Safe(upper, day), Safe(lower, day));
          var s1 := s[day := s[day] + [e]];
          assert s1.Keys == s.Keys;
          PushDaysOk(upper, lower, day + 1, boundary, s1);
        }
      } else {
        PushDaysOk(upper, lower, day + 1, boundary, s);
      }
    }
  }

  /** When it succeeds, the schedule loop appends each entry column's entry to its own day, and
      to no other, and keeps the set of days. */
  lemma {:induction false} PushDaysContents(upper: seq<string>, lower: seq<string>, day: nat, boundary: nat, s: Schedule)
    requires PushDays(upper, lower, day, boundary, s).Ok?
    ensures var s' := PushDays(upper, lower, day, boundary, s).value;
      s'.Keys == s.Keys && forall d :: d in s ==> s'[d] == s[d] + Pushed(upper, lower, day, boundary, d)
    decreases boundary - day
  {
    if day < boundary {
      var s' := PushDays(upper, lower, day, boundary, s).value;
      if IsColumn(upper, lower, day) {
        var e := Entry(Safe(upper, day), Safe(lower, day));
        var s1 := s[day := s[day] + [e]];
        PushDaysContents(upper, lower, day + 1, boundary, s1);
        forall d | d in s
          ensures s'[d] == s[d] + Pushed(upper, lower, day, boundary, d)
        {
          if d == day {
            assert s[d] + [e] + [] == s[d] + [e];
          } else {
            PushedLater(upper, lower, day, boundary, d);
          }
        }
      } else {
        PushDaysContents(upper, lower, day + 1, boundary, s);
        forall d | d in s
          ensures s'[d] == s[d] + Pushed(upper, lower, day, boundary, d)
        {
          PushedLater(upper, lower, day, boundary, d);
        }
      }
    }
  }

  lemma PushedLater(upper: seq<string>, lower: seq<string>, day: nat, boundary: nat, d: int)
    requires d != day || !IsColumn(upper, lower, d)
    ensures Pushed(upper, lower, day + 1, boundary, d) == Pushed(upper, lower, day, boundary, d)
  {
  }

  /** When it fails, it fails at the first entry column that has no day list. */
  lemma {:induction false} PushDaysFailure(upper: seq<string>, lower: seq<string>, day: nat, boundary: nat, s: Schedule)
    requires PushDays(upper, lower, day, boundary, s).Err?
    ensures var d := PushDays(upper, lower, day, boundary, s).error.day;
      day <= d < boundary && IsColumn(upper, lower, d) && d !in s && Listed(upper, lower, day, d, s.Keys)
    decreases boundary - day
  {
    var d := PushDays(upper, lower, day, boundary, s).error.day;
    if IsColumn(upper, lower, day) && day in s {
      var e := Entry(Safe(upper, day), Safe(lower, day));
      var s1 := s[day := s[day] + [e]];
      assert s1.Keys == s.Keys;
      PushDaysFailure(upper, lower, day + 1, boundary, s1);
      ListedStep(upper, lower, day, d, s.Keys);
    } else if !IsColumn(upper, lower, day) {
      PushDaysFailure(upper, lower, day + 1, boundary, s);
      ListedStep(upper, lower, day, d, s.Keys);
    }
  }

  /** The entry a block's column `d` contributes to weekday `d`, if any. */
  function ColumnEntries(b: Block, d: int): seq<Entry>
  {
    Pushed(b.upper, b.lower, 1, Boundary(b.upper), d)
  }

  /** Weekday `d`'s entries from the blocks, in row order. */
  function DayEntries(blocks: seq<Block>, d: int): seq<Entry>
  {
    if blocks == [] then [] else ColumnEntries(blocks[0], d) + DayEntries(blocks[1..], d)
  }

  lemma ApplyBlockEffect(b: Block, t: Tables)
    ensures ApplyBlock(b.upper, b.lower, t).Ok? <==> Listed(b.upper, b.lower, 1, Boundary(b.upper), t.scheduleMap.Keys)
    ensures ApplyBlock(b.upper, b.lower, t).Ok? ==>
      var t' := ApplyBlock(b.upper, b.lower, t).value;
      t'.timingMap == DefineType(b.upper, t.timingMap) &&
      t'.scheduleMap.Keys == t.scheduleMap.Keys &&
      forall d :: d in t.scheduleMap ==> t'.scheduleMap[d] == t.scheduleMap[d] + ColumnEntries(b, d)
  {
    PushDaysOk(b.upper, b.lower, 1, Boundary(b.upper), t.scheduleMap);
    if ApplyBlock(b.upper, b.lower, t).Ok? {
      PushDaysContents(b.upper, b.lower, 1, Boundary(b.upper), t.scheduleMap);
    }
  }

  /** The fold succeeds exactly when no block overflows the schedule. */
  lemma {:induction false} FoldOk(blocks: seq<Block>, t: Tables)
    ensures FoldBlocks(blocks, t).Ok? <==> forall b :: b in blocks ==> Listed(b.upper, b.lower, 1, Boundary(b.upper), t.scheduleMap.Keys)
  {
    if blocks != [] {
      ApplyBlockEffect(blocks[0], t);
      match ApplyBlock(blocks[0].upper, blocks[0].lower, t)
      case Err(_) =>
      case Ok(t') =>
        FoldOk(blocks[1..], t');
        assert forall b :: b in blocks <==> b == blocks[0] || b in blocks[1..];
    }
  }

  /** After a successful fold, each day holds its old entries followed by the entries of its
      column in every block, in row order; the set of days is unchanged. */
  lemma {:induction false} FoldSchedule(blocks: seq<Block>, t: Tables)
    requires FoldBlocks(blocks, t).Ok?
    ensures var t' := FoldBlocks(blocks, t).value;
      t'.scheduleMap.Keys == t.scheduleMap.Keys &&
      forall d :: d in t.scheduleMap ==> t'.scheduleMap[d] == t.scheduleMap[d] + DayEntries(blocks, d)
  {
    if blocks == [] {
      forall d | d in t.scheduleMap
        ensures t.scheduleMap[d] == t.scheduleMap[d] + DayEntries(blocks, d)
      {
        assert t.scheduleMap[d] + [] == t.scheduleMap[d];
      }
    } else {
      ApplyBlockEffect(blocks[0], t);
      var t1 := ApplyBlock(blocks[0].upper, blocks[0].lower, t).value;
      assert FoldBlocks(blocks, t) == FoldBlocks(blocks[1..], t1);
      FoldSchedule(blocks[1..], t1);
      var s0, s1, s2 := t.scheduleMap, t1.scheduleMap, FoldBlocks(blocks, t).value.scheduleMap;
      forall d | d in s0
        ensures s2[d] == s0[d] + DayEntries(blocks, d)
      {
        assert s1[d] == s0[d] + ColumnEntries(blocks[0], d);
        assert s2[d] == s1[d] + DayEntries(blocks[1..], d);
        assert DayEntries(blocks, d) == ColumnEntries(blocks[0], d) + DayEntries(blocks[1..], d);
        Seqs.AppendAssoc(s0[d], ColumnEntries(blocks[0], d), DayEntries(blocks[1..], d));
      }
    }
  }

  // ---------------------------------------------------------------------------------------
  // The definition part

  /** The definition of code `c` in the last block that defines it, if any does. */
  function LastDefinition(blocks: seq<Block>, c: string): Option<Timing>
  {
    if blocks == [] then None
    else match LastDefinition(blocks[1..], c)
      case Some(def) => Some(def)
      case None => if DefinedCode(blocks[0].upper) == Some(c) then Some(DefinitionOf(blocks[0].upper)) else None
  }

  /** A later definition of a code overwrites an earlier one and leaves every other code alone:
      after a successful fold, a code has the definition of the last block that defines it, and
      a code that no block defines keeps its old entry, or stays absent. */
  lemma {:induction false} FoldTimings(blocks: seq<Block>, t: Tables, c: string)
    requires FoldBlocks(blocks, t).Ok?
    ensures var tm := FoldBlocks(blocks, t).value.timingMap;
      match LastDefinition(blocks, c)
      case Some(def) => c in tm && tm[c] == def
      case None => (c in tm <==> c in t.timingMap) && (c in tm ==> tm[c] == t.timingMap[c])
  {
    if blocks != [] {
      ApplyBlockEffect(blocks[0], t);
      var t1 := ApplyBlock(blocks[0].upper, blocks[0].lower, t).value;
      assert FoldBlocks(blocks, t) == FoldBlocks(blocks[1..], t1);
      FoldTimings(blocks[1..], t1, c);
    }
  }

  /** Only two-character upper-case codes are defined. */
  lemma {:induction false} LastDefinitionCode(blocks: seq<Block>, c: string)
    requires LastDefinition(blocks, c).Some?
    ensures IsTypeCode(c)
    ensures exists b :: b in blocks && DefinedCode(b.upper) == Some(c) && LastDefinition(blocks, c) == Some(DefinitionOf(b.upper))
  {
    if LastDefinition(blocks[1..], c).Some? {
      LastDefinitionCode(blocks[1..], c);
      var b :| b in blocks[1..] && DefinedCode(b.upper) == Some(c) && LastDefinition(blocks[1..], c) == Some(DefinitionOf(b.upper));
      assert b in blocks;
    } else {
      assert blocks[0] in blocks;
    }
  }

  /** The durations read from a list of cells, head first: every cell `parseInt` reads
      contributes its value, every other cell nothing. */
  function Readable(cells: seq<string>): seq<int>
  {
    if cells == [] then []
    else
      var head := match ParseInt(Trim(cells[0])) case None => [] case Some(v) => [v];
      head + Readable(cells[1..])
  }

  lemma {:induction false} CollectIsReadable(upper: seq<string>, j: nat, acc: seq<int>)
    requires j <= |upper|
    ensures CollectDurations(upper, j, acc) == acc + Readable(upper[j..])
    decreases |upper| - j
  {
    if j == |upper| {
      assert upper[j..] == [];
      assert acc + [] == acc;
    } else {
      var cells, rest := upper[j..], upper[j + 1..];
      assert cells[0] == upper[j] && cells[1..] == rest;
      var r := Readable(rest);
      match ParseInt(Trim(upper[j]))
      case None =>
        assert Readable(cells) == r;
        CollectIsReadable(upper, j + 1, acc);
      case Some(v) =>
        assert Readable(cells) == [v] + r;
        CollectIsReadable(upper, j + 1, acc + [v]);
        Seqs.AppendAssoc(acc, [v], r);
    }
  }

  /** The durations of a definition are what `parseInt` reads from the cells after the label,
      in cell order. */
  lemma DurationsAreReadable(upper: seq<string>, from: nat)
    ensures Durations(upper, from) == if from <= |upper| then Readable(upper[from..]) else []
  {
    if from <= |upper| {
      CollectIsReadable(upper, from, []);
    }
  }

  /** Cells that are the numerals of some integers read back as exactly those integers. */
  lemma {:induction false} ReadableNumerals(ns: seq<int>)
    ensures Readable(Seqs.Map(IntToDecimal, ns)) == ns
  {
    if ns != [] {
      var cells := Seqs.Map(IntToDecimal, ns);
      assert cells[0] == IntToDecimal(ns[0]) && cells[1..] == Seqs.Map(IntToDecimal, ns[1..]);
      NumeralTrimmed(ns[0]);
      ParseIntLeading(ns[0], []);
      assert IntToDecimal(ns[0]) + [] == IntToDecimal(ns[0]);
      ReadableNumerals(ns[1..]);
    }
  }

  lemma NumeralTrimmed(n: int)
    ensures Trim(IntToDecimal(n)) == IntToDecimal(n)
  {
    var s := IntToDecimal(n);
    var ds := NatToDecimal(if n < 0 then -n else n);
    assert forall i :: 0 <= i < |ds| ==> IsDigit(ds[i]);
    assert forall i :: 0 <= i < |s| ==> s[i] == '-' || IsDigit(s[i]);
    TrimOfNoSpace(s);
  }

  // ---------------------------------------------------------------------------------------
  // The whole parse

  /** A failed fold names a day, from 1 on, that has no list. */
  lemma {:induction false} FoldFailure(blocks: seq<Block>, t: Tables)
    requires FoldBlocks(blocks, t).Err?
    ensures 1 <= FoldBlocks(blocks, t).error.day && FoldBlocks(blocks, t).error.day !in t.scheduleMap
  {
    ApplyBlockEffect(blocks[0], t);
    match PushDays(blocks[0].upper, blocks[0].lower, 1, Boundary(blocks[0].upper), t.scheduleMap)
    case Err(_) =>
      PushDaysFailure(blocks[0].upper, blocks[0].lower, 1, Boundary(blocks[0].upper), t.scheduleMap);
    case Ok(_) =>
      var t1 := ApplyBlock(blocks[0].upper, blocks[0].lower, t).value;
      FoldFailure(blocks[1..], t1);
  }

  /** The parser throws exactly when some anchor pair has an entry column whose day is not one
      of 1..7. */
  lemma ParseFailure(rows: seq<seq<string>>)
    ensures Parse(rows).Err? <==> exists b :: b in Blocks(rows) && !Listed(b.upper, b.lower, 1, Boundary(b.upper), Days)
  {
    ScanIsFold(rows, 0, EmptyTables());
    FoldOk(Blocks(rows), EmptyTables());
  }

  /** The day it fails on is past 7: `scheduleMap[8]` and beyond do not exist. */
  lemma ParseFailureDay(rows: seq<seq<string>>)
    requires Parse(rows).Err?
    ensures Parse(rows).error.day >= 8
  {
    var r := FoldBlocks(Blocks(rows), EmptyTables());
    ScanIsFold(rows, 0, EmptyTables());
    assert Parse(rows) == r;
    FoldFailure(Blocks(rows), EmptyTables());
    NotADay(r.error.day);
  }

  lemma NotADay(d: int)
    requires 1 <= d && d !in Days
    ensures d >= 8
  {
  }

  /** Otherwise weekday `d` holds the entries of column `d` of every anchor pair, in row order,
      and there are no other days. */
  lemma ParseSchedule(rows: seq<seq<string>>)
    requires Parse(rows).Ok?
    ensures var sched := Parse(rows).value.scheduleMap;
      sched.Keys == Days && forall d :: d in Days ==> sched[d] == DayEntries(Blocks(rows), d)
  {
    var blocks := Blocks(rows);
    ScanIsFold(rows, 0, EmptyTables());
    FoldSchedule(blocks, EmptyTables());
    forall d | d in Days
      ensures Parse(rows).value.scheduleMap[d] == DayEntries(blocks, d)
    {
      assert [] + DayEntries(blocks, d) == DayEntries(blocks, d);
    }
  }

  /** And each type code maps to the definition of the last anchor pair that defines it; no
      other code is defined. */
  lemma ParseTimings(rows: seq<seq<string>>, c: string)
    requires Parse(rows).Ok?
    ensures var tm := Parse(rows).value.timingMap;
      (c in tm <==> LastDefinition(Blocks(rows), c).Some?) &&
      (c in tm ==> Some(tm[c]) == LastDefinition(Blocks(rows), c))
  {
    ScanIsFold(rows, 0, EmptyTables());
    FoldTimings(Blocks(rows), EmptyTables(), c);
  }
}
