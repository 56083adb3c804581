/**
 * The phase calculator of the viewer, `computeCurrentPhase` in src/app/traffic/page.tsx.
 *
 * Given the time of day as `HH:MM:SS`, a weekday 1..7 and the two tables of the parser, it
 * picks the timing type that the day's schedule has reached, reduces the seconds since midnight
 * modulo the type's period, and walks the prefix sums of the phase durations to find the phase
 * the cycle is in and the seconds left in it.
 *
 * `ComputeCurrentPhase` is the procedure as the source writes it, with its two loops and early
 * returns; `CurrentPhase` is the same computation as a function, and the lemmas below state what
 * it returns.
 */
module PhaseCalc {
  import opened Wrappers
  import opened Text
  import opened TimingTable
  import Arith

  /** `PhaseInfo`: the phase name of the type, the zero-based phase index, the seconds left. */
  datatype PhaseInfo = PhaseInfo(phaseType: string, phaseIndex: int, remainingSeconds: int)

  /** What the calculator returns when there is no schedule for the day or its type is unknown. */
  const NoPhase: PhaseInfo := PhaseInfo("", -1, 0)

  // ---------------------------------------------------------------------------------------
  // The weekday and the clock

  /** `now.getDay() === 0 ? 7 : now.getDay()`: Sunday, day 0 of `Date`, becomes day 7. */
  function Weekday(getDay: int): (d: int)
    requires 0 <= getDay <= 6
    ensures 1 <= d <= 7 && d % 7 == getDay
  {
    if getDay == 0 then 7 else getDay
  }

  /** Distinct days of `Date` are distinct schedule days, so every schedule day 1..7 is reached by
      exactly one day of the week. */
  lemma WeekdayBijective(g1: int, g2: int)
    requires 0 <= g1 <= 6 && 0 <= g2 <= 6
    ensures Weekday(g1) == Weekday(g2) <==> g1 == g2
  {
    assert Weekday(g1) % 7 == g1 && Weekday(g2) % 7 == g2;
  }

  /** The `HH:MM:SS` string the tick builds with `padStart(2, "0")`. */
  predicate IsClock(t: string) {
    |t| == 8 && t[2] == ':' && t[5] == ':' &&
    IsDigit(t[0]) && IsDigit(t[1]) && IsDigit(t[3]) && IsDigit(t[4]) && IsDigit(t[6]) && IsDigit(t[7])
  }

  /** `n.toString().padStart(2, "0")` */
  function Pad2(n: nat): string
    requires n < 100
  {
    if n < 10 then "0" + NatToDecimal(n) else NatToDecimal(n)
  }

  /** `${hh}:${mm}:${ss}` */
  function ClockString(h: nat, m: nat, s: nat): string
    requires h < 24 && m < 60 && s < 60
  {
    Pad2(h) + ":" + Pad2(m) + ":" + Pad2(s)
  }

  lemma Pad2Digits(n: nat)
    requires n < 100
    ensures Pad2(n) == [DigitChar(n / 10), DigitChar(n % 10)]
  {
    if n >= 10 {
      assert NatToDecimal(n / 10) == [DigitChar(n / 10)];
    }
  }

  /** A well-formed clock string splits at its two colons into three two-digit pieces. */
  lemma SplitClock(t: string)
    requires IsClock(t)
    ensures SplitOn(t, ':') == [t[..2], t[3..5], t[6..]]
  {
    var a, b, c := t[..2], t[3..5], t[6..];
    SplitPiece(c, ':', []);
    assert c + [] == c;
    var tail := [':'] + c;
    assert tail[0] == ':' && tail[1..] == c;
    assert SplitOn(tail, ':') == [[]] + [c];
    SplitPiece(b, ':', tail);
    assert b + [] == b;
    var mid := b + tail;
    var tail2 := [':'] + mid;
    assert tail2[0] == ':' && tail2[1..] == mid;
    assert SplitOn(tail2, ':') == [[]] + [b, c];
    SplitPiece(a, ':', tail2);
    assert a + [] == a;
    assert t == a + tail2;
  }

  /** `const [h, m, s] = time.split(":").map(Number)` and `h * 3600 + m * 60 + (s || 0)`. */
  function ClockSeconds(t: string): nat
    requires IsClock(t)
  {
    SplitClock(t);
    var parts := SplitOn(t, ':');
    assert AllDigits(parts[0]) && AllDigits(parts[1]) && AllDigits(parts[2]);
    DigitsValue(parts[0]) * 3600 + DigitsValue(parts[1]) * 60 + DigitsValue(parts[2])
  }

  lemma TwoDigitsValue(p: string, n: nat)
    requires n < 100 && p == [DigitChar(n / 10), DigitChar(n % 10)]
    ensures AllDigits(p) && DigitsValue(p) == n
  {
    var hi, lo := DigitChar(n / 10), DigitChar(n % 10);
    assert p[..1] == [hi] && p[..1][..0] == [];
    assert DigitsValue(p[..1]) == DigitValue(hi) == n / 10;
    assert DigitsValue(p) == 10 * (n / 10) + n % 10;
  }

  /** The string the tick builds reads back as the seconds since midnight. */
  lemma ClockRoundTrip(h: nat, m: nat, s: nat)
    requires h < 24 && m < 60 && s < 60
    ensures IsClock(ClockString(h, m, s)) && ClockSeconds(ClockString(h, m, s)) == h * 3600 + m * 60 + s
  {
    var t := ClockString(h, m, s);
    Pad2Digits(h);
    Pad2Digits(m);
    Pad2Digits(s);
    assert t == Pad2(h) + ":" + Pad2(m) + ":" + Pad2(s);
    assert t[..2] == Pad2(h) && t[3..5] == Pad2(m) && t[6..] == Pad2(s);
    SplitClock(t);
    TwoDigitsValue(t[..2], h);
    TwoDigitsValue(t[3..5], m);
    TwoDigitsValue(t[6..], s);
  }

  // ---------------------------------------------------------------------------------------
  // The active timing type

  /** The `for (const s of schedule)` loop from entry `k` on, with `cur` the type so far: each
      entry whose time is not after `time` makes its type current; the first later entry ends
      the walk. */
  function ActiveFrom(schedule: seq<Entry>, time: string, k: nat, cur: string): string
    decreases |schedule| - k
  {
    if k >= |schedule| then cur
    else if StrLe(schedule[k].time, time) then ActiveFrom(schedule, time, k + 1, schedule[k].timingType)
    else cur
  }

  /** The type the loop leaves in `currentTimingType`, starting from the first entry's type. */
  function ActiveType(schedule: seq<Entry>, time: string): string
    requires schedule != []
  {
    ActiveFrom(schedule, time, 0, schedule[0].timingType)
  }

  /** How many entries from `k` on the walk passes: the first index whose time is after
      `time`, or the length of the schedule. */
  function ReachedFrom(schedule: seq<Entry>, time: string, k: nat): (n: nat)
    decreases |schedule| - k
    ensures k <= n && (k <= |schedule| ==> n <= |schedule|)
  {
    if k < |schedule| && StrLe(schedule[k].time, time) then ReachedFrom(schedule, time, k + 1) else k
  }

  lemma {:induction false} ReachedFromBounds(schedule: seq<Entry>, time: string, k: nat)
    requires k <= |schedule|
    ensures var n := ReachedFrom(schedule, time, k);
      k <= n <= |schedule| &&
      (forall j :: k <= j < n ==> StrLe(schedule[j].time, time)) &&
      (n < |schedule| ==> !StrLe(schedule[n].time, time))
    decreases |schedule| - k
  {
    if k < |schedule| && StrLe(schedule[k].time, time) {
      ReachedFromBounds(schedule, time, k + 1);
    }
  }

  lemma {:induction false} ActiveFromReached(schedule: seq<Entry>, time: string, k: nat, cur: string)
    requires k <= |schedule|
    ensures var n := ReachedFrom(schedule, time, k);
      ActiveFrom(schedule, time, k, cur) == if n == k then cur else schedule[n - 1].timingType
    decreases |schedule| - k
  {
    if k < |schedule| && StrLe(schedule[k].time, time) {
      ActiveFromReached(schedule, time, k + 1, schedule[k].timingType);
    }
  }

  /** The active type is that of the last entry of the leading run of entries whose time is not
      after `time`; when the first entry is already later, it is the first entry's type. */
  lemma ActiveTypeIsLastReached(schedule: seq<Entry>, time: string)
    requires schedule != []
    ensures var n := ReachedFrom(schedule, time, 0);
      n <= |schedule| &&
      (forall j :: 0 <= j < n ==> StrLe(schedule[j].time, time)) &&
      (n < |schedule| ==> !StrLe(schedule[n].time, time)) &&
      ActiveType(schedule, time) == if n == 0 then schedule[0].timingType else schedule[n - 1].timingType
  {
    ReachedFromBounds(schedule, time, 0);
    ActiveFromReached(schedule, time, 0, schedule[0].timingType);
  }

  /** The day's entries are in time order. */
  predicate SortedByTime(schedule: seq<Entry>) {
    forall i, j :: 0 <= i < j < |schedule| ==> StrLe(schedule[i].time, schedule[j].time)
  }

  /** For a schedule in time order the walk passes exactly the entries whose time is not after
      `time`: the active type is the type of the latest entry that has started. */
  lemma SortedReached(schedule: seq<Entry>, time: string)
    requires schedule != [] && SortedByTime(schedule)
    ensures var n := ReachedFrom(schedule, time, 0);
      forall j :: 0 <= j < |schedule| ==> (StrLe(schedule[j].time, time) <==> j < n)
  {
    var n := ReachedFrom(schedule, time, 0);
    ReachedFromBounds(schedule, time, 0);
    forall j | n <= j < |schedule|
      ensures !StrLe(schedule[j].time, time)
    {
      if StrLe(schedule[j].time, time) {
        StrLeTrans(schedule[n].time, schedule[j].time, time);
      }
    }
  }

  lemma {:induction false} StrLeTrans(a: string, b: string, c: string)
    requires StrLe(a, b) && StrLe(b, c)
    ensures StrLe(a, c)
    decreases |a|
  {
    if a != [] && b != [] && c != [] && a[0] == b[0] && b[0] == c[0] {
      StrLeTrans(a[1..], b[1..], c[1..]);
    }
  }

  // ---------------------------------------------------------------------------------------
  // The start of the type

  /** The `type` property of a schedule entry. Entries carry `time` and `timingType` only, so
      reading `e.type` yields `undefined`. */
  function TypeProperty(e: Entry): Option<string>
  {
    None
  }

  /** `[...schedule].reverse().find((e) => e.type === currentTimingType)`: the last entry whose
      `type` property is the active type. */
  function Lookback(schedule: seq<Entry>, c: string): Option<Entry>
  {
    if schedule == [] then None
    else if TypeProperty(schedule[|schedule| - 1]) == Some(c) then Some(schedule[|schedule| - 1])
    else Lookback(schedule[..|schedule| - 1], c)
  }

  /** `startH * 3600 + startM * 60` for `lastEntry?.time ?? "00:00"`. */
  function StartSeconds(schedule: seq<Entry>, c: string): nat
  {
    match Lookback(schedule, c)
    case None => 0
    case Some(e) => if IsTime(e.time) then DigitsValue(e.time[..2]) * 3600 + DigitsValue(e.time[3..]) * 60 else 0
  }

  /** As written, the lookback never finds an entry, so the cycle is always counted from
      midnight, whatever the schedule says. */
  lemma {:induction false} LookbackNeverMatches(schedule: seq<Entry>, c: string)
    ensures Lookback(schedule, c) == None
    ensures StartSeconds(schedule, c) == 0
  {
    if schedule != [] {
      LookbackNeverMatches(schedule[..|schedule| - 1], c);
    }
  }

  // ---------------------------------------------------------------------------------------
  // The position in the cycle

  function Abs(x: int): nat {
    if x < 0 then -x else x
  }

  /** JavaScript's `a % b`: the remainder of the division truncated toward zero. It has the sign
      of `a`, is smaller than `b` in magnitude, and differs from `a` by a multiple of `b`. */
  function JsRem(a: int, b: int): (r: int)
    requires b != 0
    ensures Abs(r) < Abs(b)
    ensures a >= 0 ==> r >= 0
    ensures a < 0 ==> r <= 0
  {
    if a >= 0 then a % Abs(b) else -((-a) % Abs(b))
  }

  /** `a - JsRem(a, b)` is a multiple of `b`. */
  lemma JsRemMultiple(a: int, b: int)
    requires b != 0
    ensures exists q :: a - JsRem(a, b) == q * b
  {
    var m := Abs(b);
    if a >= 0 {
      assert a == (a / m) * m + a % m;
      WitnessMultiple(a - JsRem(a, b), a / m, b);
    } else {
      assert -a == ((-a) / m) * m + (-a) % m;
      WitnessMultiple(a - JsRem(a, b), -((-a) / m), b);
    }
  }

  lemma WitnessMultiple(x: int, k: int, b: int)
    requires b != 0 && x == k * Abs(b)
    ensures exists q :: x == q * b
  {
    if b < 0 {
      assert x == (-k) * b;
    } else {
      assert x == k * b;
    }
  }

  /** `type.period || 1`: a zero period counts as one second. */
  function CycleLength(period: int): (p: int)
    ensures p != 0
  {
    if period == 0 then 1 else period
  }

  /** `elapsed`: `((total - start - offset) % p + p) % p` with JavaScript's remainder. */
  function Elapsed(total: int, start: int, offset: int, period: int): int
  {
    var p := CycleLength(period);
    JsRem(JsRem(total - start - offset, p) + p, p)
  }

  /** For a positive period the double remainder is the Euclidean remainder of the offset time:
      the position in the cycle, from 0 to `period - 1`. */
  lemma ElapsedInCycle(total: int, start: int, offset: int, period: int)
    requires period > 0
    ensures Elapsed(total, start, offset, period) == (total - start - offset) % period
    ensures 0 <= Elapsed(total, start, offset, period) < period
  {
    var x := total - start - offset;
    var r := JsRem(x, period);
    if x >= 0 {
      // r = x % period: the added period is taken off again
      Arith.ModUnique(r + period, period, 1, r);
    } else {
      var k := (-x) / period;
      assert -x == k * period + (-x) % period;
      if r == 0 {
        Arith.ModUnique(period, period, 1, 0);
        Arith.ModUnique(x, period, -k, 0);
      } else {
        // r < 0: one period lifts it into the cycle
        Arith.ModUnique(r + period, period, 0, r + period);
        Arith.ModUnique(x, period, -k - 1, r + period);
      }
    }
  }

  /** A zero period makes every moment the start of the cycle. */
  lemma ElapsedZeroPeriod(total: int, start: int, offset: int)
    ensures Elapsed(total, start, offset, 0) == 0
  {
    ElapsedInCycle(total, start, offset, 1);
  }

  // ---------------------------------------------------------------------------------------
  // The phase

  function Max(a: int, b: int): int {
    if a >= b then a else b
  }

  /** The `for (let i = 0; ...)` loop over the durations from index `i` on, with `sum` the total
      of the durations before `i`: the first phase whose running total passes `elapsed`, or the
      last phase with no time left when none does. */
  function PhaseFrom(name: string, ds: seq<int>, i: nat, sum: int, elapsed: int): PhaseInfo
    decreases |ds| - i
  {
    if i >= |ds| then PhaseInfo(name, |ds| - 1, 0)
    else
      var sum' := sum + ds[i];
      if elapsed < sum' then PhaseInfo(name, i, Max(0, sum' - elapsed))
      else PhaseFrom(name, ds, i + 1, sum', elapsed)
  }

  /** The phase of timing `t` at position `elapsed` in its cycle. */
  function PhaseAt(t: Timing, elapsed: int): PhaseInfo
  {
    PhaseFrom(t.phaseType, t.phaseDurations, 0, 0, elapsed)
  }

  /** The total of the first `n` durations. */
  function SumTo(ds: seq<int>, n: nat): int
    requires n <= |ds|
  {
    if n == 0 then 0 else SumTo(ds, n - 1) + ds[n - 1]
  }

  /** The total of the durations up to and including phase `j`. */
  function RunningTotal(ds: seq<int>, j: nat): int
    requires j < |ds|
  {
    SumTo(ds, j + 1)
  }

  /** Some running total passes `elapsed`. */
  predicate Passes(ds: seq<int>, elapsed: int) {
    exists k :: 0 <= k < |ds| && elapsed < RunningTotal(ds, k)
  }

  lemma {:induction false} PhaseFromFound(name: string, ds: seq<int>, i: nat, elapsed: int, k: nat)
    requires i <= k < |ds|
    requires elapsed < RunningTotal(ds, k)
    requires forall j :: i <= j < k ==> RunningTotal(ds, j) <= elapsed
    ensures PhaseFrom(name, ds, i, SumTo(ds, i), elapsed) ==
      PhaseInfo(name, k, RunningTotal(ds, k) - elapsed)
    decreases |ds| - i
  {
    assert RunningTotal(ds, i) == SumTo(ds, i) + ds[i];
    if i < k {
      assert RunningTotal(ds, i) <= elapsed;
      PhaseFromFound(name, ds, i + 1, elapsed, k);
    }
  }

  lemma {:induction false} PhaseFromExhausted(name: string, ds: seq<int>, i: nat, elapsed: int)
    requires i <= |ds|
    requires forall j :: i <= j < |ds| ==> RunningTotal(ds, j) <= elapsed
    ensures PhaseFrom(name, ds, i, SumTo(ds, i), elapsed) == PhaseInfo(name, |ds| - 1, 0)
    decreases |ds| - i
  {
    if i < |ds| {
      assert RunningTotal(ds, i) == SumTo(ds, i) + ds[i] <= elapsed;
      PhaseFromExhausted(name, ds, i + 1, elapsed);
    }
  }

  /** The phase is the first one whose running total passes `elapsed`, with the seconds up to
      that total left. */
  lemma PhaseAtFirstPassing(t: Timing, elapsed: int, k: nat)
    requires k < |t.phaseDurations|
    requires elapsed < RunningTotal(t.phaseDurations, k)
    requires forall j :: 0 <= j < k ==> RunningTotal(t.phaseDurations, j) <= elapsed
    ensures PhaseAt(t, elapsed) == PhaseInfo(t.phaseType, k, RunningTotal(t.phaseDurations, k) - elapsed)
  {
    PhaseFromFound(t.phaseType, t.phaseDurations, 0, elapsed, k);
  }

  /** When no running total passes `elapsed`, the result is the last index (-1 without
      durations) with no time left. */
  lemma PhaseAtExhausted(t: Timing, elapsed: int)
    requires !Passes(t.phaseDurations, elapsed)
    ensures PhaseAt(t, elapsed) == PhaseInfo(t.phaseType, |t.phaseDurations| - 1, 0)
  {
    PhaseFromExhausted(t.phaseType, t.phaseDurations, 0, elapsed);
  }

  /** The least index from `i` on whose running total passes `elapsed`, given that none
      before `i` does and `k` does. */
  lemma {:induction false} FirstPassing(ds: seq<int>, elapsed: int, i: nat, k: nat) returns (m: nat)
    requires i <= k < |ds| && elapsed < RunningTotal(ds, k)
    requires forall j :: 0 <= j < i ==> RunningTotal(ds, j) <= elapsed
    ensures m <= k && elapsed < RunningTotal(ds, m)
    ensures forall j :: 0 <= j < m ==> RunningTotal(ds, j) <= elapsed
    decreases k - i
  {
    if elapsed < RunningTotal(ds, i) {
      m := i;
    } else {
      m := FirstPassing(ds, elapsed, i + 1, k);
    }
  }

  /** The phase is the first one whose running total passes `elapsed`, with the seconds up to
      that total left; when none does, it is the last index (-1 without durations) with
      nothing left. */
  lemma PhaseAtIsFirstPassing(t: Timing, elapsed: int)
    ensures var r, ds := PhaseAt(t, elapsed), t.phaseDurations;
      r.phaseType == t.phaseType &&
      (Passes(ds, elapsed) ==>
        0 <= r.phaseIndex < |ds| && elapsed < RunningTotal(ds, r.phaseIndex) &&
        (forall j :: 0 <= j < r.phaseIndex ==> RunningTotal(ds, j) <= elapsed) &&
        r.remainingSeconds == RunningTotal(ds, r.phaseIndex) - elapsed) &&
      (!Passes(ds, elapsed) ==> r.phaseIndex == |ds| - 1 && r.remainingSeconds == 0)
  {
    var ds := t.phaseDurations;
    if Passes(ds, elapsed) {
      var k :| 0 <= k < |ds| && elapsed < RunningTotal(ds, k);
      var m := FirstPassing(ds, elapsed, 0, k);
      PhaseAtFirstPassing(t, elapsed, m);
    } else {
      PhaseAtExhausted(t, elapsed);
    }
  }

  /** From a non-negative position in the cycle, the phase found has between one second and its
      whole duration left. */
  lemma PhaseRemaining(t: Timing, elapsed: int)
    requires 0 <= elapsed
    requires Passes(t.phaseDurations, elapsed)
    ensures var r := PhaseAt(t, elapsed);
      0 <= r.phaseIndex < |t.phaseDurations| &&
      1 <= r.remainingSeconds <= t.phaseDurations[r.phaseIndex]
  {
    var ds := t.phaseDurations;
    PhaseAtIsFirstPassing(t, elapsed);
    var m := PhaseAt(t, elapsed).phaseIndex;
    if m > 0 {
      assert RunningTotal(ds, m - 1) <= elapsed;
    }
    assert RunningTotal(ds, m) == SumTo(ds, m) + ds[m];
  }

  // ---------------------------------------------------------------------------------------
  // The whole calculation

  /** What `computeCurrentPhase(time, dayOfWeek, typeMap, scheduleMap)` returns. */
  function CurrentPhase(time: string, day: int, typeMap: TimingMap, scheduleMap: Schedule): PhaseInfo
    requires IsClock(time)
  {
    if day !in scheduleMap || scheduleMap[day] == [] then NoPhase
    else
      var schedule := scheduleMap[day];
      var c := ActiveType(schedule, time);
      if c !in typeMap then NoPhase
      else
        var t := typeMap[c];
        PhaseAt(t, Elapsed(ClockSeconds(time), StartSeconds(schedule, c), t.offset, t.period))
  }

  /** `computeCurrentPhase` as the source writes it. */
  method ComputeCurrentPhase(time: string, day: int, typeMap: TimingMap, scheduleMap: Schedule)
    returns (info: PhaseInfo)
    requires IsClock(time)
    ensures info == CurrentPhase(time, day, typeMap, scheduleMap)
  {
    if day !in scheduleMap || scheduleMap[day] == [] {
      return NoPhase;
    }
    var schedule := scheduleMap[day];
    var currentTimingType := FindActiveType(schedule, time);
    if currentTimingType !in typeMap {
      return NoPhase;
    }
    var t := typeMap[currentTimingType];
    var totalSeconds := ClockSeconds(time);
    var startSec := StartSeconds(schedule, currentTimingType);
    var elapsed := Elapsed(totalSeconds, startSec, t.offset, t.period);
    info := FindPhase(t, elapsed);
  }

  /** The loop that walks the schedule while its entries have started. */
  method FindActiveType(schedule: seq<Entry>, time: string) returns (currentTimingType: string)
    requires schedule != []
    ensures currentTimingType == ActiveType(schedule, time)
  {
    currentTimingType := schedule[0].timingType;
    var k := 0;
    while k < |schedule|
      invariant k <= |schedule|
      invariant ActiveFrom(schedule, time, k, currentTimingType) == ActiveType(schedule, time)
      decreases |schedule| - k
    {
      if StrLe(schedule[k].time, time) {
        currentTimingType := schedule[k].timingType;
      } else {
        break;
      }
      k := k + 1;
    }
  }

  /** The loop that accumulates the durations until the total passes `elapsed`. */
  method FindPhase(t: Timing, elapsed: int) returns (info: PhaseInfo)
    ensures info == PhaseAt(t, elapsed)
  {
    var ds := t.phaseDurations;
    var sum := 0;
    var i := 0;
    while i < |ds|
      invariant i <= |ds|
      invariant PhaseFrom(t.phaseType, ds, i, sum, elapsed) == PhaseAt(t, elapsed)
      decreases |ds| - i
    {
      sum := sum + ds[i];
      if elapsed < sum {
        return PhaseInfo(t.phaseType, i, Max(0, sum - elapsed));
      }
      i := i + 1;
    }
    return PhaseInfo(t.phaseType, |ds| - 1, 0);
  }

  // ---------------------------------------------------------------------------------------
  // What the calculation returns

  /** A day without entries, or whose active type has no definition, gives the sentinel. */
  lemma CurrentPhaseUnresolved(time: string, day: int, typeMap: TimingMap, scheduleMap: Schedule)
    requires IsClock(time)
    requires day !in scheduleMap || scheduleMap[day] == [] || ActiveType(scheduleMap[day], time) !in typeMap
    ensures CurrentPhase(time, day, typeMap, scheduleMap) == PhaseInfo("", -1, 0)
  {
  }

  /** Otherwise the phase is that of the active type's definition at the seconds since midnight,
      less the offset, reduced modulo the period; a zero period pins it to the start of the
      cycle. */
  lemma CurrentPhaseResolved(time: string, day: int, typeMap: TimingMap, scheduleMap: Schedule)
    requires IsClock(time)
    requires day in scheduleMap && scheduleMap[day] != [] && ActiveType(scheduleMap[day], time) in typeMap
    ensures var t := typeMap[ActiveType(scheduleMap[day], time)];
      var r := CurrentPhase(time, day, typeMap, scheduleMap);
      r == PhaseAt(t, Elapsed(ClockSeconds(time), 0, t.offset, t.period)) &&
      (t.period > 0 ==> r == PhaseAt(t, (ClockSeconds(time) - t.offset) % t.period)) &&
      (t.period == 0 ==> r == PhaseAt(t, 0))
  {
    var schedule := scheduleMap[day];
    var c := ActiveType(schedule, time);
    var t := typeMap[c];
    LookbackNeverMatches(schedule, c);
    if t.period > 0 {
      ElapsedInCycle(ClockSeconds(time), 0, t.offset, t.period);
    } else if t.period == 0 {
      ElapsedZeroPeriod(ClockSeconds(time), 0, t.offset);
    }
  }

  /** Every resolved result is well formed: it carries the type's phase label and an index
      from -1 to the last phase; for a non-negative period either some phase is running, with
      between one second and its whole duration left, or the cycle has run past the last running
      total and the last index is returned with nothing left. */
  lemma CurrentPhaseWellFormed(time: string, day: int, typeMap: TimingMap, scheduleMap: Schedule)
    requires IsClock(time)
    requires day in scheduleMap && scheduleMap[day] != [] && ActiveType(scheduleMap[day], time) in typeMap
    ensures var t := typeMap[ActiveType(scheduleMap[day], time)];
      var r := CurrentPhase(time, day, typeMap, scheduleMap);
      r.phaseType == t.phaseType && -1 <= r.phaseIndex < |t.phaseDurations| &&
      (t.period >= 0 ==>
        (0 <= r.phaseIndex && 1 <= r.remainingSeconds <= t.phaseDurations[r.phaseIndex]) ||
        (r.phaseIndex == |t.phaseDurations| - 1 && r.remainingSeconds == 0))
  {
    var t := typeMap[ActiveType(scheduleMap[day], time)];
    CurrentPhaseResolved(time, day, typeMap, scheduleMap);
    var e := Elapsed(ClockSeconds(time), 0, t.offset, t.period);
    PhaseAtIsFirstPassing(t, e);
    if t.period >= 0 {
      if t.period > 0 {
        ElapsedInCycle(ClockSeconds(time), 0, t.offset, t.period);
      }
      if Passes(t.phaseDurations, e) {
        PhaseRemaining(t, e);
      }
    }
  }
}
