/**
 * Weekly schedules: window text, the split interval table and the next boundary.
 *
 * Minutes of the week run from 0 (Monday 00:00) to 10079 (Sunday 23:59).
 */
module Schedule {
  import opened Common
  import opened Text

  const WEEK_MINUTES := 10080
  const DAY_MINUTES := 1440

  /** Half-open stretch of minutes inside one week. */
  datatype Interval = Interval(start: int, end: int)

  /** A window as written by the user: the same daily period on some weekdays. */
  datatype Window = Window(days: set<int>, start: int, end: int)

  datatype ParsedWindow = WindowError | WindowIntervals(intervals: seq<Interval>)

  predicate ValidInterval(i: Interval) {
    0 <= i.start < i.end <= WEEK_MINUTES
  }

  predicate ValidIntervals(intervals: seq<Interval>) {
    forall i :: 0 <= i < |intervals| ==> ValidInterval(intervals[i])
  }

  predicate ValidWindow(w: Window) {
    && 0 <= w.start < DAY_MINUTES
    && 0 <= w.end < DAY_MINUTES
    && forall d :: d in w.days ==> 0 <= d < 7
  }

  predicate Covers(i: Interval, minute: int) {
    i.start <= minute < i.end
  }

  /** Some interval of the table contains the minute. */
  predicate Active(intervals: seq<Interval>, minute: int) {
    exists i :: 0 <= i < |intervals| && Covers(intervals[i], minute)
  }

  // ----- The meaning of a window, independent of how it is stored -----

  /** The minute of the week `x` falls on, counting around the week. */
  function Wrap(x: int): (m: int)
    ensures 0 <= m < WEEK_MINUTES
  {
    x % 10080
  }

  /** How long the daily period lasts; equal bounds mean the whole day. */
  function WindowLength(w: Window): int {
    if w.start < w.end then w.end - w.start else w.end - w.start + DAY_MINUTES
  }

  /** The minute at which the period of one weekday opens. */
  function WindowOpening(w: Window, day: int): int {
    day * 1440 + if w.start == w.end then 0 else w.start
  }

  /** A minute lies in a weekday's period when it follows the opening, around the week, by less than the length. */
  predicate InDay(w: Window, day: int, minute: int) {
    Wrap(minute - WindowOpening(w, day)) < WindowLength(w)
  }

  lemma InDayLinear(w: Window, day: int, minute: int)
    requires ValidWindow(w) && 0 <= day < 7 && 0 <= minute < WEEK_MINUTES
    ensures var open := WindowOpening(w, day); var close := open + WindowLength(w);
            InDay(w, day, minute) <==> open <= minute < close || open <= minute + WEEK_MINUTES < close
  {
  }

  predicate InWindow(w: Window, minute: int) {
    exists day :: day in w.days && InDay(w, day, minute)
  }

  // ----- Window text -----

  predicate IsDayListChar(c: char) {
    'a' <= c <= 'z' || c == '*' || c == ','
  }

  /** `HH:MM` */
  predicate TimeShape(t: string) {
    |t| == 5 && IsDigit(t[0]) && IsDigit(t[1]) && t[2] == ':' && IsDigit(t[3]) && IsDigit(t[4])
  }

  predicate DayListShape(t: string) {
    t != [] && forall i :: 0 <= i < |t| ==> IsDayListChar(t[i])
  }

  /** `DAYS@HH:MM-HH:MM`, the only accepted shape. */
  predicate WindowShape(spec: string) {
    var n := |spec| - 12;
    && n >= 1
    && DayListShape(spec[..n])
    && spec[n] == '@'
    && TimeShape(spec[n + 1..n + 6])
    && spec[n + 6] == '-'
    && TimeShape(spec[n + 7..])
  }

  function TwoDigits(a: char, b: char): (n: nat)
    requires IsDigit(a) && IsDigit(b)
    ensures n < 100
  {
    DigitValue(a) * 10 + DigitValue(b)
  }

  function ParseTime(t: string): (r: Option<int>)
    requires TimeShape(t)
    ensures r.Some? ==> 0 <= r.value < DAY_MINUTES
  {
    var hour, minute := TwoDigits(t[0], t[1]), TwoDigits(t[3], t[4]);
    if hour <= 23 && minute <= 59 then Some(hour * 60 + minute) else None
  }

  function DayIndex(token: string): (r: Option<int>)
    ensures r.Some? ==> 0 <= r.value < 7
  {
    if token == "mon" then Some(0)
    else if token == "tue" then Some(1)
    else if token == "wed" then Some(2)
    else if token == "thu" then Some(3)
    else if token == "fri" then Some(4)
    else if token == "sat" then Some(5)
    else if token == "sun" then Some(6)
    else None
  }

  predicate NamesDay(token: string) {
    DayIndex(token).Some?
  }

  function NamedDays(tokens: seq<string>): (days: set<int>)
    ensures forall d :: d in days ==> 0 <= d < 7
  {
    set t | t in tokens && NamesDay(t) :: DayIndex(t).value
  }

  predicate AllNameDays(tokens: seq<string>) {
    forall i :: 0 <= i < |tokens| ==> NamesDay(tokens[i])
  }

  /** The weekdays a day list selects. */
  function DenotedDays(text: string): (r: Option<set<int>>)
    ensures r.Some? ==> forall d :: d in r.value ==> 0 <= d < 7
  {
    if text == "*" then Some({0, 1, 2, 3, 4, 5, 6})
    else
      var tokens := Split(text, ',');
      if AllNameDays(tokens) then Some(NamedDays(tokens)) else None
  }

  /** The window a text denotes, or nothing when the text is not a window. */
  function DenotedWindow(value: string): (r: Option<Window>)
    ensures r.Some? ==> ValidWindow(r.value)
  {
    var spec := Lower(Trim(value));
    if !WindowShape(spec) then None
    else
      var n := |spec| - 12;
      var start := ParseTime(spec[n + 1..n + 6]);
      var end := ParseTime(spec[n + 7..]);
      var days := DenotedDays(spec[..n]);
      if start.None? || end.None? || days.None? then None
      else Some(Window(days.value, start.value, end.value))
  }

  // ----- Interval table -----

  /** Appends `[start, end)`, cut in two where it runs past the end of the week. */
  function AddInterval(intervals: seq<Interval>, start: int, end: int): seq<Interval> {
    if end <= WEEK_MINUTES then intervals + [Interval(start, end)]
    else intervals + [Interval(start, WEEK_MINUTES), Interval(0, end - WEEK_MINUTES)]
  }

  function AddDay(intervals: seq<Interval>, day: int, start: int, end: int): seq<Interval> {
    var base := day * 1440;
    if start == end then AddInterval(intervals, base, base + DAY_MINUTES)
    else if start < end then AddInterval(intervals, base + start, base + end)
    else AddInterval(intervals, base + start, base + DAY_MINUTES + end)
  }

  lemma ActiveConcat(a: seq<Interval>, b: seq<Interval>, minute: int)
    ensures Active(a + b, minute) <==> Active(a, minute) || Active(b, minute)
  {
    if Active(a, minute) {
      var i :| 0 <= i < |a| && Covers(a[i], minute);
      assert Covers((a + b)[i], minute);
    }
    if Active(b, minute) {
      var i :| 0 <= i < |b| && Covers(b[i], minute);
      assert Covers((a + b)[|a| + i], minute);
    }
  }

  /** What AddInterval contributes, for a period that opens inside the week. */
  lemma AddIntervalMeaning(intervals: seq<Interval>, start: int, end: int, minute: int)
    requires ValidIntervals(intervals) && 0 <= start < WEEK_MINUTES && start < end <= start + DAY_MINUTES
    requires 0 <= minute < WEEK_MINUTES
    ensures ValidIntervals(AddInterval(intervals, start, end))
    ensures AddInterval(intervals, start, end) != []
    ensures Active(AddInterval(intervals, start, end), minute) <==>
            Active(intervals, minute) || start <= minute < end || start <= minute + WEEK_MINUTES < end
  {
    if end <= WEEK_MINUTES {
      var added := [Interval(start, end)];
      ActiveConcat(intervals, added, minute);
      assert Active(added, minute) <==> Covers(added[0], minute);
    } else {
      var added := [Interval(start, WEEK_MINUTES), Interval(0, end - WEEK_MINUTES)];
      ActiveConcat(intervals, added, minute);
      assert Active(added, minute) <==> Covers(added[0], minute) || Covers(added[1], minute);
    }
  }

  /** Splitting one weekday's period keeps exactly the minutes of the period, around the week. */
  lemma AddDayMeaning(intervals: seq<Interval>, w: Window, day: int, minute: int)
    requires ValidWindow(w) && 0 <= day < 7 && 0 <= minute < WEEK_MINUTES
    requires ValidIntervals(intervals)
    ensures ValidIntervals(AddDay(intervals, day, w.start, w.end))
    ensures AddDay(intervals, day, w.start, w.end) != []
    ensures Active(AddDay(intervals, day, w.start, w.end), minute)
       <==> Active(intervals, minute) || InDay(w, day, minute)
  {
    InDayLinear(w, day, minute);
    var open := WindowOpening(w, day);
    AddIntervalMeaning(intervals, open, open + WindowLength(w), minute);
  }

  /** The table covers exactly the listed weekdays' periods. */
  predicate TableMeans(intervals: seq<Interval>, w: Window, days: seq<int>) {
    && ValidIntervals(intervals)
    && forall m :: 0 <= m < WEEK_MINUTES ==>
         (Active(intervals, m) <==> exists k :: 0 <= k < |days| && InDay(w, days[k], m))
  }

  lemma TableMeansStep(intervals: seq<Interval>, w: Window, days: seq<int>, day: int)
    requires ValidWindow(w) && 0 <= day < 7 && TableMeans(intervals, w, days)
    ensures TableMeans(AddDay(intervals, day, w.start, w.end), w, days + [day])
    ensures AddDay(intervals, day, w.start, w.end) != []
  {
    var r := AddDay(intervals, day, w.start, w.end);
    AddDayMeaning(intervals, w, day, 0);
    forall m | 0 <= m < WEEK_MINUTES
      ensures Active(r, m) <==> exists k :: 0 <= k < |days + [day]| && InDay(w, (days + [day])[k], m)
    {
      AddDayMeaning(intervals, w, day, m);
      if InDay(w, day, m) { assert (days + [day])[|days|] == day; }
      if Active(intervals, m) {
        var k :| 0 <= k < |days| && InDay(w, days[k], m);
        assert (days + [day])[k] == days[k];
      }
    }
  }

  /** The weekdays of a day list in order of first mention, without repetition. */
  method ParseDays(text: string) returns (days: Option<seq<int>>)
    ensures days.None? <==> DenotedDays(text).None?
    ensures days.Some? ==> days.value != []
    ensures days.Some? ==> forall d :: d in days.value <==> d in DenotedDays(text).value
  {
    if text == "*" { return Some([0, 1, 2, 3, 4, 5, 6]); }
    var tokens := Split(text, ',');
    var found: seq<int> := [];
    for i := 0 to |tokens|
      invariant AllNameDays(tokens[..i])
      invariant found == [] ==> i == 0
      invariant forall d :: d in found <==> d in NamedDays(tokens[..i])
    {
      assert tokens[..i + 1] == tokens[..i] + [tokens[i]];
      var day := DayIndex(tokens[i]);
      if day.None? {
        assert !NamesDay(tokens[i]);
        return None;
      }
      assert NamesDay(tokens[i]);
      assert NamedDays(tokens[..i + 1]) == NamedDays(tokens[..i]) + {day.value};
      if day.value !in found {
        found := found + [day.value];
      }
    }
    assert tokens[..|tokens|] == tokens;
    return Some(found);
  }

  /** parse_window: reads one window text and splits it into intervals of the week. */
  method ParseWindow(value: string) returns (r: ParsedWindow)
    ensures r.WindowError? <==> DenotedWindow(value).None?
    ensures r.WindowIntervals? ==> ValidIntervals(r.intervals) && r.intervals != []
    ensures r.WindowIntervals? ==> forall m :: 0 <= m < WEEK_MINUTES ==>
              (Active(r.intervals, m) <==> InWindow(DenotedWindow(value).value, m))
  {
    var spec := Lower(Trim(value));
    if !WindowShape(spec) { return WindowError; }
    var n := |spec| - 12;
    var start := ParseTime(spec[n + 1..n + 6]);
    var end := ParseTime(spec[n + 7..]);
    if start.None? || end.None? { return WindowError; }
    var days := ParseDays(spec[..n]);
    if days.None? { return WindowError; }
    var w := DenotedWindow(value).value;
    assert w == Window(DenotedDays(spec[..n]).value, start.value, end.value);
    hide DenotedWindow, WindowShape, DenotedDays, ValidIntervals;
    var intervals := SplitDays(w, days.value);
    TableOfWindow(intervals, w, days.value);
    return WindowIntervals(intervals);
  }

  /** A table that means the window's days means the window. */
  lemma TableOfWindow(intervals: seq<Interval>, w: Window, days: seq<int>)
    requires TableMeans(intervals, w, days) && forall d :: d in w.days <==> d in days
    ensures ValidIntervals(intervals)
    ensures forall m :: 0 <= m < WEEK_MINUTES ==> (Active(intervals, m) <==> InWindow(w, m))
  {
    hide Active, InDay, ValidIntervals;
    forall m | 0 <= m < WEEK_MINUTES
      ensures Active(intervals, m) <==> InWindow(w, m)
    {
      if InWindow(w, m) {
        var d :| d in w.days && InDay(w, d, m);
        assert d in days;
      }
    }
  }

  method SplitDays(w: Window, days: seq<int>) returns (intervals: seq<Interval>)
    requires ValidWindow(w) && forall d :: d in days ==> 0 <= d < 7
    ensures TableMeans(intervals, w, days)
    ensures intervals == [] ==> days == []
  {
    intervals := [];
    for i := 0 to |days|
      invariant intervals == [] ==> i == 0
      invariant TableMeans(intervals, w, days[..i])
    {
      assert days[i] in days;
      TableMeansStep(intervals, w, days[..i], days[i]);
      assert days[..i + 1] == days[..i] + [days[i]];
      intervals := AddDay(intervals, days[i], w.start, w.end);
    }
    assert days[..|days|] == days;
  }

  // ----- A list of windows -----

  /** The text is a window and the minute lies in it. */
  predicate TextCovers(value: string, minute: int) {
    DenotedWindow(value).Some? && InWindow(DenotedWindow(value).value, minute)
  }

  predicate InSomeWindow(values: seq<string>, minute: int) {
    exists i :: 0 <= i < |values| && TextCovers(values[i], minute)
  }

  predicate IsWindow(value: string) {
    DenotedWindow(value).Some?
  }

  predicate AllWindows(values: seq<string>) {
    forall i :: 0 <= i < |values| ==> IsWindow(values[i])
  }

  /** The clock is valid and the schedule is made of windows. */
  predicate Schedulable(schedule: seq<string>, epoch: int) {
    epoch >= CLOCK_VALID_AFTER && schedule != [] && AllWindows(schedule)
  }

  lemma InSomeWindowStep(values: seq<string>, value: string, minute: int)
    ensures InSomeWindow(values + [value], minute) <==> InSomeWindow(values, minute) || TextCovers(value, minute)
  {
    if InSomeWindow(values, minute) {
      var k :| 0 <= k < |values| && TextCovers(values[k], minute);
      assert (values + [value])[k] == values[k];
    }
    if TextCovers(value, minute) {
      assert (values + [value])[|values|] == value;
    }
  }

  predicate TableCoversTexts(intervals: seq<Interval>, values: seq<string>) {
    && ValidIntervals(intervals)
    && forall m :: 0 <= m < WEEK_MINUTES ==> (Active(intervals, m) <==> InSomeWindow(values, m))
  }

  lemma TableCoversTextsStep(intervals: seq<Interval>, values: seq<string>, value: string, more: seq<Interval>)
    requires TableCoversTexts(intervals, values) && ValidIntervals(more)
    requires forall m :: 0 <= m < WEEK_MINUTES ==> (Active(more, m) <==> TextCovers(value, m))
    ensures TableCoversTexts(intervals + more, values + [value])
  {
    forall m | 0 <= m < WEEK_MINUTES
      ensures Active(intervals + more, m) <==> InSomeWindow(values + [value], m)
    {
      ActiveConcat(intervals, more, m);
      InSomeWindowStep(values, value, m);
    }
  }

  lemma NoWindow(value: string)
    requires !IsWindow(value)
    ensures forall m :: !TextCovers(value, m) && !Active([], m)
  {
  }

  /** One text of the list: its intervals, or nothing when it is no window. */
  method WindowOf(value: string) returns (more: seq<Interval>, error: bool)
    ensures error <==> !IsWindow(value)
    ensures !error ==> more != []
    ensures ValidIntervals(more) && forall m :: 0 <= m < WEEK_MINUTES ==> (Active(more, m) <==> TextCovers(value, m))
  {
    var parsed := ParseWindow(value);
    if parsed.WindowError? {
      NoWindow(value);
      return [], true;
    }
    return parsed.intervals, false;
  }

  lemma NoTexts()
    ensures TableCoversTexts([], []) && AllWindows([])
  {
  }

  lemma AllWindowsStep(values: seq<string>, value: string)
    ensures AllWindows(values + [value]) <==> AllWindows(values) && IsWindow(value)
  {
    hide IsWindow;
    assert (values + [value])[|values|] == value && forall i :: 0 <= i < |values| ==> (values + [value])[i] == values[i];
  }

  /** compile_windows: the concatenated interval table and the number of rejected texts. */
  method CompileWindows(values: seq<string>) returns (intervals: seq<Interval>, errors: nat)
    ensures errors == 0 <==> AllWindows(values)
    ensures errors == 0 && values != [] ==> intervals != []
    ensures values == [] ==> intervals == []
    ensures TableCoversTexts(intervals, values)
  {
    intervals, errors := [], 0;
    hide IsWindow, TextCovers, InSomeWindow, Active, TableCoversTexts, ValidIntervals, AllWindows;
    NoTexts();
    assert values[..0] == [];
    for i := 0 to |values|
      invariant errors == 0 <==> AllWindows(values[..i])
      invariant errors == 0 && intervals == [] ==> i == 0
      invariant i == 0 ==> intervals == []
      invariant TableCoversTexts(intervals, values[..i])
    {
      assert values[..i + 1] == values[..i] + [values[i]];
      var more, error := WindowOf(values[i]);
      if error { errors := errors + 1; }
      AllWindowsStep(values[..i], values[i]);
      TableCoversTextsStep(intervals, values[..i], values[i], more);
      intervals := intervals + more;
    }
    assert values[..|values|] == values;
  }

  /** schedule_state: linear search of the interval table. */
  method ScheduleState(intervals: seq<Interval>, minute: int) returns (active: bool)
    ensures active <==> Active(intervals, minute)
  {
    for i := 0 to |intervals|
      invariant forall k :: 0 <= k < i ==> !Covers(intervals[k], minute)
    {
      if Covers(intervals[i], minute) { return true; }
    }
    return false;
  }

  // ----- Next boundary -----

  /** Minutes from `minute` until the next occurrence of a boundary, at least one. */
  function Delta(boundary: int, minute: int): (d: int)
    ensures 1 <= d <= WEEK_MINUTES
  {
    var d := Wrap(boundary - minute + WEEK_MINUTES);
    if d == 0 then WEEK_MINUTES else d
  }

  /** No end point of the interval occurs in the `d - 1` minutes after `minute`. */
  predicate QuietFor(i: Interval, minute: int, d: int) {
    d <= Delta(i.start, minute) && d <= Delta(i.end, minute)
  }

  predicate AllQuietFor(intervals: seq<Interval>, minute: int, d: int) {
    forall i :: 0 <= i < |intervals| ==> QuietFor(intervals[i], minute, d)
  }

  /** Some end point occurs exactly `d` minutes after `minute`. */
  predicate BoundaryAt(intervals: seq<Interval>, minute: int, d: int) {
    exists i :: 0 <= i < |intervals| && (d == Delta(intervals[i].start, minute) || d == Delta(intervals[i].end, minute))
  }

  function Nearer(best: Option<int>, delta: int): Option<int> {
    if best.None? || delta < best.value then Some(delta) else best
  }

  /** next_boundary: the least distance to any interval end point. */
  method NextBoundary(intervals: seq<Interval>, minute: int) returns (best: Option<int>)
    ensures best.None? <==> intervals == []
    ensures best.Some? ==> 1 <= best.value <= WEEK_MINUTES
    ensures best.Some? ==> AllQuietFor(intervals, minute, best.value) && BoundaryAt(intervals, minute, best.value)
  {
    best := None;
    for i := 0 to |intervals|
      invariant best.None? <==> i == 0
      invariant best.Some? ==> 1 <= best.value <= WEEK_MINUTES
      invariant best.Some? ==> AllQuietFor(intervals[..i], minute, best.value)
      invariant best.Some? ==> BoundaryAt(intervals[..i], minute, best.value)
    {
      ghost var was := best;
      var ends := [intervals[i].start, intervals[i].end];
      for j := 0 to 2
        invariant j == 0 ==> best == was
        invariant j == 1 ==> best == Nearer(was, Delta(intervals[i].start, minute))
        invariant j == 2 ==> best == Nearer(Nearer(was, Delta(intervals[i].start, minute)), Delta(intervals[i].end, minute))
      {
        var delta := Wrap(ends[j] - minute + WEEK_MINUTES);
        if delta == 0 { delta := WEEK_MINUTES; }
        if best.None? || delta < best.value {
          best := Some(delta);
        }
      }
      NearestStep(intervals[..i], intervals[i], minute, was, best);
      assert intervals[..i + 1] == intervals[..i] + [intervals[i]];
    }
    assert intervals[..|intervals|] == intervals;
  }

  lemma NearestStep(intervals: seq<Interval>, i: Interval, minute: int, was: Option<int>, best: Option<int>)
    requires best == Nearer(Nearer(was, Delta(i.start, minute)), Delta(i.end, minute))
    requires was.None? <==> intervals == []
    requires was.Some? ==> AllQuietFor(intervals, minute, was.value) && BoundaryAt(intervals, minute, was.value)
    ensures best.Some? && AllQuietFor(intervals + [i], minute, best.value)
    ensures BoundaryAt(intervals + [i], minute, best.value)
  {
    if was == best {
      var k :| 0 <= k < |intervals| &&
        (best.value == Delta(intervals[k].start, minute) || best.value == Delta(intervals[k].end, minute));
      assert (intervals + [i])[k] == intervals[k];
    } else {
      assert (intervals + [i])[|intervals|] == i;
    }
    forall k | 0 <= k < |intervals + [i]|
      ensures QuietFor((intervals + [i])[k], minute, best.value)
    {
      if k < |intervals| { assert QuietFor(intervals[k], minute, was.value); }
    }
  }

  /** The state is the same on every minute before the first boundary. */
  lemma {:induction false} ConstantBeforeBoundary(intervals: seq<Interval>, minute: int, d: int, k: int)
    requires ValidIntervals(intervals) && 0 <= minute < WEEK_MINUTES && d <= WEEK_MINUTES
    requires AllQuietFor(intervals, minute, d) && 0 <= k < d
    ensures Active(intervals, Wrap(minute + k)) <==> Active(intervals, minute)
    decreases k
  {
  }

  // ----- Epochs -----

  /** Local clock with a fixed offset: the minute of the week and the second of the minute. */
  function WeeklyMinute(epoch: int, offset: int): (m: int)
    ensures 0 <= m < WEEK_MINUTES
  {
    Wrap((epoch + offset) / 60)
  }

  function SecondOfMinute(epoch: int, offset: int): (s: int)
    ensures 0 <= s < 60
  {
    (epoch + offset) % 60
  }

  datatype Evaluation = Failed | Evaluated(active: bool, nextEpoch: int)

  /** An instant before the announced epoch falls on one of the minutes before the boundary. */
  lemma MinuteOffset(epoch: int, offset: int, t: int, d: int) returns (k: int)
    requires epoch <= t < epoch - SecondOfMinute(epoch, offset) + d * 60
    ensures 0 <= k < d && WeeklyMinute(t, offset) == Wrap(WeeklyMinute(epoch, offset) + k)
  {
    var a, b := (epoch + offset) / 60, (t + offset) / 60;
    k := b - a;
    WrapAdd(a, k);
  }

  lemma WrapAdd(a: int, k: int)
    ensures Wrap(Wrap(a) + k) == Wrap(a + k)
  {
  }

  /** The schedule's state stays `active` from `epoch` until `next`. */
  predicate HoldsUntil(values: seq<string>, offset: int, epoch: int, next: int, active: bool) {
    forall t :: epoch <= t < next ==> (InSomeWindow(values, WeeklyMinute(t, offset)) <==> active)
  }

  lemma NextEpochSound(intervals: seq<Interval>, values: seq<string>, epoch: int, offset: int, d: int)
    requires TableCoversTexts(intervals, values) && 1 <= d <= WEEK_MINUTES
    requires AllQuietFor(intervals, WeeklyMinute(epoch, offset), d)
    ensures HoldsUntil(values, offset, epoch, epoch - SecondOfMinute(epoch, offset) + d * 60,
                       InSomeWindow(values, WeeklyMinute(epoch, offset)))
  {
    hide InSomeWindow, Active, AllQuietFor;
    var minute := WeeklyMinute(epoch, offset);
    forall t | epoch <= t < epoch - SecondOfMinute(epoch, offset) + d * 60
      ensures InSomeWindow(values, WeeklyMinute(t, offset)) <==> InSomeWindow(values, minute)
    {
      var k := MinuteOffset(epoch, offset, t, d);
      ConstantBeforeBoundary(intervals, minute, d, k);
    }
  }

  /** evaluate_schedule: the present state and the instant until which it is sure to last. */
  method EvaluateSchedule(values: seq<string>, epoch: int, offset: int) returns (r: Evaluation)
    ensures r.Failed? <==> epoch < CLOCK_VALID_AFTER || values == [] || !AllWindows(values)
    ensures r.Evaluated? ==> (r.active <==> InSomeWindow(values, WeeklyMinute(epoch, offset)))
    ensures r.Evaluated? ==> epoch < r.nextEpoch <= epoch + WEEK_MINUTES * 60
    ensures r.Evaluated? ==> HoldsUntil(values, offset, epoch, r.nextEpoch, r.active)
  {
    var intervals, errors := CompileWindows(values);
    if intervals == [] || errors > 0 || epoch < CLOCK_VALID_AFTER {
      return Failed;
    }
    var minute := WeeklyMinute(epoch, offset);
    var active := ScheduleState(intervals, minute);
    var delta := NextBoundary(intervals, minute);
    NextEpochSound(intervals, values, epoch, offset, delta.value);
    return Evaluated(active, epoch - SecondOfMinute(epoch, offset) + delta.value * 60);
  }

  /** safety_delay_ms: the timer never sleeps past an announced transition, nor past five minutes. */
  function SafetyDelayMs(enabled: bool, nextTransition: Option<int>, epoch: int, safetyInterval: int): (delay: int)
    ensures 250 <= delay <= 300000
    ensures enabled && nextTransition.Some? && nextTransition.value > epoch ==>
              epoch * 1000 + delay <= nextTransition.value * 1000
  {
    var safety := if safetyInterval < 5 || safetyInterval > 300 then 60 else safetyInterval;
    var base := safety * 1000;
    var boundary := if enabled && nextTransition.Some? then (nextTransition.value - epoch) * 1000 else 0;
    var delay := if boundary > 0 && boundary < base then boundary else base;
    if delay < 250 then 250 else delay
  }
}
