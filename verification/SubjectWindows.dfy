/**
 * The rate windows of all subjects: looked up and created on demand by any number of CPUs, and cleared subject by
 * subject when a new classifier generation is published.
 *
 * A cleared window is forgotten by the map, but CPUs that had found it still take from it.
 */
module SubjectWindows {
  import opened PackedWord
  import R = RateWindow

  /** Where a CPU stands in ca_admit_classification, after the global window. */
  datatype Cpu =
    | Idle
    | Seeking(subject: nat, created: bool)
    | Creating(subject: nat)
    | Found(window: nat)
    | Loaded(window: nat, attempt: nat, second: nat, seen: nat)

  /** One window that was ever created: its owner, its word, and the seconds of its takes. */
  datatype Window = Window(owner: nat, word: nat, takes: seq<nat>)

  datatype State = State(windows: seq<Window>, current: map<nat, nat>, cpus: seq<Cpu>)

  datatype Event = Enter(cpu: nat, subject: nat) | Seek(cpu: nat) | Create(cpu: nat, ok: bool)
                 | Load(cpu: nat, nowNs: nat) | Swap(cpu: nat) | Clear(subject: nat)

  function At(s: State, c: nat, x: Cpu): State
    requires c < |s.cpus|
  {
    s.(cpus := s.cpus[c := x])
  }

  /** The body of the loop of ca_rate_take on the window that was found. */
  function SwapStep(limit: nat, s: State, c: nat): State
    requires c < |s.cpus| && s.cpus[c].Loaded?
  {
    var Loaded(w, attempt, second, seen) := s.cpus[c];
    if w >= |s.windows| || (second == Hi(seen) && Lo(seen) >= limit) then At(s, c, Idle)
    else
      var window := s.windows[w];
      if window.word == seen then
        At(s, c, Idle).(windows := s.windows[w := Window(window.owner, R.Taken(second, seen), window.takes + [second])])
      else if attempt + 1 < CAS_ATTEMPTS then At(s, c, Loaded(w, attempt + 1, second, window.word))
      else At(s, c, Idle)
  }

  function CreateStep(s: State, c: nat, ok: bool): State
    requires c < |s.cpus| && s.cpus[c].Creating?
  {
    var subject := s.cpus[c].subject;
    var r := At(s, c, Seeking(subject, true));
    if ok && subject !in s.current then
      r.(windows := s.windows + [Window(subject, 0, [])], current := s.current[subject := |s.windows|])
    else r
  }

  function SeekStep(s: State, c: nat): State
    requires c < |s.cpus| && s.cpus[c].Seeking?
  {
    var Seeking(subject, created) := s.cpus[c];
    if subject in s.current then At(s, c, Found(s.current[subject]))
    else At(s, c, if created then Idle else Creating(subject))
  }

  function Step(limit: nat, s: State, e: Event): State {
    if e.Clear? then s.(current := s.current - {e.subject})
    else if e.cpu >= |s.cpus| then s
    else
      match (e, s.cpus[e.cpu])
      case (Enter(c, subject), Idle) => At(s, c, Seeking(subject, false))
      case (Seek(c), Seeking(_, _)) => SeekStep(s, c)
      case (Create(c, ok), Creating(_)) => CreateStep(s, c, ok)
      case (Load(c, now), Found(w)) =>
        if w < |s.windows| then At(s, c, Loaded(w, 0, R.Second(now), s.windows[w].word)) else At(s, c, Idle)
      case (Swap(c), Loaded(_, _, _, _)) => SwapStep(limit, s, c)
      case _ => s
  }

  function Start(n: nat): State {
    State([], map[], seq(n, i => Idle))
  }

  function Run(limit: nat, n: nat, events: seq<Event>): State {
    if events == [] then Start(n) else Step(limit, Run(limit, n, events[..|events| - 1]), events[|events| - 1])
  }

  // ----- Each window by itself is a rate window -----

  function ViewCpu(c: Cpu, w: nat): R.Cpu {
    if c.Loaded? && c.window == w then R.Loaded(c.attempt, c.second, c.seen) else R.Idle
  }

  /** What the machine looks like from one window. */
  function View(s: State, w: nat): R.State
    requires w < |s.windows|
  {
    R.State(s.windows[w].word, seq(|s.cpus|, i requires 0 <= i < |s.cpus| => ViewCpu(s.cpus[i], w)), s.windows[w].takes)
  }

  /** The step as one window sees it. */
  function Seen(s: State, e: Event, w: nat): seq<R.Event> {
    if e.Clear? || e.cpu >= |s.cpus| || w >= |s.windows| then []
    else
      match (e, s.cpus[e.cpu])
      case (Load(c, now), Found(x)) => if x == w then [R.Load(c, now)] else []
      case (Swap(c), Loaded(x, _, _, _)) => if x == w then [R.Swap(c)] else []
      case _ => []
  }

  function EventsOf(limit: nat, n: nat, events: seq<Event>, w: nat): seq<R.Event> {
    if events == [] then []
    else
      var m := |events| - 1;
      EventsOf(limit, n, events[..m], w) + Seen(Run(limit, n, events[..m]), events[m], w)
  }

  /** Packets only know windows that exist, and the map only those of its subjects. */
  predicate Known(s: State) {
    && (forall c :: 0 <= c < |s.cpus| ==> KnownCpu(s, s.cpus[c]))
    && (forall k :: k in s.current ==> s.current[k] < |s.windows| && s.windows[s.current[k]].owner == k)
  }

  predicate KnownCpu(s: State, c: Cpu) {
    (c.Found? || c.Loaded? ==> c.window < |s.windows|)
  }

  lemma MoveKeepsKnown(limit: nat, s: State, e: Event)
    requires Known(s) && (e.Enter? || e.Seek? || e.Load? || e.Clear?)
    ensures Known(Step(limit, s, e))
  {
  }

  lemma CreateKeepsKnown(s: State, c: nat, ok: bool)
    requires Known(s) && c < |s.cpus| && s.cpus[c].Creating?
    ensures Known(CreateStep(s, c, ok))
  {
  }

  lemma SwapKeepsKnown(limit: nat, s: State, c: nat)
    requires Known(s) && c < |s.cpus| && s.cpus[c].Loaded?
    ensures Known(SwapStep(limit, s, c))
  {
    hide Hi, Lo, R.Taken;
  }

  lemma StepKeepsKnown(limit: nat, s: State, e: Event)
    requires Known(s)
    ensures Known(Step(limit, s, e))
  {
    hide Known, SwapStep, CreateStep, SeekStep;
    match e
    case Create(c, ok) => if c < |s.cpus| && s.cpus[c].Creating? { CreateKeepsKnown(s, c, ok); }
    case Swap(c) => if c < |s.cpus| && s.cpus[c].Loaded? { SwapKeepsKnown(limit, s, c); }
    case _ => MoveKeepsKnown(limit, s, e);
  }

  /** Windows are only added, and keep their owner. */
  lemma StepKeepsWindows(limit: nat, s: State, e: Event)
    ensures var r := Step(limit, s, e);
            && |r.cpus| == |s.cpus| && |s.windows| <= |r.windows| <= |s.windows| + 1
            && forall w :: 0 <= w < |s.windows| ==> r.windows[w].owner == s.windows[w].owner
  {
    hide Hi, Lo, R.Taken;
  }

  lemma SameView(a: State, b: State, w: nat)
    requires w < |a.windows| && w < |b.windows| && |a.cpus| == |b.cpus|
    requires a.windows[w].word == b.windows[w].word && a.windows[w].takes == b.windows[w].takes
    requires forall c :: 0 <= c < |a.cpus| ==> ViewCpu(a.cpus[c], w) == ViewCpu(b.cpus[c], w)
    ensures View(a, w) == View(b, w)
  {
    hide ViewCpu;
  }

  /** A view with one CPU moved. */
  lemma MovedView(s: State, c: nat, x: Cpu, w: nat)
    requires w < |s.windows| && c < |s.cpus|
    ensures View(At(s, c, x), w) == View(s, w).(cpus := View(s, w).cpus[c := ViewCpu(x, w)])
  {
    hide ViewCpu;
  }

  lemma SwapSeen(limit: nat, s: State, c: nat, w: nat)
    requires Known(s) && w < |s.windows| && c < |s.cpus| && s.cpus[c].Loaded?
    ensures |SwapStep(limit, s, c).windows| == |s.windows|
    ensures View(SwapStep(limit, s, c), w) ==
            if s.cpus[c].window == w then R.Step(limit, View(s, w), R.Swap(c)) else View(s, w)
  {
    hide Hi, Lo, R.Taken, View;
    var Loaded(x, attempt, second, seen) := s.cpus[c];
    MovedView(s, c, Idle, w);
    MovedView(s, c, Loaded(x, attempt + 1, second, s.windows[x].word), w);
    ViewParts(s, c, w);
    var r := SwapStep(limit, s, c);
    if r.windows != s.windows {
      var done := At(s, c, Idle);
      if x == w { TakenView(done, w, R.Taken(second, seen), second); } else { SameView(done, r, w); }
    }
  }

  /** The window's own part of a view, and the view of one CPU. */
  lemma ViewParts(s: State, c: nat, w: nat)
    requires w < |s.windows| && c < |s.cpus|
    ensures View(s, w).word == s.windows[w].word && View(s, w).takes == s.windows[w].takes
    ensures |View(s, w).cpus| == |s.cpus| && View(s, w).cpus[c] == ViewCpu(s.cpus[c], w)
    ensures View(s, w).cpus[c := View(s, w).cpus[c]] == View(s, w).cpus
  {
    hide ViewCpu;
  }

  lemma TakenView(s: State, w: nat, word: nat, second: nat)
    requires w < |s.windows|
    ensures var window := Window(s.windows[w].owner, word, s.windows[w].takes + [second]);
            View(s.(windows := s.windows[w := window]), w) == R.State(word, View(s, w).cpus, View(s, w).takes + [second])
  {
    hide ViewCpu;
  }

  lemma CreateSeen(s: State, c: nat, ok: bool, w: nat)
    requires w < |s.windows| && c < |s.cpus| && s.cpus[c].Creating?
    ensures View(CreateStep(s, c, ok), w) == View(s, w)
  {
    hide View;
    SameView(s, CreateStep(s, c, ok), w);
  }

  lemma MoveSeen(limit: nat, s: State, e: Event, w: nat)
    requires w < |s.windows| && (e.Enter? || e.Seek? || e.Load? || e.Clear?)
    ensures |Step(limit, s, e).windows| == |s.windows|
    ensures var seen := Seen(s, e, w);
            View(Step(limit, s, e), w) == if seen == [] then View(s, w) else R.Step(limit, View(s, w), seen[0])
  {
    hide View, R.Second;
    if !e.Clear? && e.cpu < |s.cpus| {
      var r := Step(limit, s, e);
      MovedView(s, e.cpu, r.cpus[e.cpu], w);
      ViewParts(s, e.cpu, w);
    } else {
      SameView(s, Step(limit, s, e), w);
    }
  }

  /** Every step is a step of the window it concerns, and none of any other. */
  lemma StepSeen(limit: nat, s: State, e: Event, w: nat)
    requires Known(s) && w < |s.windows|
    ensures w < |Step(limit, s, e).windows| && |Seen(s, e, w)| <= 1
    ensures var seen := Seen(s, e, w);
            View(Step(limit, s, e), w) == if seen == [] then View(s, w) else R.Step(limit, View(s, w), seen[0])
  {
    hide Known, View, SwapStep, CreateStep, SeekStep, R.Step;
    StepKeepsWindows(limit, s, e);
    match e
    case Create(c, ok) => if c < |s.cpus| && s.cpus[c].Creating? { CreateSeen(s, c, ok, w); }
    case Swap(c) => if c < |s.cpus| && s.cpus[c].Loaded? { SwapSeen(limit, s, c, w); }
    case _ => MoveSeen(limit, s, e, w);
  }

  /** A window that was just created has seen nothing. */
  lemma NewWindowSeen(limit: nat, s: State, e: Event)
    requires Known(s) && |Step(limit, s, e).windows| > |s.windows|
    ensures View(Step(limit, s, e), |s.windows|) == R.Start(|s.cpus|)
  {
    var r := Step(limit, s, e);
    assert e.Create? && r == CreateStep(s, e.cpu, e.ok);
    assert forall c :: 0 <= c < |r.cpus| ==> ViewCpu(r.cpus[c], |s.windows|) == R.Idle;
  }

  lemma {:induction false} NothingSeen(limit: nat, n: nat, events: seq<Event>, w: nat)
    requires w >= |Run(limit, n, events).windows|
    ensures EventsOf(limit, n, events, w) == []
  {
    hide Step, Seen;
    if events != [] {
      var m := |events| - 1;
      var s := Run(limit, n, events[..m]);
      StepKeepsWindows(limit, s, events[m]);
      NothingSeen(limit, n, events[..m], w);
      Unseen(s, events[m], w);
    }
  }

  lemma Unseen(s: State, e: Event, w: nat)
    requires w >= |s.windows|
    ensures Seen(s, e, w) == []
  {
  }

  lemma {:induction false} RunKeepsKnown(limit: nat, n: nat, events: seq<Event>)
    ensures Known(Run(limit, n, events)) && |Run(limit, n, events).cpus| == n
  {
    hide Step;
    if events != [] {
      var m := |events| - 1;
      RunKeepsKnown(limit, n, events[..m]);
      StepKeepsKnown(limit, Run(limit, n, events[..m]), events[m]);
      StepKeepsWindows(limit, Run(limit, n, events[..m]), events[m]);
    }
  }

  /** Every window ever created is, by itself, a run of the rate window. */
  lemma {:induction false} WindowIsARateWindow(limit: nat, n: nat, events: seq<Event>, w: nat)
    requires w < |Run(limit, n, events).windows|
    ensures View(Run(limit, n, events), w) == R.Run(limit, n, EventsOf(limit, n, events, w))
  {
    hide Step, Seen, View, R.Step, Known;
    if events != [] {
      var m := |events| - 1;
      var s, e := Run(limit, n, events[..m]), events[m];
      RunKeepsKnown(limit, n, events[..m]);
      StepKeepsWindows(limit, s, e);
      var before, more := EventsOf(limit, n, events[..m], w), Seen(s, e, w);
      if w < |s.windows| {
        WindowIsARateWindow(limit, n, events[..m], w);
        StepSeen(limit, s, e, w);
        if more == [] { assert before + more == before; } else { assert (before + more)[..|before|] == before; }
      } else {
        NewWindowSeen(limit, s, e);
        NothingSeen(limit, n, events[..m], w);
        Unseen(s, e, w);
      }
    }
  }

  // ----- The bound of one subject -----

  /** The windows a subject has had. */
  function Owned(windows: seq<Window>, subject: nat): nat {
    if windows == [] then 0
    else Owned(windows[..|windows| - 1], subject) + if windows[|windows| - 1].owner == subject then 1 else 0
  }

  /** The subject's takes in one second, over all its windows. */
  function TakesOf(windows: seq<Window>, subject: nat, second: nat): nat {
    if windows == [] then 0
    else
      var last := windows[|windows| - 1];
      TakesOf(windows[..|windows| - 1], subject, second) + if last.owner == subject then R.Count(last.takes, second) else 0
  }

  /** How often the subject's window was cleared. */
  function Clears(events: seq<Event>, subject: nat): nat {
    if events == [] then 0
    else Clears(events[..|events| - 1], subject) + if events[|events| - 1] == Clear(subject) then 1 else 0
  }

  lemma {:induction false} SameOwners(a: seq<Window>, b: seq<Window>, subject: nat)
    requires |a| == |b| && forall w :: 0 <= w < |a| ==> a[w].owner == b[w].owner
    ensures Owned(a, subject) == Owned(b, subject)
  {
    if a != [] { SameOwners(a[..|a| - 1], b[..|b| - 1], subject); }
  }

  /** A step creates a window only for a subject without one. */
  lemma StepKeepsOwned(limit: nat, s: State, e: Event, subject: nat)
    ensures var r := Step(limit, s, e);
            var had, has := if subject in s.current then 1 else 0, if subject in r.current then 1 else 0;
            Owned(r.windows, subject) + had <= Owned(s.windows, subject) + has + if e == Clear(subject) then 1 else 0
  {
    hide Owned, Hi, Lo, R.Taken;
    var r := Step(limit, s, e);
    StepKeepsWindows(limit, s, e);
    if |r.windows| == |s.windows| {
      SameOwners(r.windows, s.windows, subject);
    } else {
      OneMoreOwned(s.windows, r.windows, subject);
    }
  }

  lemma OneMoreOwned(a: seq<Window>, b: seq<Window>, subject: nat)
    requires |b| == |a| + 1 && forall w :: 0 <= w < |a| ==> a[w].owner == b[w].owner
    ensures Owned(b, subject) == Owned(a, subject) + if b[|a|].owner == subject then 1 else 0
  {
    SameOwners(a, b[..|a|], subject);
  }

  /** A subject has had at most one window more than it was cleared. */
  lemma {:induction false} WindowsPerClear(limit: nat, n: nat, events: seq<Event>, subject: nat)
    ensures var s := Run(limit, n, events);
            Owned(s.windows, subject) <= Clears(events, subject) + if subject in s.current then 1 else 0
  {
    hide Step, Owned;
    if events != [] {
      var m := |events| - 1;
      WindowsPerClear(limit, n, events[..m], subject);
      StepKeepsOwned(limit, Run(limit, n, events[..m]), events[m], subject);
    } else {
      NoneOwned(subject);
    }
  }

  lemma NoneOwned(subject: nat)
    ensures Owned([], subject) == 0
  {
  }

  /** No window's takes return to a second that window had left. */
  predicate NoneReturns(limit: nat, n: nat, events: seq<Event>) {
    forall w :: 0 <= w < |Run(limit, n, events).windows| ==> R.NeverReturns(limit, n, EventsOf(limit, n, events, w))
  }

  /** Each window by itself: its count is exact, and at most `limit` takes succeed in any one second. */
  lemma WindowBound(limit: nat, n: nat, events: seq<Event>, w: nat, second: nat)
    requires 1 <= limit < 0x1_0000_0000 && w < |Run(limit, n, events).windows|
    ensures var window := Run(limit, n, events).windows[w];
            Lo(window.word) == R.SinceReset(window.takes) <= limit
    ensures R.NeverReturns(limit, n, EventsOf(limit, n, events, w)) ==>
              R.Count(Run(limit, n, events).windows[w].takes, second) <= limit
  {
    hide Run, R.Run, R.Count, R.SinceReset, Lo, EventsOf, R.NeverReturns;
    WindowIsARateWindow(limit, n, events, w);
    R.WindowExact(limit, n, EventsOf(limit, n, events, w));
    if R.NeverReturns(limit, n, EventsOf(limit, n, events, w)) {
      R.NoReturnBounds(limit, n, EventsOf(limit, n, events, w));
    }
  }

  lemma {:induction false} SumOfWindows(windows: seq<Window>, subject: nat, second: nat, limit: nat)
    requires forall w :: 0 <= w < |windows| && windows[w].owner == subject ==> R.Count(windows[w].takes, second) <= limit
    ensures TakesOf(windows, subject, second) <= limit * Owned(windows, subject)
  {
    hide R.Count;
    if windows != [] {
      var init := windows[..|windows| - 1];
      SumOfWindows(init, subject, second, limit);
      assert limit * (Owned(init, subject) + 1) == limit * Owned(init, subject) + limit;
    }
  }

  /**
   * Over every run, a subject takes at most `limit` times in any one second between two resets of its window: with
   * `k` resets, all its windows together grant at most `limit * (k + 1)`.
   */
  lemma SubjectRateBound(limit: nat, n: nat, events: seq<Event>, subject: nat, second: nat)
    requires 1 <= limit < 0x1_0000_0000 && NoneReturns(limit, n, events)
    ensures TakesOf(Run(limit, n, events).windows, subject, second) <= limit * (Clears(events, subject) + 1)
  {
    hide Run, TakesOf, Owned, Clears, R.Count, EventsOf, R.NeverReturns;
    var s := Run(limit, n, events);
    forall w | 0 <= w < |s.windows|
      ensures R.Count(s.windows[w].takes, second) <= limit
    {
      assert R.NeverReturns(limit, n, EventsOf(limit, n, events, w));
      WindowBound(limit, n, events, w, second);
    }
    SumOfWindows(s.windows, subject, second, limit);
    WindowsPerClear(limit, n, events, subject);
    Scaled(limit, Owned(s.windows, subject), Clears(events, subject) + 1);
  }

  lemma Scaled(limit: nat, a: nat, b: nat)
    requires a <= b
    ensures limit * a <= limit * b
  {
    assert limit * b == limit * a + limit * (b - a);
  }
}
