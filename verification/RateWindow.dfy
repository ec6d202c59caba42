/**
 * The lock-free one-second rate window under any interleaving of any number of CPUs.
 *
 * The high half of the word is the second of the window, the low half the number of takes in it.
 */
module RateWindow {
  import opened PackedWord

  /** A CPU inside ca_rate_take carries the second it read from the clock and the word it last loaded. */
  datatype Cpu = Idle | Loaded(attempt: nat, second: nat, seen: nat)

  /** The shared word, every CPU, and the seconds of all successful takes in order. */
  datatype State = State(word: nat, cpus: seq<Cpu>, takes: seq<nat>)

  datatype Event = Load(cpu: nat, nowNs: nat) | Swap(cpu: nat)

  /** The low 32 bits of the clock's second. */
  function Second(nowNs: nat): (s: nat)
    ensures s < 0x1_0000_0000
  {
    (nowNs / 1_000_000_000) % 0x1_0000_0000
  }

  function Taken(second: nat, seen: nat): nat {
    if second != Hi(seen) then Pack(second, 1) else seen + 1
  }

  function Step(limit: nat, s: State, e: Event): State {
    if e.cpu >= |s.cpus| then s
    else
      match (e, s.cpus[e.cpu])
      case (Load(c, now), Idle) => s.(cpus := s.cpus[c := Loaded(0, Second(now), s.word)])
      case (Swap(c), Loaded(attempt, second, seen)) =>
        if second == Hi(seen) && Lo(seen) >= limit then s.(cpus := s.cpus[c := Idle])
        else if s.word == seen then
          State(Taken(second, seen), s.cpus[c := Idle], s.takes + [second])
        else if attempt + 1 < CAS_ATTEMPTS then s.(cpus := s.cpus[c := Loaded(attempt + 1, second, s.word)])
        else s.(cpus := s.cpus[c := Idle])
      case _ => s
  }

  /** A fresh window word. */
  function Start(n: nat): State {
    State(0, seq(n, i => Idle), [])
  }

  function Run(limit: nat, n: nat, events: seq<Event>): State {
    if events == [] then Start(n) else Step(limit, Run(limit, n, events[..|events| - 1]), events[|events| - 1])
  }

  /** The trailing takes that fall in the window's second: the takes since the window was last reset. */
  function SinceReset(takes: seq<nat>): nat {
    if takes == [] then 0
    else if |takes| == 1 || takes[|takes| - 2] != takes[|takes| - 1] then 1
    else SinceReset(takes[..|takes| - 1]) + 1
  }

  function Count(takes: seq<nat>, second: nat): nat {
    if takes == [] then 0 else Count(takes[..|takes| - 1], second) + if takes[|takes| - 1] == second then 1 else 0
  }

  predicate LoadedSeconds(cpus: seq<Cpu>) {
    forall c :: 0 <= c < |cpus| && cpus[c].Loaded? ==> cpus[c].second < 0x1_0000_0000
  }

  /** The word counts exactly the takes since its last reset. */
  predicate Inv(limit: nat, s: State) {
    && LoadedSeconds(s.cpus)
    && Lo(s.word) <= limit
    && (s.takes == [] ==> s.word == 0)
    && (s.takes != [] ==> Hi(s.word) == s.takes[|s.takes| - 1] && Lo(s.word) == SinceReset(s.takes))
  }

  lemma TakenParts(limit: nat, second: nat, seen: nat)
    requires 1 <= limit < 0x1_0000_0000 && second < 0x1_0000_0000
    requires second == Hi(seen) ==> Lo(seen) < limit
    ensures Hi(Taken(second, seen)) == second
    ensures Lo(Taken(second, seen)) == if second == Hi(seen) then Lo(seen) + 1 else 1
  {
  }

  lemma StepKeepsInv(limit: nat, s: State, e: Event)
    requires 1 <= limit < 0x1_0000_0000 && Inv(limit, s)
    ensures Inv(limit, Step(limit, s, e))
  {
    hide Hi, Lo, Taken, SinceReset;
    var r := Step(limit, s, e);
    if |r.takes| > |s.takes| {
      var Loaded(attempt, second, seen) := s.cpus[e.cpu];
      TakenParts(limit, second, seen);
      SinceResetStep(s.takes, second);
      EmptyWord();
    }
  }

  lemma SinceResetStep(takes: seq<nat>, second: nat)
    ensures SinceReset(takes + [second]) ==
            if takes != [] && takes[|takes| - 1] == second then SinceReset(takes) + 1 else 1
  {
    assert (takes + [second])[..|takes|] == takes;
  }

  lemma EmptyWord()
    ensures Hi(0) == 0 && Lo(0) == 0
  {
  }

  /** In every run the low half is the number of takes since the last reset and never exceeds the limit. */
  lemma {:induction false} WindowExact(limit: nat, n: nat, events: seq<Event>)
    requires 1 <= limit < 0x1_0000_0000
    ensures Inv(limit, Run(limit, n, events))
    ensures var s := Run(limit, n, events);
            && Lo(s.word) == SinceReset(s.takes) <= limit
            && (s.takes != [] ==> Hi(s.word) == s.takes[|s.takes| - 1])
  {
    if events != [] {
      WindowExact(limit, n, events[..|events| - 1]);
      StepKeepsInv(limit, Run(limit, n, events[..|events| - 1]), events[|events| - 1]);
    }
  }

  // ----- The per-second bound -----

  /** The step is not a take with a clock behind the stored window. */
  predicate NotBehind(limit: nat, s: State, e: Event) {
    |Step(limit, s, e).takes| > |s.takes| ==> Hi(s.word) <= Hi(Step(limit, s, e).word)
  }

  predicate NeverBehind(limit: nat, n: nat, events: seq<Event>) {
    forall k :: 0 <= k < |events| ==> NotBehind(limit, Run(limit, n, events[..k]), events[k])
  }

  predicate Bounded(limit: nat, takes: seq<nat>) {
    forall second :: second in takes ==> Count(takes, second) <= limit
  }

  /** No take is later than the window, and the window's own takes are all since its reset. */
  ghost predicate Ordered(limit: nat, s: State) {
    && (forall i :: 0 <= i < |s.takes| ==> s.takes[i] <= Hi(s.word))
    && Count(s.takes, Hi(s.word)) == Lo(s.word)
    && forall second :: Count(s.takes, second) <= limit
  }

  lemma CountStep(takes: seq<nat>, second: nat, other: nat)
    ensures Count(takes + [second], other) == Count(takes, other) + if second == other then 1 else 0
  {
  }

  lemma {:induction false} CountAbsent(takes: seq<nat>, second: nat)
    requires forall i :: 0 <= i < |takes| ==> takes[i] != second
    ensures Count(takes, second) == 0
  {
    if takes != [] { CountAbsent(takes[..|takes| - 1], second); }
  }

  lemma StepKeepsOrdered(limit: nat, s: State, e: Event)
    requires 1 <= limit < 0x1_0000_0000 && Inv(limit, s) && Ordered(limit, s) && NotBehind(limit, s, e)
    ensures Ordered(limit, Step(limit, s, e))
  {
    var r := Step(limit, s, e);
    hide Count, SinceReset, Hi, Lo, Taken;
    if |r.takes| > |s.takes| {
      var Loaded(attempt, second, seen) := s.cpus[e.cpu];
      TakenParts(limit, second, seen);
      forall other
        ensures Count(r.takes, other) == Count(s.takes, other) + if second == other then 1 else 0
      {
        CountStep(s.takes, second, other);
      }
      if second > Hi(seen) { CountAbsent(s.takes, second); }
    }
  }

  /** When no take uses a clock behind the stored window, at most `limit` takes succeed in any one second. */
  lemma {:induction false} RateBound(limit: nat, n: nat, events: seq<Event>)
    requires 1 <= limit < 0x1_0000_0000 && NeverBehind(limit, n, events)
    ensures Ordered(limit, Run(limit, n, events))
    ensures Bounded(limit, Run(limit, n, events).takes)
  {
    if events != [] {
      var m := |events| - 1;
      forall k | 0 <= k < m
        ensures NotBehind(limit, Run(limit, n, events[..m][..k]), events[..m][k])
      {
        assert events[..m][..k] == events[..k];
      }
      RateBound(limit, n, events[..m]);
      WindowExact(limit, n, events[..m]);
      StepKeepsOrdered(limit, Run(limit, n, events[..m]), events[m]);
    }
  }

  lemma RunExtend(limit: nat, n: nat, events: seq<Event>, e: Event)
    ensures Run(limit, n, events + [e]) == Step(limit, Run(limit, n, events), e)
  {
  }

  // ----- Exactly when the bound can be relied on -----

  /** The take resets the window to a second whose window was left before. */
  predicate Returns(limit: nat, s: State, e: Event) {
    var r := Step(limit, s, e);
    |r.takes| > |s.takes| && Hi(r.word) != Hi(s.word) && Hi(r.word) in s.takes
  }

  predicate NeverReturns(limit: nat, n: nat, events: seq<Event>) {
    forall k :: 0 <= k < |events| ==> !Returns(limit, Run(limit, n, events[..k]), events[k])
  }

  /** The window counts all takes of its second, and no second has more than the limit. */
  ghost predicate Tight(limit: nat, s: State) {
    Count(s.takes, Hi(s.word)) == Lo(s.word) && forall second :: Count(s.takes, second) <= limit
  }

  lemma StepKeepsTight(limit: nat, s: State, e: Event)
    requires 1 <= limit < 0x1_0000_0000 && Inv(limit, s) && Tight(limit, s) && !Returns(limit, s, e)
    ensures Tight(limit, Step(limit, s, e))
  {
    var r := Step(limit, s, e);
    hide Count, SinceReset, Hi, Lo, Taken;
    if |r.takes| > |s.takes| {
      var Loaded(attempt, second, seen) := s.cpus[e.cpu];
      TakenParts(limit, second, seen);
      forall other
        ensures Count(r.takes, other) == Count(s.takes, other) + if second == other then 1 else 0
      {
        CountStep(s.takes, second, other);
      }
      if second != Hi(seen) { CountAbsent(s.takes, second); }
    }
  }

  lemma NeverReturnsPrefix(limit: nat, n: nat, events: seq<Event>, m: nat)
    requires NeverReturns(limit, n, events) && m <= |events|
    ensures NeverReturns(limit, n, events[..m])
  {
    forall k | 0 <= k < m
      ensures !Returns(limit, Run(limit, n, events[..m][..k]), events[..m][k])
    {
      assert events[..m][..k] == events[..k];
    }
  }

  /** Without a return the bound holds, even if the clock runs behind. */
  lemma {:induction false} NoReturnBounds(limit: nat, n: nat, events: seq<Event>)
    requires 1 <= limit < 0x1_0000_0000 && NeverReturns(limit, n, events)
    ensures Tight(limit, Run(limit, n, events)) && Bounded(limit, Run(limit, n, events).takes)
  {
    hide Returns, Tight, Step;
    if events != [] {
      var m := |events| - 1;
      NeverReturnsPrefix(limit, n, events, m);
      NoReturnBounds(limit, n, events[..m]);
      WindowExact(limit, n, events[..m]);
      StepKeepsTight(limit, Run(limit, n, events[..m]), events[m]);
      TightBounds(limit, Run(limit, n, events));
    } else {
      TightBounds(limit, Start(n));
    }
  }

  lemma TightBounds(limit: nat, s: State)
    ensures Tight(limit, s) ==> Bounded(limit, s.takes)
    ensures s.takes == [] && s.word == 0 ==> Tight(limit, s)
  {
  }

  /** `m` takes of one CPU in one second, one after the other. */
  function Attempts(c: nat, second: nat, m: nat): seq<Event> {
    if m == 0 then [] else Attempts(c, second, m - 1) + [Load(c, second * 1_000_000_000), Swap(c)]
  }

  /** One attempt of an idle CPU in the window's own second. */
  lemma AttemptOnce(limit: nat, s: State, c: nat)
    requires c < |s.cpus| && s.cpus[c].Idle? && Hi(s.word) < 0x1_0000_0000 && Lo(s.word) <= limit
    ensures var r := Step(limit, Step(limit, s, Load(c, Hi(s.word) * 1_000_000_000)), Swap(c));
            && r.cpus == s.cpus
            && (Lo(s.word) == limit ==> r == s)
            && (Lo(s.word) < limit ==> r.word == s.word + 1 && r.takes == s.takes + [Hi(s.word)])
  {
    assert Second(Hi(s.word) * 1_000_000_000) == Hi(s.word);
    assert s.cpus[c := Loaded(0, Hi(s.word), s.word)][c := Idle] == s.cpus;
  }

  lemma NextInWindow(limit: nat, word: nat)
    requires Lo(word) < limit < 0x1_0000_0000
    ensures Hi(word + 1) == Hi(word) && Lo(word + 1) == Lo(word) + 1
  {
  }

  lemma AttemptCounts(limit: nat, s: State, c: nat)
    requires 1 <= limit < 0x1_0000_0000 && c < |s.cpus| && s.cpus[c].Idle?
    requires Hi(s.word) < 0x1_0000_0000 && Lo(s.word) <= limit
    ensures var r := Step(limit, Step(limit, s, Load(c, Hi(s.word) * 1_000_000_000)), Swap(c));
            var taken := if Lo(s.word) < limit then 1 else 0;
            && r.cpus == s.cpus && Hi(r.word) == Hi(s.word) && Lo(r.word) == Lo(s.word) + taken
            && forall second :: Count(r.takes, second) == Count(s.takes, second) + if second == Hi(s.word) then taken else 0
  {
    hide Step, Hi, Lo, Count;
    AttemptOnce(limit, s, c);
    if Lo(s.word) < limit {
      NextInWindow(limit, s.word);
      forall second
        ensures Count(s.takes + [Hi(s.word)], second) == Count(s.takes, second) + if second == Hi(s.word) then 1 else 0
      {
        CountStep(s.takes, Hi(s.word), second);
      }
    }
  }

  function RunOn(limit: nat, n: nat, events: seq<Event>, c: nat, m: nat): State {
    Run(limit, n, events + Attempts(c, Hi(Run(limit, n, events).word), m))
  }

  /** Attempts in the window's own second are taken until the limit is reached. */
  lemma {:induction false} AttemptsFill(limit: nat, n: nat, events: seq<Event>, c: nat, m: nat)
    requires 1 <= limit < 0x1_0000_0000
    requires var s := Run(limit, n, events); c < |s.cpus| && s.cpus[c].Idle? && Hi(s.word) < 0x1_0000_0000
    ensures var s, r := Run(limit, n, events), RunOn(limit, n, events, c, m);
            var room := limit - Lo(s.word);
            var taken := if m <= room then m else room;
            && Hi(r.word) == Hi(s.word) && Lo(r.word) == Lo(s.word) + taken && r.cpus == s.cpus
            && forall second :: Count(r.takes, second) == Count(s.takes, second) + if second == Hi(s.word) then taken else 0
  {
    var s := Run(limit, n, events);
    var second := Hi(s.word);
    WindowExact(limit, n, events);
    hide Step, Hi, Lo, Inv, Count, Run, SinceReset;
    if m == 0 {
      assert events + Attempts(c, second, 0) == events;
    } else {
      AttemptsFill(limit, n, events, c, m - 1);
      var before := RunOn(limit, n, events, c, m - 1);
      var load, swap := Load(c, second * 1_000_000_000), Swap(c);
      var earlier := events + Attempts(c, second, m - 1);
      assert events + Attempts(c, second, m) == earlier + [load] + [swap];
      RunExtend(limit, n, earlier, load);
      RunExtend(limit, n, earlier + [load], swap);
      AttemptCounts(limit, before, c);
    }
  }

  /** The bound holds however often any idle CPU asks in the current second, at every point of the run. */
  ghost predicate Reliable(limit: nat, n: nat, events: seq<Event>) {
    forall k: nat, c: nat, m: nat {:trigger RunOn(limit, n, events[..k], c, m)} ::
      k <= |events| && CanAsk(limit, n, events[..k], c) ==> Bounded(limit, RunOn(limit, n, events[..k], c, m).takes)
  }

  predicate CanAsk(limit: nat, n: nat, events: seq<Event>, c: nat) {
    var s := Run(limit, n, events); c < |s.cpus| && s.cpus[c].Idle?
  }

  lemma CountPositive(takes: seq<nat>, second: nat)
    ensures Count(takes, second) > 0 <==> second in takes
  {
    if takes != [] {
      CountPositive(takes[..|takes| - 1], second);
      assert takes == takes[..|takes| - 1] + [takes[|takes| - 1]];
    }
  }

  lemma {:induction false} WindowSecond(limit: nat, n: nat, events: seq<Event>)
    requires 1 <= limit < 0x1_0000_0000
    ensures Hi(Run(limit, n, events).word) < 0x1_0000_0000
  {
    hide Hi, Lo, Taken, SinceReset;
    if events != [] {
      var m := |events| - 1;
      WindowSecond(limit, n, events[..m]);
      WindowExact(limit, n, events[..m]);
      var s, e := Run(limit, n, events[..m]), events[m];
      if |Step(limit, s, e).takes| > |s.takes| { TakenParts(limit, s.cpus[e.cpu].second, s.word); }
    } else {
      assert Hi(0) == 0 by { EmptyWord(); }
    }
  }

  /** A return leaves takes of its second that the new window does not count. */
  lemma ReturnForgets(limit: nat, s: State, e: Event)
    requires 1 <= limit < 0x1_0000_0000 && Inv(limit, s) && Returns(limit, s, e)
    ensures var r := Step(limit, s, e);
            && e.cpu < |r.cpus| && r.cpus[e.cpu].Idle? && Lo(r.word) == 1
            && Count(r.takes, Hi(r.word)) >= 2
  {
    hide Hi, Lo, Taken, SinceReset, Count;
    var r := Step(limit, s, e);
    TakenParts(limit, s.cpus[e.cpu].second, s.word);
    CountPositive(s.takes, Hi(r.word));
    CountStep(s.takes, Hi(r.word), Hi(r.word));
  }

  /** After a return to a second, a busy CPU overdraws that second. */
  lemma ReturnOverdraws(limit: nat, n: nat, events: seq<Event>, e: Event)
    requires 1 <= limit < 0x1_0000_0000 && Returns(limit, Run(limit, n, events), e)
    ensures CanAsk(limit, n, events + [e], e.cpu)
    ensures !Bounded(limit, RunOn(limit, n, events + [e], e.cpu, limit).takes)
  {
    hide Step, Returns, Hi, Lo, Count;
    RunExtend(limit, n, events, e);
    WindowExact(limit, n, events);
    ReturnForgets(limit, Run(limit, n, events), e);
    WindowSecond(limit, n, events + [e]);
    AttemptsFill(limit, n, events + [e], e.cpu, limit);
    var r := RunOn(limit, n, events + [e], e.cpu, limit);
    CountPositive(r.takes, Hi(r.word));
  }

  /**
   * The bound can be relied on exactly when no take returns to a second whose window was left before: then it holds
   * at every point, whatever is asked in the current second, and otherwise some CPU can overdraw.
   */
  lemma BoundExact(limit: nat, n: nat, events: seq<Event>)
    requires 1 <= limit < 0x1_0000_0000
    ensures NeverReturns(limit, n, events) <==> Reliable(limit, n, events)
  {
    if NeverReturns(limit, n, events) {
      forall k: nat, c: nat, m: nat | k <= |events| && CanAsk(limit, n, events[..k], c)
        ensures Bounded(limit, RunOn(limit, n, events[..k], c, m).takes)
      {
        NeverReturnsPrefix(limit, n, events, k);
        NoReturnBounds(limit, n, events[..k]);
        WindowSecond(limit, n, events[..k]);
        AttemptsFill(limit, n, events[..k], c, m);
      }
    } else {
      var k: nat :| k < |events| && Returns(limit, Run(limit, n, events[..k]), events[k]);
      ReturnOverdraws(limit, n, events[..k], events[k]);
      assert events[..k + 1] == events[..k] + [events[k]];
      assert !Bounded(limit, RunOn(limit, n, events[..k + 1], events[k].cpu, limit).takes);
    }
  }

  /** A clock that never runs behind the stored window never returns to a second. */
  lemma NeverBehindNeverReturns(limit: nat, n: nat, events: seq<Event>)
    requires 1 <= limit < 0x1_0000_0000 && NeverBehind(limit, n, events)
    ensures NeverReturns(limit, n, events)
  {
    hide Run, Step, Hi, Ordered;
    forall k | 0 <= k < |events|
      ensures !Returns(limit, Run(limit, n, events[..k]), events[k])
    {
      forall j | 0 <= j < k
        ensures NotBehind(limit, Run(limit, n, events[..k][..j]), events[..k][j])
      {
        assert events[..k][..j] == events[..j];
      }
      RateBound(limit, n, events[..k]);
      assert NotBehind(limit, Run(limit, n, events[..k]), events[k]);
      OrderedDoesNotReturn(limit, Run(limit, n, events[..k]), events[k]);
    }
  }

  lemma OrderedDoesNotReturn(limit: nat, s: State, e: Event)
    requires Ordered(limit, s) && NotBehind(limit, s, e)
    ensures !Returns(limit, s, e)
  {
    hide Step, Hi, Count;
  }

  /** One complete take by the only CPU at a given second. */
  lemma SoleTake(limit: nat, events: seq<Event>, word: nat, takes: seq<nat>, nowNs: nat)
    requires Run(limit, 1, events) == State(word, [Idle], takes)
    requires Second(nowNs) == Hi(word) ==> Lo(word) < limit
    ensures Run(limit, 1, events + [Load(0, nowNs)] + [Swap(0)]) ==
            State(Taken(Second(nowNs), word), [Idle], takes + [Second(nowNs)])
  {
  }

  /** A lone take in another second than the window's starts a new window. */
  lemma NewWindow(events: seq<Event>, word: nat, takes: seq<nat>, second: nat)
    requires Run(1, 1, events) == State(word, [Idle], takes) && second < 0x1_0000_0000 && second != Hi(word)
    ensures var nowNs := second * 1_000_000_000;
            Run(1, 1, events + [Load(0, nowNs)] + [Swap(0)]) == State(Pack(second, 1), [Idle], takes + [second])
    ensures Hi(Pack(second, 1)) == second
  {
    hide Run, Step, Hi, Lo, Pack;
    assert Second(second * 1_000_000_000) == second;
    SoleTake(1, events, word, takes, second * 1_000_000_000);
    PackParts(second, 1);
  }

  /** A loaded CPU with an older second than the window's is behind. */
  lemma OlderLoadIsBehind(s: State, second: nat)
    requires s.cpus == [Loaded(0, second, s.word)] && second < Hi(s.word) && second < 0x1_0000_0000
    ensures !NotBehind(1, s, Swap(0))
  {
    hide Hi, Lo, Pack;
    PackParts(second, 1);
  }

  lemma TwiceInFive()
    ensures !Bounded(1, [5, 6, 5])
  {
    assert [5, 6, 5][..2] == [5, 6] && [5, 6][..1] == [5];
    assert Count([5, 6, 5], 5) == 2 && 5 in [5, 6, 5];
  }

  /** The next load of the sole CPU. */
  lemma SoleLoad(events: seq<Event>, word: nat, takes: seq<nat>, second: nat)
    requires Run(1, 1, events) == State(word, [Idle], takes) && second < 0x1_0000_0000
    ensures Run(1, 1, events + [Load(0, second * 1_000_000_000)]) == State(word, [Loaded(0, second, word)], takes)
  {
    hide Run;
    RunExtend(1, 1, events, Load(0, second * 1_000_000_000));
    assert Second(second * 1_000_000_000) == second;
  }

  /** Seconds 5 and 6, one take each. */
  lemma FiveThenSix() returns (events: seq<Event>)
    ensures Run(1, 1, events) == State(Pack(6, 1), [Idle], [5, 6]) && Hi(Pack(6, 1)) == 6
  {
    assert Start(1).cpus == [Idle];
    EmptyWord();
    hide Step, Hi, Pack;
    NewWindow([], 0, [], 5);
    var a := [] + [Load(0, 5 * 1_000_000_000)] + [Swap(0)];
    NewWindow(a, Pack(5, 1), [5], 6);
    events := a + [Load(0, 6 * 1_000_000_000)] + [Swap(0)];
  }

  /** With a clock that runs behind, the bound fails: one CPU, limit 1, seconds 5, 6 and 5 again. */
  lemma StaleClockBreaksBound() returns (events: seq<Event>)
    ensures !NeverBehind(1, 1, events) && !Bounded(1, Run(1, 1, events).takes)
  {
    var b := FiveThenSix();
    hide Run, Step, Hi, Pack, Bounded, NotBehind;
    NewWindow(b, Pack(6, 1), [5, 6], 5);
    TwiceInFive();
    var load := Load(0, 5 * 1_000_000_000);
    events := b + [load] + [Swap(0)];
    assert [5, 6] + [5] == [5, 6, 5];
    SoleLoad(b, Pack(6, 1), [5, 6], 5);
    OlderLoadIsBehind(Run(1, 1, b + [load]), 5);
    var k := |b| + 1;
    assert events[..k] == b + [load] && events[k] == Swap(0);
  }
}
