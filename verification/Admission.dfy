/**
 * The interleaved machine together with the packed pending counter: the admission of a packet is the outcome of its
 * compare-and-swap loop on the shared word, and its release the atomic subtraction.
 */
module Admission {
  import opened Tables
  import opened Datapath
  import opened DatapathSafety
  import opened PackedWord
  import P = PendingCounter

  datatype Joint = Joint(data: State, counter: P.State)

  /** A step of the machine, or a step inside the reservation loop of a packet that is being admitted. */
  datatype JointEvent = Data(event: Event) | Load(cpu: nat) | Swap(cpu: nat)

  predicate InLoop(j: Joint, c: nat) {
    c < |j.data.cpus| && c < |j.counter.cpus| && j.data.cpus[c].Busy? && j.data.cpus[c].at.Admit?
  }

  predicate Releases(j: Joint, c: nat) {
    c < |j.data.cpus| && j.data.cpus[c].Busy? && j.data.cpus[c].at.Release?
  }

  /** The steps of the machine that one joint step makes. */
  function DataStep(limit: nat, j: Joint, e: JointEvent): seq<Event> {
    match e
    case Data(event) =>
      if event.Advance? && InLoop(j, event.cpu) then
        // Refused by a rate window, before the loop.
        if j.counter.cpus[event.cpu].Idle? then [Advance(event.cpu, false)] else []
      else [event]
    case Load(_) => []
    case Swap(c) =>
      if !InLoop(j, c) || !j.counter.cpus[c].Loaded? then []
      else
        match P.Step(limit, j.counter, P.Swap(c)).cpus[c]
        case Holding => [Advance(c, true)]
        case Idle => [Advance(c, false)]
        case Loaded(_, _) => []
  }

  /** The steps of the counter that it makes. */
  function CounterStep(j: Joint, e: JointEvent): seq<P.Event> {
    match e
    case Data(event) => if event.Advance? && Releases(j, event.cpu) then [P.Release(event.cpu)] else []
    case Load(c) => if InLoop(j, c) then [P.Load(c)] else []
    case Swap(c) => if InLoop(j, c) && j.counter.cpus[c].Loaded? then [P.Swap(c)] else []
  }

  function Step(limit: nat, j: Joint, e: JointEvent): Joint {
    var data, counter := DataStep(limit, j, e), CounterStep(j, e);
    Joint(if data == [] then j.data else Datapath.Step(j.data, data[0]),
          if counter == [] then j.counter else P.Step(limit, j.counter, counter[0]))
  }

  function Run(limit: nat, cpus: nat, events: seq<JointEvent>): Joint {
    if events == [] then Joint(Datapath.Start(cpus), P.Start(cpus))
    else Step(limit, Run(limit, cpus, events[..|events| - 1]), events[|events| - 1])
  }

  function DataEvents(limit: nat, cpus: nat, events: seq<JointEvent>): seq<Event> {
    if events == [] then []
    else
      var n := |events| - 1;
      DataEvents(limit, cpus, events[..n]) + DataStep(limit, Run(limit, cpus, events[..n]), events[n])
  }

  function CounterEvents(limit: nat, cpus: nat, events: seq<JointEvent>): seq<P.Event> {
    if events == [] then []
    else
      var n := |events| - 1;
      CounterEvents(limit, cpus, events[..n]) + CounterStep(Run(limit, cpus, events[..n]), events[n])
  }

  // ----- Both parts are runs of their own machines -----

  lemma {:induction false} DataIsARun(limit: nat, cpus: nat, events: seq<JointEvent>)
    ensures Run(limit, cpus, events).data == Datapath.Run(cpus, DataEvents(limit, cpus, events))
  {
    hide DataStep, CounterStep, Datapath.Step, P.Step;
    if events != [] {
      var n := |events| - 1;
      DataIsARun(limit, cpus, events[..n]);
      var before, more := DataEvents(limit, cpus, events[..n]), DataStep(limit, Run(limit, cpus, events[..n]), events[n]);
      AtMostOne(limit, Run(limit, cpus, events[..n]), events[n]);
      if more == [] { assert before + more == before; } else { assert (before + more)[..|before|] == before; }
    }
  }

  lemma {:induction false} CounterIsARun(limit: nat, cpus: nat, events: seq<JointEvent>)
    ensures Run(limit, cpus, events).counter == P.Run(limit, cpus, CounterEvents(limit, cpus, events))
  {
    hide DataStep, CounterStep, Datapath.Step, P.Step;
    if events != [] {
      var n := |events| - 1;
      CounterIsARun(limit, cpus, events[..n]);
      var before, more := CounterEvents(limit, cpus, events[..n]), CounterStep(Run(limit, cpus, events[..n]), events[n]);
      AtMostOne(limit, Run(limit, cpus, events[..n]), events[n]);
      if more == [] { assert before + more == before; } else { assert (before + more)[..|before|] == before; }
    }
  }

  lemma AtMostOne(limit: nat, j: Joint, e: JointEvent)
    ensures |DataStep(limit, j, e)| <= 1 && |CounterStep(j, e)| <= 1
  {
  }

  // ----- Reservations are the holders of the counter -----

  /** A packet holds a reservation exactly when its CPU holds the counter, and is in the loop only while being admitted. */
  predicate Matched(d: Cpu, p: P.Cpu) {
    && (Holding(d) <==> p == P.Holding)
    && (p.Loaded? ==> d.Busy? && d.at.Admit?)
  }

  predicate Coupled(j: Joint) {
    && |j.data.cpus| == |j.counter.cpus|
    && forall c :: 0 <= c < |j.data.cpus| ==> Matched(j.data.cpus[c], j.counter.cpus[c])
  }

  lemma DecisionHoldingStays(sh: Shared, c: Cpu, ok: bool)
    requires c.Busy? && Decides(c.at) && !c.at.Release?
    ensures Holding(Move(sh, c, ok).1) <==> Holding(c)
  {
    hide VerdictOf, PolicyAt, SubjectOf, PrefixHint, PortHint, MergeHint, Settle, Stored, AfterSubject;
  }

  lemma AccessHoldingStays(sh: Shared, c: Cpu, ok: bool)
    requires c.Busy? && !Decides(c.at) && !c.at.Admit?
    ensures Holding(Move(sh, c, ok).1) <==> Holding(c)
  {
    hide VerdictOf, PolicyAt, SubjectOf, PrefixHint, PortHint, MergeHint, Settle, Stored, Use, InspectFlow, ShedInspectFlow;
  }

  /** Only admission and release change whether a packet holds a reservation. */
  lemma HoldingStays(sh: Shared, c: Cpu, ok: bool)
    requires c.Busy? && !c.at.Admit? && !c.at.Release?
    ensures Holding(Move(sh, c, ok).1) <==> Holding(c)
  {
    hide Move, Holding;
    if Decides(c.at) { DecisionHoldingStays(sh, c, ok); } else { AccessHoldingStays(sh, c, ok); }
  }

  lemma AdmissionHolds(sh: Shared, c: Cpu, ok: bool)
    requires c.Busy? && c.at.Admit?
    ensures Holding(Move(sh, c, ok).1) <==> ok
  {
  }

  lemma ReleaseHolds(sh: Shared, c: Cpu, ok: bool)
    requires c.Busy? && c.at.Release?
    ensures Holding(c) && !Holding(Move(sh, c, ok).1)
  {
  }

  /** A step of one packet moves no other. */
  lemma AdvanceMoves(s: State, c: nat, ok: bool)
    requires c < |s.cpus| && s.cpus[c].Busy?
    ensures Datapath.Step(s, Advance(c, ok)).cpus == s.cpus[c := Move(s.shared, s.cpus[c], ok).1]
  {
    hide Move;
  }

  /** Steps that are not a packet's own leave it as it is, or bring in a new one. */
  lemma OtherStepHolds(s: State, e: Event, c: nat)
    requires c < |s.cpus| && (e.Advance? ==> e.cpu != c || !s.cpus[c].Busy?)
    ensures var r := Datapath.Step(s, e);
            && |r.cpus| == |s.cpus|
            && (r.cpus[c] == s.cpus[c] || (s.cpus[c].Idle? && r.cpus[c].Busy? && r.cpus[c].at.FindSubject?))
  {
    hide Move, Policies, Contents;
  }

  lemma CounterMoves(limit: nat, s: P.State, e: P.Event)
    ensures var r := P.Step(limit, s, e);
            |r.cpus| == |s.cpus| && forall c :: 0 <= c < |s.cpus| && c != e.cpu ==> r.cpus[c] == s.cpus[c]
  {
    hide P.Reserved, P.Holders, Lo, Hi;
  }

  lemma DataKeepsCoupled(limit: nat, j: Joint, e: Event)
    requires Coupled(j) && (e.Advance? ==> !InLoop(j, e.cpu))
    ensures Coupled(Step(limit, j, Data(e)))
  {
    var r := Step(limit, j, Data(e));
    hide Datapath.Step, Move, Holding;
    assert |DataStep(limit, j, Data(e))| == 1 && r.data == Datapath.Step(j.data, e);
    if e.Advance? && Releases(j, e.cpu) {
      CounterMoves(limit, j.counter, P.Release(e.cpu));
      ReleaseHolds(j.data.shared, j.data.cpus[e.cpu], e.ok);
      AdvanceMoves(j.data, e.cpu, e.ok);
    } else if e.Advance? && e.cpu < |j.data.cpus| && j.data.cpus[e.cpu].Busy? {
      HoldingStays(j.data.shared, j.data.cpus[e.cpu], e.ok);
      AdvanceMoves(j.data, e.cpu, e.ok);
    } else {
      SameLength(j.data, e);
      forall c | 0 <= c < |j.data.cpus|
        ensures Matched(r.data.cpus[c], r.counter.cpus[c])
      {
        OtherStepHolds(j.data, e, c);
        NewcomerHoldsNothing(r.data.cpus[c]);
        NewcomerHoldsNothing(j.data.cpus[c]);
      }
    }
  }

  lemma SameLength(s: State, e: Event)
    ensures |Datapath.Step(s, e).cpus| == |s.cpus|
  {
    hide Move, Policies, Contents;
  }

  lemma NewcomerHoldsNothing(c: Cpu)
    ensures c.Idle? || c.at.FindSubject? ==> !Holding(c)
  {
  }

  lemma LoopKeepsCoupled(limit: nat, j: Joint, e: JointEvent)
    requires Coupled(j) && (e.Data? ==> e.event.Advance? && InLoop(j, e.event.cpu))
    ensures Coupled(Step(limit, j, e))
  {
    var c := if e.Data? then e.event.cpu else e.cpu;
    if InLoop(j, c) {
      var before := j.data.cpus[c];
      AdmissionHolds(j.data.shared, before, true);
      AdmissionHolds(j.data.shared, before, false);
      AdvanceMoves(j.data, c, true);
      AdvanceMoves(j.data, c, false);
      CounterMoves(limit, j.counter, P.Load(c));
      CounterMoves(limit, j.counter, P.Swap(c));
      hide Datapath.Step, Move, Holding, P.Reserved, Lo, P.Observe;
      NotHoldingYet(before);
    }
  }

  lemma NotHoldingYet(c: Cpu)
    requires c.Busy? && c.at.Admit?
    ensures !Holding(c)
  {
  }

  lemma {:induction false} RunKeepsCoupled(limit: nat, cpus: nat, events: seq<JointEvent>)
    ensures Coupled(Run(limit, cpus, events))
  {
    hide Step, Coupled, InLoop;
    if events == [] {
      StartCoupled(cpus);
    } else {
      var n := |events| - 1;
      RunKeepsCoupled(limit, cpus, events[..n]);
      var j, e := Run(limit, cpus, events[..n]), events[n];
      if e.Data? && (e.event.Advance? ==> !InLoop(j, e.event.cpu)) {
        DataKeepsCoupled(limit, j, e.event);
      } else {
        LoopKeepsCoupled(limit, j, e);
      }
    }
  }

  lemma StartCoupled(cpus: nat)
    ensures Coupled(Joint(Datapath.Start(cpus), P.Start(cpus)))
  {
  }

  lemma {:induction false} SameHolders(data: seq<Cpu>, counter: seq<P.Cpu>)
    requires |data| == |counter| && forall c :: 0 <= c < |data| ==> Matched(data[c], counter[c])
    ensures Holders(data) == P.Holders(counter)
  {
    hide Holding;
    if data != [] { SameHolders(data[..|data| - 1], counter[..|counter| - 1]); }
  }

  /**
   * Whatever packets, the publisher and the reservation loops do, the low half of the packed word is the number of
   * packets inside that hold a reservation, and never more than the limit.
   */
  lemma PendingIsReserved(limit: nat, cpus: nat, events: seq<JointEvent>)
    requires limit < 0x1_0000_0000 && Assumed(cpus, DataEvents(limit, cpus, events))
    ensures var j := Run(limit, cpus, events);
            && j.data == Datapath.Run(cpus, DataEvents(limit, cpus, events))
            && j.counter == P.Run(limit, cpus, CounterEvents(limit, cpus, events))
            && Lo(j.counter.word) == j.data.shared.reserved == Holders(j.data.cpus) <= limit
  {
    hide Run, Datapath.Run, P.Run, Assumed, DataEvents, CounterEvents;
    DataIsARun(limit, cpus, events);
    CounterIsARun(limit, cpus, events);
    RunKeepsCoupled(limit, cpus, events);
    ReservationsExact(cpus, DataEvents(limit, cpus, events));
    P.CounterExact(limit, cpus, CounterEvents(limit, cpus, events));
    var j := Run(limit, cpus, events);
    SameHolders(j.data.cpus, j.counter.cpus);
  }
}
