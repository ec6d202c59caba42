/** Two runs of the datapath machine in which a packet is marked with the verdict of a snapshot that is not its own. */
module OverlapWitness {
  import opened Common
  import opened Hints
  import opened Tables
  import opened Datapath
  import opened DatapathSafety
  import opened DatapathOverlap
  import opened SoloRun

  const MAC := "02:00:00:00:00:01"
  const SUBJECT := 7
  const CLASS := 4

  function Flow(): Tuple {
    Tuple(false, IPPROTO_TCP, 443, [], [], 50000)
  }

  function Arrival(): Packet {
    Packet(MAC, ParseOk, Flow())
  }

  function RecordKey(): FlowKey {
    FlowKey(SUBJECT, Flow())
  }

  /** One subject, one classified port, and the class's verdict. */
  function Entries(verdict: Verdict): seq<(Key, Val)> {
    [(SubjectKey(MAC), Subject(SUBJECT)), (PortKey(IPPROTO_TCP, 443), Class(Hint(CLASS, 3, ExactKind))),
     (PolicyKey(SUBJECT, CLASS), Policy(verdict))]
  }

  function Slot(verdict: Verdict): Table {
    map[SubjectKey(MAC) := Subject(SUBJECT), PortKey(IPPROTO_TCP, 443) := Class(Hint(CLASS, 3, ExactKind)),
        PolicyKey(SUBJECT, CLASS) := Policy(verdict)]
  }

  lemma SlotAnswers(verdict: Verdict)
    ensures SubjectOf(Slot(verdict), MAC) == Some(SUBJECT)
    ensures PolicyAt(Slot(verdict), SUBJECT, CLASS) == Some(verdict)
    ensures VerdictOf(Slot(verdict), SUBJECT, CLASS) == verdict
    ensures Classify(Slot(verdict), Flow()) == (CLASS, ExactKind)
  {
    assert PrefixHint(Slot(verdict), Flow()).None?;
  }

  function Record(gen: nat, slot: bool): Config {
    Config(true, true, slot, gen, 1, Allow, Allow)
  }

  function Rules(gen: nat, verdict: Verdict): Snapshot {
    Snapshot(Record(gen, false), Entries(verdict))
  }

  // ----- Publishing a snapshot -----

  function SyncEvents(gen: nat, verdict: Verdict): seq<Event> {
    [BeginSync(Rules(gen, verdict)), BeginFill, FillOne, FillOne, FillOne, Publish]
  }

  function Synced(s: State, gen: nat, verdict: Verdict): State {
    var slot := !s.shared.config.slot;
    var config := Record(gen, slot);
    s.(shared := WithSlot(s.shared, slot, Slot(verdict)).(config := config),
       history := s.history[gen := Era(Policies(Slot(verdict)), true)], releases := s.releases + {(config, Slot(verdict))})
  }

  lemma OneMore(s: State, events: seq<Event>, e: Event)
    requires DisciplinedFrom(s, events) && Disciplined(RunFrom(s, events), e)
    ensures DisciplinedFrom(s, events + [e]) && RunFrom(s, events + [e]) == Step(RunFrom(s, events), e)
  {
    assert (events + [e])[..|events|] == events;
  }

  lemma SyncRuns(s: State, gen: nat, verdict: Verdict)
    requires s.publisher.Resting? && Target(s) == map[] && GraceElapsed(s) && gen !in s.history
    ensures DisciplinedFrom(s, SyncEvents(gen, verdict)) && RunFrom(s, SyncEvents(gen, verdict)) == Synced(s, gen, verdict)
  {
    var snapshot := Rules(gen, verdict);
    var filling := s.(publisher := Filling(snapshot, 0));
    var full := WithTarget(s, Slot(verdict)).(publisher := Filling(snapshot, 3));
    Published(s, gen, verdict);
    FillsThree(filling, verdict);
    BeginsFilling(s, snapshot);
    hide Step, Slot, Policies, GraceElapsed, KeepsMeaning;
    FrontRuns(s, snapshot);
    assert WithTarget(filling, Slot(verdict)).(publisher := filling.publisher.(done := 3)) == full;
    OneMore(s, Front(snapshot), Publish);
    assert Front(snapshot) + [Publish] == SyncEvents(gen, verdict);
  }

  /** The events of a sync before its publication. */
  function Front(snapshot: Snapshot): seq<Event> {
    [BeginSync(snapshot), BeginFill, FillOne, FillOne, FillOne]
  }

  lemma FrontRuns(s: State, snapshot: Snapshot)
    requires GraceElapsed(s)
    ensures DisciplinedFrom(s, Front(snapshot))
    ensures RunFrom(s, Front(snapshot)) ==
            Step(Step(Step(Step(Step(s, BeginSync(snapshot)), BeginFill), FillOne), FillOne), FillOne)
  {
    var begin := BeginSync(snapshot);
    var a, b := [begin], [begin] + [BeginFill];
    var c, d := b + [FillOne], b + [FillOne] + [FillOne];
    assert RunFrom(s, []) == s && DisciplinedFrom(s, []) && [] + [begin] == a && d + [FillOne] == Front(snapshot);
    hide Step, RunFrom, DisciplinedFrom, GraceElapsed, KeepsMeaning;
    OneMore(s, [], begin);
    OneMore(s, a, BeginFill);
    OneMore(s, b, FillOne);
    OneMore(s, c, FillOne);
    OneMore(s, d, FillOne);
  }

  lemma BeginsFilling(s: State, snapshot: Snapshot)
    requires s.publisher.Resting? && Target(s) == map[]
    ensures Step(Step(s, BeginSync(snapshot)), BeginFill) == s.(publisher := Filling(snapshot, 0))
  {
  }

  lemma Published(s: State, gen: nat, verdict: Verdict)
    requires s.publisher.Resting? && gen !in s.history
    ensures var full := WithTarget(s, Slot(verdict)).(publisher := Filling(Rules(gen, verdict), 3));
            Disciplined(full, Publish) && Step(full, Publish) == Synced(s, gen, verdict)
  {
    hide Policies, Slot;
  }

  lemma FillsOne(s: State, n: nat)
    requires s.publisher.Filling? && s.publisher.done == n < |s.publisher.snapshot.entries|
    requires s.publisher.snapshot.entries[n].0 !in Target(s)
    ensures var (k, v) := s.publisher.snapshot.entries[n];
            Step(s, FillOne) == WithTarget(s, Target(s)[k := v]).(publisher := s.publisher.(done := n + 1))
  {
  }

  lemma FillsThree(s: State, verdict: Verdict)
    requires s.publisher.Filling? && s.publisher.done == 0 && s.publisher.snapshot.entries == Entries(verdict)
    requires Target(s) == map[]
    ensures var r := Step(Step(Step(s, FillOne), FillOne), FillOne);
            r == WithTarget(s, Slot(verdict)).(publisher := s.publisher.(done := 3))
  {
    hide Step;
    FillsOne(s, 0);
    var a := Step(s, FillOne);
    FillsOne(a, 1);
    var b := Step(a, FillOne);
    FillsOne(b, 2);
    assert Target(Step(b, FillOne)) == Slot(verdict);
  }

  predicate OnlyPackets(events: seq<Event>) {
    forall k :: 0 <= k < |events| ==> events[k].Capture? || events[k].Advance?
  }

  /** Steps of packets alone are always disciplined. */
  lemma {:induction false} PacketsAreDisciplined(s: State, events: seq<Event>)
    requires OnlyPackets(events)
    ensures DisciplinedFrom(s, events)
  {
    if events != [] { PacketsAreDisciplined(s, events[..|events| - 1]); }
  }

  // ----- A packet of the classified flow -----

  /** A packet that has just entered under the given record and slot. */
  function Fresh(config: Config, view: Table): Cpu {
    Busy(Arrival(), config, view, 0, FindSubject)
  }

  function AboutToReread(config: Config, view: Table, id: nat): Cpu {
    Busy(Arrival(), config, view, SUBJECT, Reread(id))
  }

  function Classified(verdict: Verdict, gen: nat): Entry {
    Entry(SUBJECT, CLASS, ExactKind, false, verdict, gen)
  }

  /** The flow's record is `id` and was last written by `gen`. */
  predicate Filed(sh: Shared, id: nat, verdict: Verdict, gen: nat) {
    RecordKey() in sh.flows && sh.flows[RecordKey()] == id < |sh.elements| && sh.elements[id] == Classified(verdict, gen)
  }

  /** The five accesses of a packet up to the second look at a stale record, which it refreshes. */
  lemma StaleWalk(sh: Shared, config: Config, verdict: Verdict, id: nat, was: Verdict, gen: nat)
    requires config.enforcement && SlotOf(sh, config.slot) == Slot(verdict) && Filed(sh, id, was, gen) && gen != config.policyGen
    ensures Solo(sh, Fresh(config, Slot(verdict)), seq(5, i => true)) ==
            (sh.(elements := sh.elements[id := Classified(verdict, config.policyGen)]),
             AboutToReread(config, Slot(verdict), id))
  {
    hide Solo;
    SlotAnswers(verdict);
    var oks := seq(5, i => true);
    var c := Busy(Arrival(), config, Slot(verdict), SUBJECT, FindSubject);
    First(sh, Fresh(config, Slot(verdict)), oks);
    First(sh, c.(at := FindFlow), oks[1..]);
    First(sh, c.(at := Inspect(id)), oks[1..][1..]);
    First(sh, c.(at := Ask(ForRefresh(id), CLASS, false)), oks[1..][1..][1..]);
    First(sh, c.(at := Answered(ForRefresh(id), CLASS, verdict)), oks[1..][1..][1..][1..]);
    Exhausted(sh.(elements := sh.elements[id := Classified(verdict, config.policyGen)]), c.(at := Reread(id)),
              oks[1..][1..][1..][1..][1..]);
  }

  lemma Exhausted(sh: Shared, c: Cpu, oks: seq<bool>)
    requires oks == []
    ensures Solo(sh, c, oks) == (sh, c)
  {
  }

  /** The three accesses of a packet up to the second look at a record of its own generation. */
  lemma CurrentWalk(sh: Shared, config: Config, verdict: Verdict, id: nat)
    requires config.enforcement && SlotOf(sh, config.slot) == Slot(verdict) && Filed(sh, id, verdict, config.policyGen)
    ensures Solo(sh, Fresh(config, Slot(verdict)), seq(3, i => true)) == (sh, AboutToReread(config, Slot(verdict), id))
  {
    hide Solo;
    SlotAnswers(verdict);
    var oks := seq(3, i => true);
    var c := Busy(Arrival(), config, Slot(verdict), SUBJECT, FindSubject);
    First(sh, Fresh(config, Slot(verdict)), oks);
    First(sh, c.(at := FindFlow), oks[1..]);
    First(sh, c.(at := Inspect(id)), oks[1..][1..]);
    Exhausted(sh, c.(at := Reread(id)), oks[1..][1..][1..]);
  }

  // ----- The common beginning -----

  /** Two idle CPUs under generation 1, whose only other slot is empty, and a record of the flow. */
  predicate Prepared(s: State, id: nat) {
    && s.cpus == [Idle, Idle] && s.publisher.Resting? && s.shared.config == Record(1, true) && s.shared.slotB == Slot(Allow)
    && s.shared.slotA == map[] && s.history.Keys == {1} && Filed(s.shared, id, Allow, 1)
  }

  /** Generation 1 allows the class and is published. */
  lemma FirstSync()
    ensures Assumed(2, SyncEvents(1, Allow)) && Run(2, SyncEvents(1, Allow)) == Synced(Start(2), 1, Allow)
    ensures Start(2).cpus == [Idle, Idle]
  {
    SyncRuns(Start(2), 1, Allow);
    Joined(2, [], SyncEvents(1, Allow));
    assert [] + SyncEvents(1, Allow) == SyncEvents(1, Allow);
  }

  /** One packet of the flow is then classified. */
  lemma Begin() returns (events: seq<Event>, id: nat)
    ensures Assumed(2, events) && Prepared(Run(2, events), id)
  {
    FirstSync();
    var synced := SyncEvents(1, Allow);
    var s := Run(2, synced);
    var key := RecordKey();
    var now := map[key := Classified(Allow, 1)];
    SlotAnswers(Allow);
    assert FlowTable(s.shared) == map[] && now == (map[] - {key})[key := Classified(Allow, 1)];
    hide Run, Assumed, RunFrom, Policies, FlowTable, Undisturbed, DisciplinedFrom, SyncEvents, Slot, VerdictOf, SubjectOf;
    var oks := IngressIsUndisturbed(2, synced, 0, Arrival(), Allow, now);
    UndisturbedIsIngress(2, synced, 0, Arrival(), oks);
    UndisturbedIsSolo(s, 0, Arrival(), oks);
    events := AfterPacket(synced, oks);
    id := Located(Run(2, events).shared);
  }

  lemma AfterPacket(synced: seq<Event>, oks: seq<bool>) returns (events: seq<Event>)
    requires Assumed(2, synced)
    ensures Assumed(2, events) && Run(2, events) == Undisturbed(Run(2, synced), 0, Arrival(), oks)
  {
    var first := [Capture(0, Arrival())] + Advances(0, oks);
    PacketsAreDisciplined(Run(2, synced), first);
    Joined(2, synced, first);
    events := synced + first;
  }

  lemma Located(sh: Shared) returns (id: nat)
    requires RecordKey() in FlowTable(sh) && FlowTable(sh)[RecordKey()] == Classified(Allow, 1)
    ensures Filed(sh, id, Allow, 1)
  {
    id := sh.flows[RecordKey()];
  }

  // ----- The two overlaps -----

  /** The packet on CPU `c` enters and goes on to its second look at the record. */
  function Walk(c: nat, steps: nat): seq<Event> {
    [Capture(c, Arrival())] + Advances(c, seq(steps, i => true))
  }

  lemma CurrentWalkRuns(s: State, c: nat, id: nat, verdict: Verdict, gen: nat)
    requires c < |s.cpus| && s.cpus[c].Idle? && s.shared.config == Record(gen, s.shared.config.slot)
    requires SlotOf(s.shared, s.shared.config.slot) == Slot(verdict) && Filed(s.shared, id, verdict, gen)
    ensures RunFrom(s, Walk(c, 3)) == s.(cpus := s.cpus[c := AboutToReread(s.shared.config, Slot(verdict), id)])
    ensures DisciplinedFrom(s, Walk(c, 3))
  {
    hide RunFrom, Slot, Solo, DisciplinedFrom;
    UndisturbedIsSolo(s, c, Arrival(), seq(3, i => true));
    CurrentWalk(s.shared, s.shared.config, verdict, id);
    PacketsAreDisciplined(s, Walk(c, 3));
  }

  lemma StaleWalkRuns(s: State, c: nat, id: nat, verdict: Verdict, gen: nat, was: Verdict, last: nat)
    requires c < |s.cpus| && s.cpus[c].Idle? && s.shared.config == Record(gen, s.shared.config.slot) && last != gen
    requires SlotOf(s.shared, s.shared.config.slot) == Slot(verdict) && Filed(s.shared, id, was, last)
    ensures RunFrom(s, Walk(c, 5)) ==
            s.(shared := s.shared.(elements := s.shared.elements[id := Classified(verdict, gen)]),
               cpus := s.cpus[c := AboutToReread(s.shared.config, Slot(verdict), id)])
    ensures DisciplinedFrom(s, Walk(c, 5))
  {
    hide RunFrom, Slot, Solo, DisciplinedFrom;
    UndisturbedIsSolo(s, c, Arrival(), seq(5, i => true));
    StaleWalk(s.shared, s.shared.config, verdict, id, was, last);
    PacketsAreDisciplined(s, Walk(c, 5));
  }

  /** The log position holds a cached mark that is not the verdict of the packet's own snapshot. */
  predicate ForeignMark(s: State, i: nat) {
    i < |s.shared.log| && var m := s.shared.log[i];
    m.cause.Cached? && m.cause.entry.verdict != VerdictOf(m.view, m.subject, m.cause.entry.classId)
  }

  lemma RereadIsForeign(s: State, id: nat, config: Config, mine: Verdict, other: Verdict, gen: nat)
    requires |s.cpus| == 2 && s.cpus[0] == AboutToReread(config, Slot(mine), id) && mine != other
    requires id < |s.shared.elements| && s.shared.elements[id] == Classified(other, gen)
    ensures ForeignMark(Step(s, Advance(0, true)), |s.shared.log|)
    ensures Disciplined(s, Advance(0, true)) && |Step(s, Advance(0, true)).shared.log| == |s.shared.log| + 1
    ensures Step(s, Advance(0, true)).shared.log[|s.shared.log|].config == config
  {
    SlotAnswers(mine);
  }

  lemma Continued(events: seq<Event>, more: seq<Event>, last: Event)
    requires Assumed(2, events) && DisciplinedFrom(Run(2, events), more)
    requires Disciplined(RunFrom(Run(2, events), more), last)
    ensures Assumed(2, events + (more + [last]))
    ensures Run(2, events + (more + [last])) == Step(RunFrom(Run(2, events), more), last)
  {
    hide Run, Assumed, Disciplined, Step;
    OneMore(Run(2, events), more, last);
    Joined(2, events, more + [last]);
  }

  /** Generation 2 is published between a packet's check of a record and its second look. */
  predicate Overtaken(s: State, id: nat) {
    && s.cpus == [AboutToReread(Record(1, true), Slot(Allow), id), Idle] && s.shared.config == Record(2, false)
    && s.shared.slotA == Slot(Deny) && s.publisher.Resting? && Filed(s.shared, id, Allow, 1)
  }

  lemma OvertakenBySync(s: State, id: nat)
    requires Prepared(s, id)
    ensures var a := s.(cpus := s.cpus[0 := AboutToReread(Record(1, true), Slot(Allow), id)]);
            && a.publisher.Resting? && Target(a) == map[] && GraceElapsed(a) && 2 !in a.history
            && Overtaken(Synced(a, 2, Deny), id)
  {
    hide Slot, Policies;
  }

  lemma CheckThenSync() returns (events: seq<Event>, id: nat)
    ensures Assumed(2, events) && Overtaken(Run(2, events), id)
  {
    var begun;
    begun, id := Begin();
    var s := Run(2, begun);
    hide Run, RunFrom, Assumed, DisciplinedFrom, SyncEvents, Walk, Slot;
    CurrentWalkRuns(s, 0, id, Allow, 1);
    OvertakenBySync(s, id);
    hide Overtaken, Synced, GraceElapsed, Filed;
    Joined(2, begun, Walk(0, 3));
    var checked := begun + Walk(0, 3);
    SyncRuns(Run(2, checked), 2, Deny);
    Joined(2, checked, SyncEvents(2, Deny));
    events := checked + SyncEvents(2, Deny);
  }

  /**
   * A packet checks a record of its own generation 1, generation 2 denies the class and is published, and a packet of
   * generation 2 refreshes the record before the first packet reads it again: that packet is denied although its
   * snapshot allows it.
   */
  lemma OverlappingRefreshShows() returns (cpus: nat, events: seq<Event>, i: nat)
    ensures Assumed(cpus, events) && ForeignMark(Run(cpus, events), i)
  {
    cpus := 2;
    var synced, id := CheckThenSync();
    var s := Run(2, synced);
    hide Run, RunFrom, Assumed, DisciplinedFrom, Walk, Slot, ForeignMark;
    StaleWalkRuns(s, 1, id, Deny, 2, Allow, 1);
    var c := RunFrom(s, Walk(1, 5));
    RereadIsForeign(c, id, Record(1, true), Allow, Deny, 2);
    Continued(synced, Walk(1, 5), Advance(0, true));
    events, i := synced + (Walk(1, 5) + [Advance(0, true)]), |c.shared.log|;
  }

  /** The packet on CPU `c` enters at the start of `between`, in which nothing is published, and is marked at its end. */
  predicate EntersAndLeaves(cpus: nat, before: seq<Event>, between: seq<Event>, c: nat) {
    && c < cpus && |Run(cpus, before).cpus| == cpus && Run(cpus, before).cpus[c].Idle? && NoPublish(between)
    && between != [] && between[0] == Capture(c, Arrival()) && between[|between| - 1] == Advance(c, true)
  }

  /** Generation 2 is published while a packet of generation 1 is still inside. */
  predicate Straggling(s: State, id: nat) {
    && s.cpus == [Idle, Fresh(Record(1, true), Slot(Allow))] && s.shared.config == Record(2, false)
    && s.shared.slotA == Slot(Deny) && s.shared.slotB == Slot(Allow) && Filed(s.shared, id, Allow, 1)
  }

  lemma LeaveStraggler() returns (before: seq<Event>, id: nat)
    ensures Assumed(2, before) && Straggling(Run(2, before), id)
  {
    var begun;
    begun, id := Begin();
    var s := Run(2, begun);
    hide Run, RunFrom, Assumed, DisciplinedFrom, Policies, SyncEvents, Slot;
    var older := [Capture(1, Arrival())];
    PacketsAreDisciplined(s, older);
    EntryRuns(s);
    Joined(2, begun, older);
    var a := Run(2, begun + older);
    SyncRuns(a, 2, Deny);
    Joined(2, begun + older, SyncEvents(2, Deny));
    before := begun + older + SyncEvents(2, Deny);
  }

  /** The newer packet checks the record, the straggler refreshes it, and the newer one reads it again. */
  lemma StragglerOverlaps(s: State, id: nat)
    requires Straggling(s, id)
    ensures var d := RunFrom(RunFrom(s, Walk(0, 5)), Advances(1, seq(5, j => true)));
            var r := Step(d, Advance(0, true));
            |d.shared.log| == |s.shared.log| && ForeignMark(r, |d.shared.log|)
  {
    hide RunFrom, Advances, Slot, Solo, DisciplinedFrom, VerdictOf;
    StaleWalkRuns(s, 0, id, Deny, 2, Allow, 1);
    var c := RunFrom(s, Walk(0, 5));
    AdvancesAreSolo(c, 1, seq(5, j => true));
    StaleWalk(c.shared, Record(1, true), Allow, id, Deny, 2);
    var d := RunFrom(c, Advances(1, seq(5, j => true)));
    RereadIsForeign(d, id, Record(2, false), Deny, Allow, 1);
  }

  /**
   * It is not enough that nothing is published from a packet's capture to its mark: a packet of generation 1 that is
   * still inside may refresh the record of a packet of generation 2 between that packet's two accesses.
   */
  lemma OlderPacketShows() returns (cpus: nat, before: seq<Event>, between: seq<Event>, i: nat)
    ensures Assumed(cpus, before + between) && EntersAndLeaves(cpus, before, between, 0)
    ensures i >= |Run(cpus, before).shared.log| && ForeignMark(Run(cpus, before + between), i)
  {
    cpus := 2;
    var id;
    before, id := LeaveStraggler();
    var s := Run(2, before);
    var a, b := Walk(0, 5), Advances(1, seq(5, j => true));
    between := a + b + [Advance(0, true)];
    i := |RunFrom(RunFrom(s, a), b).shared.log|;
    hide *;
    StragglerOverlaps(s, id);
    OlderRuns(before, a, b) by { AdvancesOnly(0, 5); AdvancesOnly(1, 5); }
    OlderShape(before, b, id);
  }

  lemma OlderShape(before: seq<Event>, b: seq<Event>, id: nat)
    requires Straggling(Run(2, before), id) && b == Advances(1, seq(5, j => true))
    ensures EntersAndLeaves(2, before, Walk(0, 5) + b + [Advance(0, true)], 0)
  {
    hide Run, Slot, Filed;
    AdvancesOnly(0, 5);
    AdvancesOnly(1, 5);
  }

  lemma EntryRuns(s: State)
    requires s.cpus == [Idle, Idle] && s.shared.config == Record(1, true)
    ensures RunFrom(s, [Capture(1, Arrival())]) == s.(cpus := [Idle, Fresh(Record(1, true), s.shared.slotB)])
  {
    assert [Capture(1, Arrival())][..0] == [];
  }

  lemma AdvancesOnly(c: nat, steps: nat)
    ensures OnlyPackets(Advances(c, seq(steps, i => true))) && OnlyPackets(Walk(c, steps))
  {
  }

  lemma OlderRuns(before: seq<Event>, a: seq<Event>, b: seq<Event>)
    requires Assumed(2, before)
    requires OnlyPackets(a) && OnlyPackets(b)
    ensures var all := a + b + [Advance(0, true)];
            && Assumed(2, before + all)
            && Run(2, before + all) == Step(RunFrom(RunFrom(Run(2, before), a), b), Advance(0, true))
  {
    hide Step, Run, Assumed;
    PacketsAreDisciplined(Run(2, before), a);
    Joined(2, before, a);
    PacketsAreDisciplined(Run(2, before + a), b);
    Continued(before + a, b, Advance(0, true));
    assert before + (a + b + [Advance(0, true)]) == before + a + (b + [Advance(0, true)]);
  }
}
