/**
 * A cached verdict is checked in one access of its record and read in another. What the packet is marked with when
 * other packets refresh the record in between.
 */
module DatapathOverlap {
  import opened Tables
  import opened Datapath
  import opened DatapathSafety

  // ----- Who wrote a record last -----

  /** The event is a packet about to write its verdict and generation into the record. */
  predicate Refreshes(s: State, e: Event, id: nat) {
    e.Advance? && e.cpu < |s.cpus| && s.cpus[e.cpu].Busy? && s.cpus[e.cpu].at.Answered?
    && s.cpus[e.cpu].at.goal == ForRefresh(id)
  }

  /** The generation of the last packet that refreshed the record, or `gen` if none did. */
  function LastWriter(s: State, events: seq<Event>, id: nat, gen: nat): nat {
    if events == [] then gen
    else
      var n := |events| - 1;
      var before := RunFrom(s, events[..n]);
      if Refreshes(before, events[n], id) then before.cpus[events[n].cpu].config.policyGen
      else LastWriter(s, events[..n], id, gen)
  }

  predicate SameFlow(a: Entry, b: Entry) {
    a.subject == b.subject && a.classId == b.classId
  }

  lemma WriteByRefresh(sh: Shared, c: Cpu, ok: bool, id: nat)
    requires c.Busy? && c.at.Answered? && id < |sh.elements|
    ensures var next := Move(sh, c, ok).0;
            && id < |next.elements| && SameFlow(sh.elements[id], next.elements[id])
            && next.elements[id].gen == if c.at.goal == ForRefresh(id) then c.config.policyGen else sh.elements[id].gen
  {
  }

  /** The accesses that may append a record. */
  predicate Appends(at: At) {
    at.Track? || at.InsertPending? || at.Replace? || at.ShedInsert?
  }

  lemma AppendWrites(sh: Shared, c: Cpu, ok: bool, id: nat)
    requires c.Busy? && Appends(c.at) && id < |sh.elements|
    ensures var next := Move(sh, c, ok).0; id < |next.elements| && next.elements[id] == sh.elements[id]
  {
  }

  lemma NoOtherWrite(sh: Shared, c: Cpu, ok: bool)
    requires c.Busy? && !c.at.Answered? && !Appends(c.at)
    ensures Move(sh, c, ok).0.elements == sh.elements
  {
    hide VerdictOf, PolicyAt, SubjectOf, PrefixHint, PortHint, MergeHint, Settle, Use, Stored;
  }

  /** Only a refresh changes a record, and it leaves the refreshing packet's generation. */
  lemma StepWrites(s: State, e: Event, id: nat)
    requires id < |s.shared.elements|
    ensures var r := Step(s, e);
            && id < |r.shared.elements| && SameFlow(s.shared.elements[id], r.shared.elements[id])
            && r.shared.elements[id].gen ==
               if Refreshes(s, e, id) then s.cpus[e.cpu].config.policyGen else s.shared.elements[id].gen
  {
    hide Move, Policies, Contents;
    if e.Advance? && e.cpu < |s.cpus| && s.cpus[e.cpu].Busy? {
      var c := s.cpus[e.cpu];
      if c.at.Answered? {
        WriteByRefresh(s.shared, c, e.ok, id);
      } else if Appends(c.at) {
        AppendWrites(s.shared, c, e.ok, id);
      } else {
        NoOtherWrite(s.shared, c, e.ok);
      }
    }
  }

  lemma {:induction false} RecordFollowsLastWriter(s: State, events: seq<Event>, id: nat)
    requires id < |s.shared.elements|
    ensures var r := RunFrom(s, events);
            && id < |r.shared.elements| && SameFlow(s.shared.elements[id], r.shared.elements[id])
            && r.shared.elements[id].gen == LastWriter(s, events, id, s.shared.elements[id].gen)
  {
    hide Step;
    if events != [] {
      var n := |events| - 1;
      RecordFollowsLastWriter(s, events[..n], id);
      StepWrites(RunFrom(s, events[..n]), events[n], id);
    }
  }

  // ----- The packet between its check and its re-read -----

  /** The access after which the packet will read its record again. */
  predicate Checks(s: State, c: nat, ok: bool) {
    && c < |s.cpus| && s.cpus[c].Busy?
    && var cpu := Step(s, Advance(c, ok)).cpus[c]; cpu.Busy? && cpu.at.Reread?
  }

  /** The check leaves a record of the packet's own generation. */
  lemma CheckIsOwn(s: State, c: nat, ok: bool)
    requires Checks(s, c, ok)
    ensures var r := Step(s, Advance(c, ok));
            var cpu := r.cpus[c];
            c < |r.cpus| && cpu.at.id < |r.shared.elements| && r.shared.elements[cpu.at.id].gen == cpu.config.policyGen
  {
    hide Move;
    CheckLeavesOwn(s.shared, s.cpus[c], ok);
  }

  lemma CheckLeavesOwn(sh: Shared, c: Cpu, ok: bool)
    requires c.Busy?
    ensures var (next, cpu) := Move(sh, c, ok);
            cpu.Busy? && cpu.at.Reread? ==>
              cpu.at.id < |next.elements| && next.elements[cpu.at.id].gen == cpu.config.policyGen
  {
    hide Move;
    if c.at.Inspect? || c.at.ShedInspect? || c.at.Answered? {
      LookLeavesOwn(sh, c, ok);
    } else {
      NoReread(sh, c, ok);
    }
  }

  lemma LookLeavesOwn(sh: Shared, c: Cpu, ok: bool)
    requires c.Busy? && (c.at.Inspect? || c.at.ShedInspect? || c.at.Answered?)
    ensures var (next, cpu) := Move(sh, c, ok);
            cpu.Busy? && cpu.at.Reread? ==>
              cpu.at.id < |next.elements| && next.elements[cpu.at.id].gen == cpu.config.policyGen
  {
  }

  /** No other access leads to a second look. */
  lemma NoReread(sh: Shared, c: Cpu, ok: bool)
    requires c.Busy? && !c.at.Inspect? && !c.at.ShedInspect? && !c.at.Answered?
    ensures var cpu := Move(sh, c, ok).1; !(cpu.Busy? && cpu.at.Reread?)
  {
    hide VerdictOf, PolicyAt, SubjectOf, PrefixHint, PortHint, MergeHint, Settle, Stored, Use, InspectFlow, ShedInspectFlow;
  }

  /** The packet on CPU `c` takes no step. */
  predicate Waits(events: seq<Event>, c: nat) {
    forall k :: 0 <= k < |events| && events[k].Advance? ==> events[k].cpu != c
  }

  lemma {:induction false} WaitingStays(s: State, events: seq<Event>, c: nat)
    requires c < |s.cpus| && s.cpus[c].Busy? && Waits(events, c)
    ensures var r := RunFrom(s, events); c < |r.cpus| && r.cpus[c] == s.cpus[c]
  {
    hide Move, Policies, Contents;
    if events != [] { WaitingStays(s, events[..|events| - 1], c); }
  }

  lemma {:induction false} RunFromKeepsInv(s: State, events: seq<Event>)
    requires Inv(s) && DisciplinedFrom(s, events)
    ensures Inv(RunFrom(s, events))
  {
    hide Inv, Step;
    if events != [] {
      var n := |events| - 1;
      RunFromKeepsInv(s, events[..n]);
      StepKeepsInv(RunFrom(s, events[..n]), events[n]);
    }
  }

  /** What the packet emits when it reads its record again. */
  function MarkOnReread(s: State, c: nat): Emission
    requires c < |s.cpus| && s.cpus[c].Busy? && s.cpus[c].at.Reread? && s.cpus[c].at.id < |s.shared.elements|
  {
    var cpu := s.cpus[c];
    Emission(cpu.packet, cpu.config, cpu.view, cpu.subject, Cached(s.shared.elements[cpu.at.id]))
  }

  /**
   * For every packet that checked a record, and whatever happens before it reads the record again: it emits exactly
   * one mark, for its own snapshot, with the verdict that the generation of the record's last writer gives. That is
   * the verdict of the packet's own snapshot exactly when the two generations agree on the flow.
   */
  lemma MarkFollowsLastWriter(cpus: nat, events: seq<Event>, c: nat, ok: bool, more: seq<Event>, last: bool)
    requires Assumed(cpus, events) && Checks(Run(cpus, events), c, ok) && Waits(more, c)
    requires DisciplinedFrom(Step(Run(cpus, events), Advance(c, ok)), more)
    ensures var s := Step(Run(cpus, events), Advance(c, ok));
            var r := RunFrom(s, more);
            var cpu := s.cpus[c];
            && c < |r.cpus| && r.cpus[c] == cpu && cpu.at.id < |r.shared.elements|
            && var m := MarkOnReread(r, c);
               && Step(r, Advance(c, last)).shared.log == r.shared.log + [m]
               && m.config == cpu.config && m.view == cpu.view && m.subject == cpu.subject
               && var gen := LastWriter(s, more, cpu.at.id, cpu.config.policyGen);
                  var e := m.cause.entry;
                  && e.gen == gen && gen in r.history
                  && e.verdict == VerdictOf(r.history[gen].policies, m.subject, e.classId)
                  && (gen == cpu.config.policyGen ==> e.verdict == VerdictOf(m.view, m.subject, e.classId))
                  && (e.verdict == VerdictOf(m.view, m.subject, e.classId) <==>
                      VerdictOf(r.history[gen].policies, m.subject, e.classId) == VerdictOf(m.view, m.subject, e.classId))
  {
    var s0 := Run(cpus, events);
    var s := Step(s0, Advance(c, ok));
    var r := RunFrom(s, more);
    hide Run, RunFrom, LastWriter, Step, Inv, DisciplinedFrom;
    RunKeepsInv(cpus, events);
    StepKeepsInv(s0, Advance(c, ok));
    CheckIsOwn(s0, c, ok);
    WaitingStays(s, more, c);
    RunFromKeepsInv(s, more);
    RecordFollowsLastWriter(s, more, s.cpus[c].at.id);
    RereadEmits(r, c, last);
  }

  /** One step of a packet that is about to read its record again. */
  lemma RereadEmits(s: State, c: nat, ok: bool)
    requires Inv(s) && c < |s.cpus| && s.cpus[c].Busy? && s.cpus[c].at.Reread?
    ensures s.cpus[c].at.id < |s.shared.elements|
    ensures var m := MarkOnReread(s, c);
            var e := m.cause.entry;
            && Step(s, Advance(c, ok)).shared.log == s.shared.log + [m]
            && e.gen in s.history && e.verdict == VerdictOf(s.history[e.gen].policies, m.subject, e.classId)
            && (e.gen == m.config.policyGen ==> e.verdict == VerdictOf(m.view, m.subject, e.classId))
  {
    hide Policies, Contents, Holders, FlowsOk, LogOk, PublisherOk, VerdictOf;
    assert CpuOk(s, s.cpus[c]);
    var e := s.shared.elements[s.cpus[c].at.id];
    assert EntryOk(s.history, e);
    SnapshotVerdict(s, s.cpus[c], e.classId);
  }

  /**
   * Over every run, a mark from a record is the verdict of the packet's own snapshot exactly when the record's
   * generation gives the flow the same verdict as that snapshot.
   */
  lemma CachedMarkExact(cpus: nat, events: seq<Event>, i: nat)
    requires Assumed(cpus, events) && i < |Run(cpus, events).shared.log| && Run(cpus, events).shared.log[i].cause.Cached?
    ensures var s := Run(cpus, events);
            var m := s.shared.log[i];
            var e := m.cause.entry;
            && e.gen in s.history && e.subject == m.subject
            && (e.verdict == VerdictOf(m.view, m.subject, e.classId) <==>
                VerdictOf(s.history[e.gen].policies, m.subject, e.classId) == VerdictOf(m.view, m.subject, e.classId))
  {
    hide Run, Assumed, VerdictOf;
    EveryMarkJustified(cpus, events, i);
  }

  // ----- When the mark is the packet's own -----

  /** No packet of another generation refreshes the record. */
  predicate NoForeignRefresh(s: State, events: seq<Event>, id: nat, gen: nat) {
    forall k :: 0 <= k < |events| ==> !ForeignRefresh(RunFrom(s, events[..k]), events[k], id, gen)
  }

  predicate ForeignRefresh(s: State, e: Event, id: nat, gen: nat) {
    Refreshes(s, e, id) && s.cpus[e.cpu].config.policyGen != gen
  }

  lemma {:induction false} OwnGenerationStays(s: State, events: seq<Event>, id: nat, gen: nat)
    requires NoForeignRefresh(s, events, id, gen)
    ensures LastWriter(s, events, id, gen) == gen
  {
    if events != [] {
      var n := |events| - 1;
      forall k | 0 <= k < n
        ensures !ForeignRefresh(RunFrom(s, events[..n][..k]), events[..n][k], id, gen)
      {
        assert events[..n][..k] == events[..k];
      }
      OwnGenerationStays(s, events[..n], id, gen);
      assert !ForeignRefresh(RunFrom(s, events[..n]), events[n], id, gen);
    }
  }

  /**
   * A packet whose record no packet of another generation refreshes between its two accesses is marked with the
   * verdict an uncached lookup in its own snapshot gives, however many publications and packets there are besides.
   */
  lemma UndisturbedMark(cpus: nat, events: seq<Event>, c: nat, ok: bool, more: seq<Event>)
    requires Assumed(cpus, events) && Checks(Run(cpus, events), c, ok) && Waits(more, c)
    requires DisciplinedFrom(Step(Run(cpus, events), Advance(c, ok)), more)
    requires var s := Step(Run(cpus, events), Advance(c, ok));
             c < |s.cpus| && NoForeignRefresh(s, more, s.cpus[c].at.id, s.cpus[c].config.policyGen)
    ensures var r := RunFrom(Step(Run(cpus, events), Advance(c, ok)), more);
            && c < |r.cpus| && r.cpus[c].Busy? && r.cpus[c].at.Reread? && r.cpus[c].at.id < |r.shared.elements|
            && var m := MarkOnReread(r, c);
               && Step(r, Advance(c, true)).shared.log == r.shared.log + [m]
               && m.cause.entry.verdict == VerdictOf(m.view, m.subject, m.cause.entry.classId)
  {
    var s := Step(Run(cpus, events), Advance(c, ok));
    hide Run, RunFrom, Step, Inv, LastWriter, NoForeignRefresh, DisciplinedFrom;
    MarkFollowsLastWriter(cpus, events, c, ok, more, true);
    OwnGenerationStays(s, more, s.cpus[c].at.id, s.cpus[c].config.policyGen);
  }

  // ----- A guard that looks only at captures and publications -----

  /** The config record and every packet inside are of one generation. */
  predicate OneGeneration(s: State, gen: nat) {
    && (s.shared.config.enabled ==> s.shared.config.policyGen == gen)
    && forall c :: 0 <= c < |s.cpus| && s.cpus[c].Busy? ==> s.cpus[c].config.policyGen == gen
  }

  lemma StepKeepsOneGeneration(s: State, e: Event, gen: nat)
    requires OneGeneration(s, gen) && !e.Publish?
    requires e.Advance? && e.cpu < |s.cpus| && s.cpus[e.cpu].Busy? ==>
               Move(s.shared, s.cpus[e.cpu], e.ok).0.config == s.shared.config
    ensures OneGeneration(Step(s, e), gen)
  {
    hide Move;
    if e.Advance? && e.cpu < |s.cpus| && s.cpus[e.cpu].Busy? { MoveKeepsConfig(s.shared, s.cpus[e.cpu], e.ok); }
  }

  /** A packet never writes the config record. */
  lemma MoveKeepsRecord(s: State, c: nat, ok: bool)
    requires Inv(s) && c < |s.cpus| && s.cpus[c].Busy?
    ensures Move(s.shared, s.cpus[c], ok).0.config == s.shared.config
  {
    hide Move, EmissionOk, EntryOk, Captured, Holding, Contents;
    HoldersUpdate(s.cpus, c, s.cpus[c]);
    assert CpuOk(s, s.cpus[c]);
    MoveAllowed(s, s.cpus[c], ok);
  }

  lemma {:induction false} OneGenerationStays(s: State, events: seq<Event>, gen: nat)
    requires Inv(s) && OneGeneration(s, gen) && NoPublish(events) && DisciplinedFrom(s, events)
    ensures Inv(RunFrom(s, events)) && OneGeneration(RunFrom(s, events), gen)
  {
    hide Inv, OneGeneration, Step, Move;
    if events != [] {
      var n := |events| - 1;
      OneGenerationStays(s, events[..n], gen);
      var r := RunFrom(s, events[..n]);
      var e := events[n];
      StepKeepsInv(r, e);
      if e.Advance? && e.cpu < |r.cpus| && r.cpus[e.cpu].Busy? { MoveKeepsRecord(r, e.cpu, e.ok); }
      StepKeepsOneGeneration(r, e, gen);
    }
  }

  lemma {:induction false} DisciplinedPrefix(s: State, events: seq<Event>, n: nat)
    requires n <= |events| && DisciplinedFrom(s, events)
    ensures DisciplinedFrom(s, events[..n])
  {
    hide Disciplined;
    if n < |events| {
      DisciplinedPrefix(s, events[..|events| - 1], n);
      assert events[..|events| - 1][..n] == events[..n];
    } else {
      assert events[..n] == events;
    }
  }

  /** Without a publication, and with packets of one generation only, no record is refreshed by another generation. */
  lemma QuietIsUndisturbed(s: State, events: seq<Event>, id: nat, gen: nat)
    requires Inv(s) && OneGeneration(s, gen) && NoPublish(events) && DisciplinedFrom(s, events)
    ensures NoForeignRefresh(s, events, id, gen)
  {
    hide Inv, RunFrom, DisciplinedFrom;
    forall k | 0 <= k < |events|
      ensures !ForeignRefresh(RunFrom(s, events[..k]), events[k], id, gen)
    {
      DisciplinedPrefix(s, events, k);
      OneGenerationStays(s, events[..k], gen);
    }
  }

  /**
   * The guard in terms of captures: from any state where all packets inside are of the published generation, as long
   * as nothing is published, every packet that is marked from a record gets the verdict of its own snapshot.
   */
  lemma QuietMark(cpus: nat, events: seq<Event>, between: seq<Event>, gen: nat, c: nat, ok: bool, more: seq<Event>)
    requires Assumed(cpus, events) && OneGeneration(Run(cpus, events), gen)
    requires NoPublish(between) && DisciplinedFrom(Run(cpus, events), between)
    requires var s0 := RunFrom(Run(cpus, events), between);
             Checks(s0, c, ok) && DisciplinedFrom(Step(s0, Advance(c, ok)), more)
    requires NoPublish(more) && Waits(more, c)
    ensures var r := RunFrom(Step(RunFrom(Run(cpus, events), between), Advance(c, ok)), more);
            && c < |r.cpus| && r.cpus[c].Busy? && r.cpus[c].at.Reread? && r.cpus[c].at.id < |r.shared.elements|
            && var m := MarkOnReread(r, c);
               && Step(r, Advance(c, true)).shared.log == r.shared.log + [m]
               && m.cause.entry.verdict == VerdictOf(m.view, m.subject, m.cause.entry.classId)
  {
    var s := Run(cpus, events);
    hide Run, RunFrom, Step, Inv, LastWriter, NoForeignRefresh, DisciplinedFrom, Assumed, OneGeneration;
    RunKeepsInv(cpus, events);
    OneGenerationStays(s, between, gen);
    Joined(cpus, events, between);
    var s0 := RunFrom(s, between);
    OneGenerationSteps(s0, c, ok, gen);
    QuietIsUndisturbed(Step(s0, Advance(c, ok)), more, Step(s0, Advance(c, ok)).cpus[c].at.id, gen);
    UndisturbedMark(cpus, events + between, c, ok, more);
  }

  lemma OneGenerationSteps(s: State, c: nat, ok: bool, gen: nat)
    requires Inv(s) && OneGeneration(s, gen) && Checks(s, c, ok)
    ensures var r := Step(s, Advance(c, ok));
            Inv(r) && OneGeneration(r, gen) && c < |r.cpus| && r.cpus[c].config.policyGen == gen
  {
    hide Inv, Move;
    StepKeepsInv(s, Advance(c, ok));
    MoveKeepsRecord(s, c, ok);
    StepKeepsOneGeneration(s, Advance(c, ok), gen);
  }

  /** A disciplined continuation of a disciplined run is a disciplined run. */
  lemma {:induction false} Joined(cpus: nat, events: seq<Event>, more: seq<Event>)
    requires Assumed(cpus, events) && DisciplinedFrom(Run(cpus, events), more)
    ensures Assumed(cpus, events + more) && Run(cpus, events + more) == RunFrom(Run(cpus, events), more)
  {
    hide Step, Disciplined;
    if more == [] {
      assert events + more == events;
    } else {
      var n := |more| - 1;
      Joined(cpus, events, more[..n]);
      var all := events + more;
      assert all[..|all| - 1] == events + more[..n] && all[|all| - 1] == more[n];
    }
  }
}
