/** Safety of the datapath machine over every run: slot isolation, verdict-cache coherence, and the reservation count. */
module DatapathSafety {
  import opened Common
  import opened Hints
  import opened Tables
  import opened Datapath

  // ----- One packet step -----

  /** Records keep what they are, and never fall back to a generation without enforcement. */
  predicate Evolves(history: map<nat, Era>, a: seq<Entry>, b: seq<Entry>) {
    && |a| <= |b|
    && forall i :: 0 <= i < |a| ==> SameRecord(history, a[i], b[i])
  }

  predicate SameRecord(history: map<nat, Era>, a: Entry, b: Entry) {
    && b == a.(verdict := b.verdict, gen := b.gen)
    && (Enforcing(history, a.gen) ==> Enforcing(history, b.gen))
  }

  predicate LogGrows(s: State, a: seq<Emission>, b: seq<Emission>) {
    b == a || (|b| == |a| + 1 && b[..|a|] == a && EmissionOk(s, b[|a|]))
  }

  function Units(c: Cpu): nat {
    if Holding(c) then 1 else 0
  }

  /** What one step may do to the shared state and to the packet that takes it. */
  predicate Allowed(s: State, c: Cpu, sh: Shared, c': Cpu) {
    && sh.config == s.shared.config && sh.slotA == s.shared.slotA && sh.slotB == s.shared.slotB
    && Evolves(s.history, s.shared.elements, sh.elements)
    && FlowsOk(sh) && EntriesOk(s.history, sh.elements)
    && CpuOk(s.(shared := sh), c')
    && LogGrows(s, s.shared.log, sh.log)
    && sh.reserved + Units(c) == s.shared.reserved + Units(c')
  }

  predicate Ready(s: State, c: Cpu) {
    && c.Busy? && CpuOk(s, c) && FlowsOk(s.shared) && EntriesOk(s.history, s.shared.elements)
    && s.shared.reserved >= Units(c)
  }

  lemma StoreAllowed(s: State, c: Cpu, e: Entry, c': Cpu, sh: Shared)
    requires Ready(s, c) && EntryOk(s.history, e) && e.subject == c.subject
    requires sh == Stored(s.shared, KeyOf(c), e)
    ensures Evolves(s.history, s.shared.elements, sh.elements) && FlowsOk(sh) && EntriesOk(s.history, sh.elements)
  {
  }

  lemma RefreshAllowed(s: State, c: Cpu, id: nat, verdict: Verdict)
    requires Ready(s, c) && c.config.enforcement && id < |s.shared.elements|
    requires s.shared.elements[id].subject == c.subject && !s.shared.elements[id].pending
    requires verdict == VerdictOf(c.view, c.subject, s.shared.elements[id].classId)
    ensures var e := s.shared.elements[id].(verdict := verdict, gen := c.config.policyGen);
            var sh := s.shared.(elements := s.shared.elements[id := e]);
            && Coherent(s.history, e)
            && Evolves(s.history, s.shared.elements, sh.elements) && FlowsOk(sh) && EntriesOk(s.history, sh.elements)
  {
  }

  /** The captured slot and the recorded meaning of its generation give the same verdicts. */
  lemma SnapshotVerdict(s: State, c: Cpu, classId: nat)
    requires c.Busy? && Captured(s, c.config, c.view)
    ensures VerdictOf(s.history[c.config.policyGen].policies, c.subject, classId) == VerdictOf(c.view, c.subject, classId)
  {
  }

  lemma Unchanged(s: State)
    ensures Evolves(s.history, s.shared.elements, s.shared.elements)
  {
  }

  lemma UseAllowed(s: State, c: Cpu)
    requires Ready(s, c) && c.at.Answered?
    ensures var (sh, c') := Use(s.shared, c, c.at.goal, c.at.classId, c.at.verdict); Allowed(s, c, sh, c')
  {
    hide VerdictOf, PolicyAt, SubjectOf, Policies, EntriesOk, Evolves, EntryOk;
    match c.at.goal
    case ForRefresh(id) => RefreshAllowed(s, c, id, c.at.verdict);
    case _ => Unchanged(s);
  }

  lemma RecordOk(s: State, id: nat)
    requires EntriesOk(s.history, s.shared.elements) && id < |s.shared.elements|
    ensures EntryOk(s.history, s.shared.elements[id])
  {
  }

  lemma InspectAllowed(s: State, c: Cpu)
    requires Ready(s, c) && c.at.Inspect?
    ensures var (sh, c') := InspectFlow(s.shared, c, c.at.id); Allowed(s, c, sh, c')
  {
    hide VerdictOf, PolicyAt, SubjectOf, Policies, Captured, Evolves, EntriesOk;
    if c.at.id < |s.shared.elements| { RecordOk(s, c.at.id); }
    Unchanged(s);
    SameCaptured(s, s.(shared := InspectFlow(s.shared, c, c.at.id).0));
  }

  lemma ShedInspectAllowed(s: State, c: Cpu)
    requires Ready(s, c) && c.at.ShedInspect?
    ensures var (sh, c') := ShedInspectFlow(s.shared, c, c.at.id); Allowed(s, c, sh, c')
  {
    hide VerdictOf, PolicyAt, SubjectOf, Policies, Evolves;
    Unchanged(s);
  }

  lemma AskAllowed(s: State, c: Cpu, ok: bool)
    requires Ready(s, c) && c.at.Ask?
    ensures var (sh, c') := Move(s.shared, c, ok); Allowed(s, c, sh, c')
  {
  }

  lemma TrackAllowed(s: State, c: Cpu, ok: bool)
    requires Ready(s, c) && c.at.Track?
    ensures var (sh, c') := Move(s.shared, c, ok); Allowed(s, c, sh, c')
  {
  }

  lemma InsertPendingAllowed(s: State, c: Cpu, ok: bool)
    requires Ready(s, c) && c.at.InsertPending?
    ensures var (sh, c') := Move(s.shared, c, ok); Allowed(s, c, sh, c')
  {
  }

  lemma ReplaceAllowed(s: State, c: Cpu, ok: bool)
    requires Ready(s, c) && c.at.Replace?
    ensures var (sh, c') := Move(s.shared, c, ok); Allowed(s, c, sh, c')
  {
    SnapshotVerdict(s, c, c.at.entry.classId);
    StoreAllowed(s, c, c.at.entry, Idle, Stored(s.shared, KeyOf(c), c.at.entry));
  }

  lemma ShedInsertAllowed(s: State, c: Cpu, ok: bool)
    requires Ready(s, c) && c.at.ShedInsert?
    ensures var (sh, c') := Move(s.shared, c, ok); Allowed(s, c, sh, c')
  {
    hide VerdictOf, PolicyAt, SubjectOf, Policies, Evolves, EntriesOk;
    SnapshotVerdict(s, c, CLASS_UNCLASSIFIED);
    var e := Terminal(c, CLASS_UNCLASSIFIED, NoKind, c.at.verdict);
    StoreAllowed(s, c, e, Idle, Stored(s.shared, KeyOf(c), e));
    Unchanged(s);
  }

  lemma FindSubjectAllowed(s: State, c: Cpu, ok: bool)
    requires Ready(s, c) && c.at.FindSubject?
    ensures var (sh, c') := Move(s.shared, c, ok); Allowed(s, c, sh, c')
  {
  }

  lemma FindFlowAllowed(s: State, c: Cpu, ok: bool)
    requires Ready(s, c) && c.at.FindFlow?
    ensures var (sh, c') := Move(s.shared, c, ok); Allowed(s, c, sh, c')
  {
    hide VerdictOf, PolicyAt, SubjectOf, Policies, Captured, Evolves, EntryOk, EntriesOk, EmissionOk;
    Unchanged(s);
  }

  lemma ShedFindAllowed(s: State, c: Cpu, ok: bool)
    requires Ready(s, c) && c.at.ShedFind?
    ensures var (sh, c') := Move(s.shared, c, ok); Allowed(s, c, sh, c')
  {
    hide VerdictOf, PolicyAt, SubjectOf, Policies, Captured, Evolves, EntryOk, EntriesOk;
    Unchanged(s);
  }

  lemma EmitReleaseAllowed(s: State, c: Cpu, ok: bool)
    requires Ready(s, c) && c.at == Release(EmitProvisional)
    ensures var (sh, c') := Move(s.shared, c, ok); Allowed(s, c, sh, c')
  {
    hide EntryOk, EntriesOk, VerdictOf, PolicyAt, SubjectOf, Captured, Policies, Evolves;
    Unchanged(s);
    SameCaptured(s, s.(shared := Move(s.shared, c, ok).0));
  }

  /** A step that changes nothing shared but the reservation count. */
  lemma ReservationAllowed(s: State, c: Cpu, reserved: nat, c': Cpu)
    requires Ready(s, c) && CpuOk(s, c') && reserved + Units(c) == s.shared.reserved + Units(c')
    ensures Allowed(s, c, s.shared.(reserved := reserved), c')
  {
    hide EntryOk, EntriesOk, Captured, Policies, Evolves, Units, AtOk;
    Unchanged(s);
    SameCaptured(s, s.(shared := s.shared.(reserved := reserved)));
  }

  lemma ShedReleaseAllowed(s: State, c: Cpu, ok: bool)
    requires Ready(s, c) && c.at.Release? && !c.at.next.EmitProvisional?
    ensures var (sh, c') := Move(s.shared, c, ok); Allowed(s, c, sh, c')
  {
    hide EntryOk, EntriesOk, VerdictOf, PolicyAt, SubjectOf, Captured, Policies, Allowed, FlowsOk;
    var c' := c.(at := if c.at.next.LoadShed? then Ask(ForShed, CLASS_UNCLASSIFIED, false) else DeleteFlow);
    ReservationAllowed(s, c, Released(s.shared).reserved, c');
  }

  lemma DeleteAllowed(s: State, c: Cpu, ok: bool)
    requires Ready(s, c) && c.at.DeleteFlow?
    ensures var (sh, c') := Move(s.shared, c, ok); Allowed(s, c, sh, c')
  {
    hide EntryOk, EntriesOk, VerdictOf, PolicyAt, SubjectOf, Captured, Policies, Evolves;
    Unchanged(s);
    SameCaptured(s, s.(shared := Move(s.shared, c, ok).0));
  }

  lemma OtherAllowed(s: State, c: Cpu, ok: bool)
    requires Ready(s, c) && (c.at.Reread? || c.at.Admit? || c.at.ReadPrefix? || c.at.ReadPort?)
    ensures var (sh, c') := Move(s.shared, c, ok); Allowed(s, c, sh, c')
  {
    hide VerdictOf, PolicyAt, SubjectOf, Policies, Captured, Evolves, PrefixHint, PortHint, MergeHint, Settle;
    Unchanged(s);
    SameCaptured(s, s.(shared := Move(s.shared, c, ok).0));
  }

  lemma MoveAllowed(s: State, c: Cpu, ok: bool)
    requires Ready(s, c)
    ensures var (sh, c') := Move(s.shared, c, ok); Allowed(s, c, sh, c')
  {
    assert c.Busy?;
    hide Allowed, Ready;
    match c.at
    case Ask(_, _, _) => AskAllowed(s, c, ok);
    case Answered(_, _, _) => UseAllowed(s, c);
    case Inspect(_) => InspectAllowed(s, c);
    case ShedInspect(_) => ShedInspectAllowed(s, c);
    case Track => TrackAllowed(s, c, ok);
    case InsertPending => InsertPendingAllowed(s, c, ok);
    case Replace(_) => ReplaceAllowed(s, c, ok);
    case ShedInsert(_) => ShedInsertAllowed(s, c, ok);
    case FindSubject => FindSubjectAllowed(s, c, ok);
    case FindFlow => FindFlowAllowed(s, c, ok);
    case ShedFind(_) => ShedFindAllowed(s, c, ok);
    case Release(next) =>
      if next.EmitProvisional? { EmitReleaseAllowed(s, c, ok); } else { ShedReleaseAllowed(s, c, ok); }
    case DeleteFlow => DeleteAllowed(s, c, ok);
    case _ => OtherAllowed(s, c, ok);
  }

  // ----- One step of the machine -----

  lemma {:induction false} HoldersUpdate(cpus: seq<Cpu>, c: nat, x: Cpu)
    requires c < |cpus|
    ensures Holders(cpus[c := x]) + Units(cpus[c]) == Holders(cpus) + Units(x)
    ensures Holders(cpus) >= Units(cpus[c])
  {
    hide Holding;
    var n := |cpus| - 1;
    if c < n {
      HoldersUpdate(cpus[..n], c, x);
      assert cpus[c := x][..n] == cpus[..n][c := x];
    } else {
      assert cpus[c := x][..n] == cpus[..n];
    }
  }

  /** What holds of the other packets survives a step of one. */
  lemma OthersUnmoved(s: State, sh: Shared, other: Cpu)
    requires CpuOk(s, other) && sh.slotA == s.shared.slotA && sh.slotB == s.shared.slotB
    requires Evolves(s.history, s.shared.elements, sh.elements)
    ensures CpuOk(s.(shared := sh), other)
  {
  }

  lemma AdvanceKeepsInv(s: State, c: nat, ok: bool)
    requires Inv(s) && c < |s.cpus| && s.cpus[c].Busy?
    ensures Inv(Step(s, Advance(c, ok)))
  {
    hide CpuOk, EmissionOk, EntryOk, Captured, SameRecord, Holding, Move, Contents;
    var cpu := s.cpus[c];
    HoldersUpdate(s.cpus, c, cpu);
    assert CpuOk(s, cpu);
    MoveAllowed(s, cpu, ok);
    var (sh, cpu') := Move(s.shared, cpu, ok);
    HoldersUpdate(s.cpus, c, cpu');
    var r := s.(shared := sh, cpus := s.cpus[c := cpu']);
    assert Step(s, Advance(c, ok)) == r;
    forall i | 0 <= i < |r.cpus|
      ensures CpuOk(r, r.cpus[i])
    {
      if i != c { OthersUnmoved(s, sh, s.cpus[i]); }
      SameView(s.(shared := sh), r, r.cpus[i]);
    }
    forall i | 0 <= i < |sh.log|
      ensures EmissionOk(r, sh.log[i])
    {
      if i < |s.shared.log| { assert sh.log[i] == s.shared.log[i]; }
      SameEmission(s, r, sh.log[i]);
    }
    GraceStays(s, c, ok);
    SameCaptured(s, r);
  }

  /** The CPU list and the publisher do not matter to what one packet knows. */
  lemma SameView(a: State, b: State, c: Cpu)
    requires a.shared == b.shared && a.history == b.history && a.releases == b.releases && CpuOk(a, c)
    ensures CpuOk(b, c)
  {
  }

  lemma SameEmission(a: State, b: State, m: Emission)
    requires a.history == b.history && a.releases == b.releases && EmissionOk(a, m)
    ensures EmissionOk(b, m)
  {
  }

  lemma SameCaptured(a: State, b: State)
    requires a.history == b.history && a.releases == b.releases
    ensures forall config, view :: Captured(a, config, view) == Captured(b, config, view)
  {
  }

  /** A packet keeps its captured record until it is done. */
  lemma MoveKeepsConfig(sh: Shared, c: Cpu, ok: bool)
    requires c.Busy?
    ensures var c' := Move(sh, c, ok).1; c'.Busy? ==> c'.config == c.config && c'.view == c.view && c'.packet == c.packet
  {
    hide VerdictOf, PolicyAt, SubjectOf, PrefixHint, PortHint, MergeHint, Settle, Stored;
  }

  lemma GraceStays(s: State, c: nat, ok: bool)
    requires PublisherOk(s) && c < |s.cpus| && s.cpus[c].Busy?
    requires var sh := Move(s.shared, s.cpus[c], ok).0;
             sh.config == s.shared.config && sh.slotA == s.shared.slotA && sh.slotB == s.shared.slotB
    ensures PublisherOk(Step(s, Advance(c, ok)))
  {
    hide Move, Contents;
    MoveKeepsConfig(s.shared, s.cpus[c], ok);
  }

  lemma CaptureKeepsInv(s: State, c: nat, packet: Packet)
    requires Inv(s)
    ensures Inv(Step(s, Capture(c, packet)))
  {
    hide EmissionOk, EntryOk, Captured, Contents, AtOk;
    var r := Step(s, Capture(c, packet));
    if r != s {
      var cpu := r.cpus[c];
      HoldersUpdate(s.cpus, c, cpu);
      SameCaptured(s, r);
      FreshOk(s.history, s.shared.elements, cpu);
      forall i | 0 <= i < |r.cpus|
        ensures CpuOk(r, r.cpus[i])
      {
        if i != c { SameView(s, r, r.cpus[i]); }
      }
      forall i | 0 <= i < |s.shared.log|
        ensures EmissionOk(r, s.shared.log[i])
      {
        SameEmission(s, r, s.shared.log[i]);
      }
    }
  }

  lemma FreshOk(history: map<nat, Era>, elements: seq<Entry>, c: Cpu)
    requires c.Busy? && c.at.FindSubject?
    ensures AtOk(history, elements, c)
  {
  }

  /** Steps that touch neither packets, records nor marks: only the publisher, the inactive slot, or the flow map. */
  predicate Aside(s: State, r: State) {
    && r.cpus == s.cpus && r.history == s.history && r.releases == s.releases
    && SlotOf(r.shared, s.shared.config.slot) == SlotOf(s.shared, s.shared.config.slot)
    && r.shared.config.(enabled := s.shared.config.enabled) == s.shared.config
    && (r.shared.config.enabled ==> s.shared.config.enabled)
    && r.shared.elements == s.shared.elements && r.shared.log == s.shared.log && r.shared.reserved == s.shared.reserved
    && (forall k :: k in r.shared.flows ==> k in s.shared.flows && r.shared.flows[k] == s.shared.flows[k])
  }

  lemma AsideKeepsInv(s: State, r: State)
    requires Inv(s) && Aside(s, r) && PublisherOk(r)
    requires (r.shared.slotA == s.shared.slotA && r.shared.slotB == s.shared.slotB) || GraceElapsed(s)
    ensures Inv(r)
  {
  }

  lemma FillKeepsContents(entries: seq<(Key, Val)>, n: nat)
    requires n < |entries|
    ensures Contents(entries[..n + 1]) == Contents(entries[..n])[entries[n].0 := entries[n].1]
  {
    assert entries[..n + 1][..n] == entries[..n];
  }

  lemma FillAside(s: State)
    requires PublisherOk(s)
    ensures Aside(s, Step(s, FillOne)) && PublisherOk(Step(s, FillOne))
  {
    hide Contents, Policies;
    if s.publisher.Filling? && s.publisher.done < |s.publisher.snapshot.entries| {
      FillKeepsContents(s.publisher.snapshot.entries, s.publisher.done);
    }
  }

  lemma RebuildAside(s: State, e: Event)
    requires PublisherOk(s) && Disciplined(s, e)
    requires e.BeginSync? || e.ClearOne? || e.BeginFill? || e.Abort? || e.Disable? || e.Expire?
    ensures Aside(s, Step(s, e)) && PublisherOk(Step(s, e))
  {
    hide Policies;
  }

  /** Everything the publisher does short of publishing. */
  lemma SyncKeepsInv(s: State, e: Event)
    requires Inv(s) && Disciplined(s, e)
    requires e.BeginSync? || e.ClearOne? || e.BeginFill? || e.FillOne? || e.Abort? || e.Disable? || e.Expire?
    ensures Inv(Step(s, e)) && Aside(s, Step(s, e))
  {
    hide EmissionOk, EntryOk, Captured, CpuOk, Holders, FlowsOk, EntriesOk, LogOk, CpusOk, Aside;
    if e.FillOne? { FillAside(s); } else { RebuildAside(s, e); }
    AsideKeepsInv(s, Step(s, e));
  }

  /** History only gains generations, and releases only gain records. */
  predicate Extends(s: State, r: State) {
    && (forall g :: g in s.history ==> g in r.history && r.history[g] == s.history[g])
    && s.releases <= r.releases
  }

  lemma CpuStays(s: State, r: State, c: Cpu)
    requires Extends(s, r) && CpuOk(s, c)
    requires r.shared.slotA == s.shared.slotA && r.shared.slotB == s.shared.slotB && r.shared.elements == s.shared.elements
    ensures CpuOk(r, c)
  {
  }

  lemma EmissionStays(s: State, r: State, m: Emission)
    requires Extends(s, r) && EmissionOk(s, m)
    ensures EmissionOk(r, m)
  {
  }

  lemma PublishKeepsInv(s: State)
    requires Inv(s) && Disciplined(s, Publish)
    ensures Inv(Step(s, Publish)) && Extends(s, Step(s, Publish))
  {
    hide EmissionOk, EntryOk, CpuOk, Contents, Holders, Policies;
    var r := Step(s, Publish);
    if s.publisher.Filling? && s.publisher.done == |s.publisher.snapshot.entries| {
      assert Extends(s, r);
      forall i | 0 <= i < |r.cpus|
        ensures CpuOk(r, r.cpus[i])
      {
        CpuStays(s, r, s.cpus[i]);
      }
      forall i | 0 <= i < |r.shared.log|
        ensures EmissionOk(r, r.shared.log[i])
      {
        EmissionStays(s, r, s.shared.log[i]);
      }
      forall i | 0 <= i < |r.shared.elements|
        ensures EntryOk(r.history, r.shared.elements[i])
      {
        EntryStays(s, r, s.shared.elements[i]);
      }
    }
  }

  lemma EntryStays(s: State, r: State, e: Entry)
    requires Extends(s, r) && EntryOk(s.history, e)
    ensures EntryOk(r.history, e)
  {
  }

  lemma StepKeepsInv(s: State, e: Event)
    requires Inv(s) && Disciplined(s, e)
    ensures Inv(Step(s, e))
  {
    hide Inv;
    match e
    case Capture(c, packet) => CaptureKeepsInv(s, c, packet);
    case Advance(c, ok) => if c < |s.cpus| && s.cpus[c].Busy? { AdvanceKeepsInv(s, c, ok); }
    case Publish => PublishKeepsInv(s);
    case _ => SyncKeepsInv(s, e);
  }

  lemma {:induction false} NoHolders(cpus: seq<Cpu>)
    requires forall c :: 0 <= c < |cpus| ==> cpus[c].Idle?
    ensures Holders(cpus) == 0
  {
    if cpus != [] { NoHolders(cpus[..|cpus| - 1]); }
  }

  /** The invariant holds in every run in which the grace period and the meaning of generations are respected. */
  lemma {:induction false} RunKeepsInv(cpus: nat, events: seq<Event>)
    requires Assumed(cpus, events)
    ensures Inv(Run(cpus, events))
  {
    if events == [] {
      NoHolders(Start(cpus).cpus);
    } else {
      var n := |events| - 1;
      RunKeepsInv(cpus, events[..n]);
      StepKeepsInv(Run(cpus, events[..n]), events[n]);
    }
  }

  // ----- What every run guarantees -----

  /**
   * Slot isolation: whatever packets and the publisher do, every packet between its capture and its end reads from a
   * slot that still is exactly the table released together with the config record it copied.
   */
  lemma SlotIsolation(cpus: nat, events: seq<Event>, c: nat)
    requires Assumed(cpus, events) && c < |Run(cpus, events).cpus| && Run(cpus, events).cpus[c].Busy?
    ensures var s := Run(cpus, events);
            var cpu := s.cpus[c];
            SlotOf(s.shared, cpu.config.slot) == cpu.view && (cpu.config, cpu.view) in s.releases
  {
    RunKeepsInv(cpus, events);
    assert CpuOk(Run(cpus, events), Run(cpus, events).cpus[c]);
  }

  /**
   * Only the publication itself changes what packets see: up to it, and after any failure before it, the config
   * record but for its enable flag, the active slot and the releases stay as they were.
   */
  lemma UnpublishedSyncIsInvisible(cpus: nat, events: seq<Event>, e: Event)
    requires Assumed(cpus, events + [e]) && !e.Publish? && !e.Capture? && !e.Advance?
    ensures var s := Run(cpus, events);
            var r := Run(cpus, events + [e]);
            && Aside(s, r) && (!e.Disable? ==> r.shared.config == s.shared.config)
  {
    PrefixAssumed(cpus, events, e);
    RunKeepsInv(cpus, events);
    SyncKeepsInv(Run(cpus, events), e);
  }

  lemma PrefixAssumed(cpus: nat, events: seq<Event>, e: Event)
    requires Assumed(cpus, events + [e])
    ensures Assumed(cpus, events) && Disciplined(Run(cpus, events), e)
    ensures Run(cpus, events + [e]) == Step(Run(cpus, events), e)
  {
    assert (events + [e])[..|events|] == events;
  }

  /** A publication releases exactly the contents of the snapshot it was given. */
  lemma ReleaseIsTheSnapshot(cpus: nat, events: seq<Event>)
    requires Assumed(cpus, events + [Publish])
    requires var s := Run(cpus, events);
             s.publisher.Filling? && s.publisher.done == |s.publisher.snapshot.entries|
    ensures var s := Run(cpus, events);
            var r := Run(cpus, events + [Publish]);
            && r.shared.config == NewConfig(s, s.publisher.snapshot)
            && SlotOf(r.shared, r.shared.config.slot) == Contents(s.publisher.snapshot.entries)
            && r.releases == s.releases + {(r.shared.config, Contents(s.publisher.snapshot.entries))}
  {
    hide Run, Assumed, Inv, Contents;
    PrefixAssumed(cpus, events, Publish);
    RunKeepsInv(cpus, events);
    PublishReleases(Run(cpus, events));
  }

  lemma PublishReleases(s: State)
    requires Inv(s) && s.publisher.Filling? && s.publisher.done == |s.publisher.snapshot.entries|
    ensures var r := Step(s, Publish);
            && r.shared.config == NewConfig(s, s.publisher.snapshot)
            && SlotOf(r.shared, r.shared.config.slot) == Contents(s.publisher.snapshot.entries)
            && r.releases == s.releases + {(r.shared.config, Contents(s.publisher.snapshot.entries))}
  {
    hide CpusOk, LogOk, EntriesOk, FlowsOk, Contents, Policies, Captured;
    var entries := s.publisher.snapshot.entries;
    assert entries[..|entries|] == entries;
  }

  /** Every classified flow record holds the verdict its generation's policies give for its subject and class. */
  lemma VerdictCacheCoherent(cpus: nat, events: seq<Event>, id: nat)
    requires Assumed(cpus, events) && id < |Run(cpus, events).shared.elements|
    requires Run(cpus, events).shared.elements[id].kind != NoKind
    ensures Coherent(Run(cpus, events).history, Run(cpus, events).shared.elements[id])
  {
    RunKeepsInv(cpus, events);
    assert EntryOk(Run(cpus, events).history, Run(cpus, events).shared.elements[id]);
  }

  /**
   * Every mark is justified: it is the unknown-subject or optimistic verdict of the captured record, a lookup in the
   * captured table, or a cached verdict of a published enforcing generation; and a cached verdict of the captured
   * generation is the one an uncached lookup in the captured table gives.
   */
  lemma EveryMarkJustified(cpus: nat, events: seq<Event>, i: nat)
    requires Assumed(cpus, events) && i < |Run(cpus, events).shared.log|
    ensures EmissionOk(Run(cpus, events), Run(cpus, events).shared.log[i])
    ensures var m := Run(cpus, events).shared.log[i];
            m.cause.Cached? && m.cause.entry.gen == m.config.policyGen ==>
              m.cause.entry.verdict == VerdictOf(m.view, m.subject, m.cause.entry.classId)
  {
    RunKeepsInv(cpus, events);
    var s := Run(cpus, events);
    var m := s.shared.log[i];
    assert EmissionOk(s, m);
    SnapshotVerdict(s, Busy(m.packet, m.config, m.view, m.subject, FindFlow),
                    if m.cause.Cached? then m.cause.entry.classId else 0);
  }

  // ----- Between two publications -----

  function RunFrom(s: State, events: seq<Event>): State {
    if events == [] then s else Step(RunFrom(s, events[..|events| - 1]), events[|events| - 1])
  }

  /** Everything in flight, and every record about to be re-read, is of one generation. */
  predicate Settled(s: State, gen: nat) {
    && (s.shared.config.enabled ==> s.shared.config.policyGen == gen)
    && forall c :: 0 <= c < |s.cpus| ==> SettledCpu(s.shared.elements, s.cpus[c], gen)
  }

  predicate SettledCpu(elements: seq<Entry>, c: Cpu, gen: nat) {
    c.Busy? ==>
      c.config.policyGen == gen && (c.at.Reread? ==> c.at.id < |elements| && elements[c.at.id].gen == gen)
  }

  /** A step only ever writes the generation of the packet that takes it. */
  predicate KeepsGeneration(s: State, sh: Shared, c': Cpu, gen: nat) {
    && SettledCpu(sh.elements, c', gen)
    && (forall i :: 0 <= i < |s.shared.elements| && s.shared.elements[i].gen == gen ==>
                      i < |sh.elements| && sh.elements[i].gen == gen)
    && (forall i :: |s.shared.log| <= i < |sh.log| ==> GenerationOk(sh.log[i], gen))
  }

  lemma InspectKeepsGeneration(s: State, c: Cpu, ok: bool, gen: nat)
    requires Ready(s, c) && SettledCpu(s.shared.elements, c, gen) && (c.at.Inspect? || c.at.ShedInspect?)
    ensures var (sh, c') := Move(s.shared, c, ok); KeepsGeneration(s, sh, c', gen)
  {
    hide VerdictOf, EntryOk, EmissionOk, Captured, EntriesOk, FlowsOk, SubjectOf;
  }

  lemma UseKeepsGeneration(s: State, c: Cpu, ok: bool, gen: nat)
    requires Ready(s, c) && SettledCpu(s.shared.elements, c, gen) && c.at.Answered?
    ensures var (sh, c') := Move(s.shared, c, ok); KeepsGeneration(s, sh, c', gen)
  {
    hide VerdictOf, EntryOk, EmissionOk, Captured, EntriesOk, FlowsOk, SubjectOf;
  }

  lemma RereadKeepsGeneration(s: State, c: Cpu, ok: bool, gen: nat)
    requires Ready(s, c) && SettledCpu(s.shared.elements, c, gen) && c.at.Reread?
    ensures var (sh, c') := Move(s.shared, c, ok); KeepsGeneration(s, sh, c', gen)
  {
    hide VerdictOf, EntryOk, EmissionOk, Captured, EntriesOk, FlowsOk, SubjectOf;
  }

  lemma InsertKeepsGeneration(s: State, c: Cpu, ok: bool, gen: nat)
    requires Ready(s, c) && SettledCpu(s.shared.elements, c, gen)
    requires c.at.Track? || c.at.InsertPending? || c.at.Replace? || c.at.ShedInsert?
    ensures var (sh, c') := Move(s.shared, c, ok); KeepsGeneration(s, sh, c', gen)
  {
  }

  lemma LeaveKeepsGeneration(s: State, c: Cpu, ok: bool, gen: nat)
    requires Ready(s, c) && SettledCpu(s.shared.elements, c, gen)
    requires c.at.Release? || c.at.DeleteFlow? || c.at.ShedFind? || c.at.FindSubject?
    ensures var (sh, c') := Move(s.shared, c, ok); KeepsGeneration(s, sh, c', gen)
  {
    hide VerdictOf, PolicyAt, SubjectOf, PrefixHint, PortHint, MergeHint, Settle, Captured, EntryOk, EmissionOk, AtOk;
    hide EntriesOk, FlowsOk, Use, InspectFlow, ShedInspectFlow, Stored, CpuOk;
  }

  lemma ReadKeepsGeneration(s: State, c: Cpu, ok: bool, gen: nat)
    requires Ready(s, c) && SettledCpu(s.shared.elements, c, gen)
    requires c.at.FindFlow? || c.at.Ask? || c.at.Admit? || c.at.ReadPrefix? || c.at.ReadPort?
    ensures var (sh, c') := Move(s.shared, c, ok); KeepsGeneration(s, sh, c', gen)
  {
    hide VerdictOf, PolicyAt, SubjectOf, PrefixHint, PortHint, MergeHint, Settle, Captured, EntryOk, EmissionOk, AtOk;
    hide EntriesOk, FlowsOk, Use, InspectFlow, ShedInspectFlow, Stored, CpuOk, AfterSubject;
  }

  lemma MoveKeepsGeneration(s: State, c: Cpu, ok: bool, gen: nat)
    requires Ready(s, c) && SettledCpu(s.shared.elements, c, gen)
    ensures var (sh, c') := Move(s.shared, c, ok); KeepsGeneration(s, sh, c', gen)
  {
    assert c.Busy?;
    hide Ready, KeepsGeneration, SettledCpu, Move;
    match c.at
    case Inspect(_) => InspectKeepsGeneration(s, c, ok, gen);
    case ShedInspect(_) => InspectKeepsGeneration(s, c, ok, gen);
    case Answered(_, _, _) => UseKeepsGeneration(s, c, ok, gen);
    case Reread(_) => RereadKeepsGeneration(s, c, ok, gen);
    case Track => InsertKeepsGeneration(s, c, ok, gen);
    case InsertPending => InsertKeepsGeneration(s, c, ok, gen);
    case Replace(_) => InsertKeepsGeneration(s, c, ok, gen);
    case ShedInsert(_) => InsertKeepsGeneration(s, c, ok, gen);
    case Release(_) => LeaveKeepsGeneration(s, c, ok, gen);
    case DeleteFlow => LeaveKeepsGeneration(s, c, ok, gen);
    case ShedFind(_) => LeaveKeepsGeneration(s, c, ok, gen);
    case FindSubject => LeaveKeepsGeneration(s, c, ok, gen);
    case _ => ReadKeepsGeneration(s, c, ok, gen);
  }

  predicate GenerationOk(m: Emission, gen: nat) {
    m.config.policyGen == gen && (m.cause.Cached? ==> m.cause.entry.gen == gen)
  }

  lemma AdvanceKeepsSettled(s: State, c: nat, ok: bool, gen: nat)
    requires Inv(s) && Settled(s, gen) && c < |s.cpus| && s.cpus[c].Busy?
    ensures var r := Step(s, Advance(c, ok));
            Settled(r, gen) && forall i :: |s.shared.log| <= i < |r.shared.log| ==> GenerationOk(r.shared.log[i], gen)
  {
    hide Move, EmissionOk, EntryOk, Captured, Holding, Contents, GenerationOk;
    var cpu := s.cpus[c];
    HoldersUpdate(s.cpus, c, cpu);
    assert CpuOk(s, cpu);
    MoveAllowed(s, cpu, ok);
    MoveKeepsGeneration(s, cpu, ok, gen);
  }

  lemma StepKeepsSettled(s: State, e: Event, gen: nat)
    requires Inv(s) && Settled(s, gen) && !e.Publish?
    ensures var r := Step(s, e);
            && Settled(r, gen) && |s.shared.log| <= |r.shared.log| && r.shared.log[..|s.shared.log|] == s.shared.log
            && forall i :: |s.shared.log| <= i < |r.shared.log| ==> GenerationOk(r.shared.log[i], gen)
  {
    hide Inv, Captured, Contents, CpuOk, EntryOk;
    if e.Advance? {
      if e.cpu < |s.cpus| && s.cpus[e.cpu].Busy? {
        AdvanceKeepsSettled(s, e.cpu, e.ok, gen);
        LogOnlyGrows(s, e.cpu, e.ok);
      }
    }
  }

  lemma LogOnlyGrows(s: State, c: nat, ok: bool)
    requires Inv(s) && c < |s.cpus| && s.cpus[c].Busy?
    ensures var r := Step(s, Advance(c, ok));
            |s.shared.log| <= |r.shared.log| && r.shared.log[..|s.shared.log|] == s.shared.log
  {
    hide Move, EmissionOk, EntryOk, Captured, Holding, Contents;
    HoldersUpdate(s.cpus, c, s.cpus[c]);
    assert CpuOk(s, s.cpus[c]);
    MoveAllowed(s, s.cpus[c], ok);
  }

  predicate NoPublish(events: seq<Event>) {
    forall k :: 0 <= k < |events| ==> !events[k].Publish?
  }

  predicate DisciplinedFrom(s: State, events: seq<Event>) {
    events == [] ||
    (var n := |events| - 1; DisciplinedFrom(s, events[..n]) && Disciplined(RunFrom(s, events[..n]), events[n]))
  }

  lemma {:induction false} SettledRun(s: State, events: seq<Event>, gen: nat)
    requires Inv(s) && Settled(s, gen) && NoPublish(events) && DisciplinedFrom(s, events)
    ensures var r := RunFrom(s, events);
            && Inv(r) && Settled(r, gen) && |s.shared.log| <= |r.shared.log| && r.shared.log[..|s.shared.log|] == s.shared.log
            && forall i :: |s.shared.log| <= i < |r.shared.log| ==> GenerationOk(r.shared.log[i], gen)
  {
    hide Inv, Settled, GenerationOk, Step;
    if events != [] {
      var n := |events| - 1;
      SettledRun(s, events[..n], gen);
      var m := RunFrom(s, events[..n]);
      StepKeepsInv(m, events[n]);
      StepKeepsSettled(m, events[n], gen);
    }
  }

  /**
   * Between two publications the cache is invisible: starting with no packet inside, whatever packets, deletions,
   * failed syncs and disables follow, every cached mark is the one an uncached lookup in the captured table gives.
   */
  lemma CachedMarkIsUncachedLookup(cpus: nat, events: seq<Event>, more: seq<Event>, i: nat)
    requires Assumed(cpus, events) && NoPublish(more) && DisciplinedFrom(Run(cpus, events), more)
    requires forall c :: 0 <= c < |Run(cpus, events).cpus| ==> Run(cpus, events).cpus[c].Idle?
    requires |Run(cpus, events).shared.log| <= i < |RunFrom(Run(cpus, events), more).shared.log|
    ensures var m := RunFrom(Run(cpus, events), more).shared.log[i];
            m.cause.Cached? ==> m.cause.entry.verdict == VerdictOf(m.view, m.subject, m.cause.entry.classId)
  {
    hide Inv, Run, RunFrom;
    RunKeepsInv(cpus, events);
    var s := Run(cpus, events);
    var gen := s.shared.config.policyGen;
    SettledRun(s, more, gen);
    MarkOfOwnGeneration(RunFrom(s, more), i);
  }

  lemma MarkOfOwnGeneration(s: State, i: nat)
    requires Inv(s) && i < |s.shared.log| && GenerationOk(s.shared.log[i], s.shared.log[i].config.policyGen)
    ensures var m := s.shared.log[i];
            m.cause.Cached? ==> m.cause.entry.verdict == VerdictOf(m.view, m.subject, m.cause.entry.classId)
  {
  }

  /** The pending count is the number of packets that hold a reservation, so it is zero whenever none is inside. */
  lemma ReservationsExact(cpus: nat, events: seq<Event>)
    requires Assumed(cpus, events)
    ensures Run(cpus, events).shared.reserved == Holders(Run(cpus, events).cpus)
    ensures (forall c :: 0 <= c < |Run(cpus, events).cpus| ==> Run(cpus, events).cpus[c].Idle?) ==>
              Run(cpus, events).shared.reserved == 0
  {
    RunKeepsInv(cpus, events);
    if forall c :: 0 <= c < |Run(cpus, events).cpus| ==> Run(cpus, events).cpus[c].Idle? {
      NoHolders(Run(cpus, events).cpus);
    }
  }

  // ----- Every packet leaves -----

  function GoalRank(goal: Goal): nat {
    match goal
    case ForTerminal(_) => 21
    case ForShed => 14
    case _ => 8
  }

  /** A bound on the steps a packet still takes. */
  function Rank(c: Cpu): nat {
    if c.Idle? then 0
    else
      match c.at
      case FindSubject => 30
      case FindFlow => 29
      case Inspect(_) => 28
      case Admit => 27
      case InsertPending => 26
      case ReadPrefix => 25
      case ReadPort(_) => 24
      case Ask(goal, _, missedExact) => GoalRank(goal) + if missedExact then 1 else 2
      case Answered(goal, _, _) => GoalRank(goal)
      case Replace(_) => 20
      case Release(next) => if next.DeleteAndLoadShed? then 19 else 17
      case DeleteFlow => 18
      case ShedInsert(_) => 13
      case ShedFind(_) => 12
      case ShedInspect(_) => 11
      case Reread(_) => 7
      case Track => 1
  }

  /** Whatever the other CPUs do, each step of a packet brings it closer to its end: thirty of them always suffice. */
  lemma EveryStepProgresses(cpus: nat, events: seq<Event>, c: nat, ok: bool)
    requires Assumed(cpus, events) && c < |Run(cpus, events).cpus| && Run(cpus, events).cpus[c].Busy?
    ensures var s := Run(cpus, events);
            Rank(Move(s.shared, s.cpus[c], ok).1) < Rank(s.cpus[c]) <= 30
  {
    RunKeepsInv(cpus, events);
    var s := Run(cpus, events);
    assert CpuOk(s, s.cpus[c]);
    StepProgresses(s, s.cpus[c], ok);
  }

  /** The accesses that follow a look at a record or a finished lookup. */
  predicate Decides(at: At) {
    at.Inspect? || at.ShedInspect? || at.Answered? || at.Release? || at.Ask?
  }

  lemma DecisionProgresses(s: State, c: Cpu, ok: bool)
    requires c.Busy? && CpuOk(s, c) && Decides(c.at)
    ensures Rank(Move(s.shared, c, ok).1) < Rank(c) <= 30
  {
    hide VerdictOf, PolicyAt, SubjectOf, Stored, PrefixHint, PortHint, MergeHint, Settle, Captured, AfterSubject;
  }

  lemma AccessProgresses(s: State, c: Cpu, ok: bool)
    requires c.Busy? && !Decides(c.at)
    ensures Rank(Move(s.shared, c, ok).1) < Rank(c) <= 30
  {
    hide VerdictOf, PolicyAt, SubjectOf, Stored, PrefixHint, PortHint, MergeHint, Settle, Use, InspectFlow, ShedInspectFlow;
  }

  lemma StepProgresses(s: State, c: Cpu, ok: bool)
    requires c.Busy? && CpuOk(s, c)
    ensures Rank(Move(s.shared, c, ok).1) < Rank(c) <= 30
  {
    hide Move, CpuOk, Rank;
    if Decides(c.at) { DecisionProgresses(s, c, ok); } else { AccessProgresses(s, c, ok); }
  }
}
