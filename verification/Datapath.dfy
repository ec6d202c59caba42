/**
 * The packet program and the snapshot publisher as one interleaved machine: any number of CPUs inside `ca_ingress`,
 * each map access one atomic step, and one publisher rebuilding the inactive slot key by key.
 *
 * `history` records what every published policy generation meant; the packet program never sees it.
 */
module Datapath {
  import opened Common
  import opened Hints
  import opened Tables

  datatype Config = Config(enabled: bool, enforcement: bool, slot: bool, policyGen: nat, classifierGen: nat,
                           unknownVerdict: Verdict, provisionalVerdict: Verdict)

  datatype Parse = ParseOk | ParseUnsupported

  datatype Packet = Packet(mac: string, parse: Parse, tuple: Tuple)

  datatype FlowKey = FlowKey(subject: nat, tuple: Tuple)

  /** A flow record. A record that is neither pending nor classified is final without a class. */
  datatype Entry = Entry(subject: nat, classId: nat, kind: HintKind, pending: bool, verdict: Verdict, gen: nat)

  /** Why a verdict is looked up. */
  datatype Goal = ForUnsupported | ForRefresh(id: nat) | ForTerminal(kind: HintKind) | ForShed

  datatype AfterRelease = EmitProvisional | LoadShed | DeleteAndLoadShed

  /** The next access of a packet inside the program. */
  datatype At =
    | FindSubject
    | FindFlow
    | Ask(goal: Goal, classId: nat, missedExact: bool)
    | Answered(goal: Goal, classId: nat, verdict: Verdict)
    | Inspect(id: nat)
    | Reread(id: nat)
    | Track
    | Admit
    | InsertPending
    | ReadPrefix
    | ReadPort(evidence: Evidence)
    | Replace(entry: Entry)
    | Release(next: AfterRelease)
    | DeleteFlow
    | ShedInsert(verdict: Verdict)
    | ShedFind(verdict: Verdict)
    | ShedInspect(id: nat)

  /** `view` is an observer's copy of the captured slot; the program itself never reads it. */
  datatype Cpu = Idle | Busy(packet: Packet, config: Config, view: Table, subject: nat, at: At)

  /** How the mark of a packet came about. */
  datatype Cause = NoSubject(verdict: Verdict) | LookedUp(classId: nat, verdict: Verdict) | Optimistic(verdict: Verdict)
                 | Cached(entry: Entry)

  datatype Emission = Emission(packet: Packet, config: Config, view: Table, subject: nat, cause: Cause)

  /** What the CPUs share. Replaced and deleted flow records stay readable for packets that found them, as `elements`. */
  datatype Shared = Shared(config: Config, slotA: Table, slotB: Table, elements: seq<Entry>, flows: map<FlowKey, nat>,
                           reserved: nat, log: seq<Emission>)

  datatype Snapshot = Snapshot(config: Config, entries: seq<(Key, Val)>)

  datatype Publisher = Resting | Clearing(snapshot: Snapshot) | Filling(snapshot: Snapshot, done: nat)

  /** The meaning of a published generation. */
  datatype Era = Era(policies: Table, enforcement: bool)

  datatype State = State(shared: Shared, cpus: seq<Cpu>, publisher: Publisher, history: map<nat, Era>,
                         releases: set<(Config, Table)>)

  function SlotOf(sh: Shared, slot: bool): Table {
    if slot then sh.slotB else sh.slotA
  }

  function WithSlot(sh: Shared, slot: bool, t: Table): Shared {
    if slot then sh.(slotB := t) else sh.(slotA := t)
  }

  function KeyOf(c: Cpu): FlowKey
    requires c.Busy?
  {
    FlowKey(c.subject, c.packet.tuple)
  }

  // ----- One step of one packet -----

  function Emit(sh: Shared, c: Cpu, cause: Cause): Shared
    requires c.Busy?
  {
    sh.(log := sh.log + [Emission(c.packet, c.config, c.view, c.subject, cause)])
  }

  /** bpf_map_update_elem with BPF_NOEXIST; `ok` is false when the map is full. */
  function Inserted(sh: Shared, k: FlowKey, e: Entry, ok: bool): Option<Shared> {
    if ok && k !in sh.flows then Some(Stored(sh, k, e)) else None
  }

  function Stored(sh: Shared, k: FlowKey, e: Entry): Shared {
    sh.(elements := sh.elements + [e], flows := sh.flows[k := |sh.elements|])
  }

  function Terminal(c: Cpu, classId: nat, kind: HintKind, verdict: Verdict): Entry
    requires c.Busy?
  {
    Entry(c.subject, classId, kind, false, verdict, c.config.policyGen)
  }

  /** What to do with a completed verdict lookup. */
  function Use(sh: Shared, c: Cpu, goal: Goal, classId: nat, verdict: Verdict): (Shared, Cpu)
    requires c.Busy?
  {
    match goal
    case ForUnsupported => (Emit(sh, c, LookedUp(classId, verdict)), Idle)
    case ForRefresh(id) =>
      if id < |sh.elements| then
        (sh.(elements := sh.elements[id := sh.elements[id].(verdict := verdict, gen := c.config.policyGen)]),
         c.(at := Reread(id)))
      else (sh, c)
    case ForTerminal(kind) => (sh, c.(at := Replace(Terminal(c, classId, kind, verdict))))
    case ForShed => (sh, c.(at := ShedInsert(verdict)))
  }

  /** The first look at an existing record: reuse it, refresh it, or delete it and start over. */
  function InspectFlow(sh: Shared, c: Cpu, id: nat): (Shared, Cpu)
    requires c.Busy?
  {
    if id >= |sh.elements| then (sh, c)
    else
      var e := sh.elements[id];
      if !c.config.enforcement then (sh, Idle)
      else if e.pending then (Emit(sh, c, Optimistic(c.config.provisionalVerdict)), Idle)
      else if e.kind != NoKind then
        (sh, c.(at := if e.gen != c.config.policyGen then Ask(ForRefresh(id), e.classId, false) else Reread(id)))
      else (sh.(flows := sh.flows - {KeyOf(c)}), c.(at := Admit))
  }

  function ShedInspectFlow(sh: Shared, c: Cpu, id: nat): (Shared, Cpu)
    requires c.Busy?
  {
    if id >= |sh.elements| then (sh, c)
    else
      var e := sh.elements[id];
      if e.pending then (Emit(sh, c, Optimistic(c.config.provisionalVerdict)), Idle)
      else (sh, c.(at := if e.gen != c.config.policyGen then Ask(ForRefresh(id), e.classId, false) else Reread(id)))
  }

  function Released(sh: Shared): Shared {
    sh.(reserved := if sh.reserved == 0 then 0 else sh.reserved - 1)
  }

  /** Where the subject lookup leads. */
  function AfterSubject(sh: Shared, c: Cpu, found: Option<nat>): (Shared, Cpu)
    requires c.Busy?
  {
    match found
    case None => (if c.config.enforcement then Emit(sh, c, NoSubject(c.config.unknownVerdict)) else sh, Idle)
    case Some(subject) =>
      if c.packet.parse == ParseOk then (sh, c.(subject := subject, at := FindFlow))
      else if c.config.enforcement then
        (sh, c.(subject := subject, at := Ask(ForUnsupported, CLASS_UNCLASSIFIED, false)))
      else (sh, Idle)
  }

  /** One atomic step; `ok` is the outcome of an admission test or of a map update that may find the map full. */
  function Move(sh: Shared, c: Cpu, ok: bool): (Shared, Cpu)
    requires c.Busy?
  {
    var slot := SlotOf(sh, c.config.slot);
    var key := KeyOf(c);
    match c.at
    case FindSubject => AfterSubject(sh, c, SubjectOf(slot, c.packet.mac))
    case FindFlow =>
      if key in sh.flows then (sh, c.(at := Inspect(sh.flows[key])))
      else (sh, c.(at := if c.config.enforcement then Admit else Track))
    case Ask(goal, classId, missedExact) =>
      var r := PolicyAt(slot, c.subject, if missedExact then CLASS_DEFAULT else classId);
      if r.Some? then (sh, c.(at := Answered(goal, classId, r.value)))
      else if missedExact then (sh, c.(at := Answered(goal, classId, Allow)))
      else (sh, c.(at := Ask(goal, classId, true)))
    case Answered(goal, classId, verdict) => Use(sh, c, goal, classId, verdict)
    case Inspect(id) => InspectFlow(sh, c, id)
    case Reread(id) => if id < |sh.elements| then (Emit(sh, c, Cached(sh.elements[id])), Idle) else (sh, Idle)
    case Track =>
      var r := Inserted(sh, key, Terminal(c, CLASS_UNCLASSIFIED, NoKind, Allow), ok);
      (if r.Some? then r.value else sh, Idle)
    case Admit =>
      if ok then (sh.(reserved := sh.reserved + 1), c.(at := InsertPending))
      else (sh, c.(at := Ask(ForShed, CLASS_UNCLASSIFIED, false)))
    case InsertPending =>
      var e := Entry(c.subject, CLASS_UNCLASSIFIED, NoKind, true, c.config.provisionalVerdict, c.config.policyGen);
      var r := Inserted(sh, key, e, ok);
      if r.Some? then (r.value, c.(at := ReadPrefix)) else (sh, c.(at := Release(LoadShed)))
    case ReadPrefix => (sh, c.(at := ReadPort(MergeHint(NoEvidence(), PrefixHint(slot, c.packet.tuple)))))
    case ReadPort(evidence) =>
      var (classId, kind) := Settle(MergeHint(evidence, PortHint(slot, c.packet.tuple)));
      (sh, c.(at := Ask(ForTerminal(kind), classId, false)))
    case Replace(entry) =>
      if ok && key in sh.flows then (Stored(sh, key, entry), c.(at := Release(EmitProvisional)))
      else (sh, c.(at := Release(DeleteAndLoadShed)))
    case Release(next) =>
      match next {
        case EmitProvisional => (Released(Emit(sh, c, Optimistic(c.config.provisionalVerdict))), Idle)
        case LoadShed => (Released(sh), c.(at := Ask(ForShed, CLASS_UNCLASSIFIED, false)))
        case DeleteAndLoadShed => (Released(sh), c.(at := DeleteFlow))
      }
    case DeleteFlow => (sh.(flows := sh.flows - {key}), c.(at := Ask(ForShed, CLASS_UNCLASSIFIED, false)))
    case ShedInsert(verdict) =>
      var r := Inserted(sh, key, Terminal(c, CLASS_UNCLASSIFIED, NoKind, verdict), ok);
      if r.Some? then (Emit(r.value, c, LookedUp(CLASS_UNCLASSIFIED, verdict)), Idle)
      else (sh, c.(at := ShedFind(verdict)))
    case ShedFind(verdict) =>
      if key in sh.flows then (sh, c.(at := ShedInspect(sh.flows[key])))
      else (Emit(sh, c, LookedUp(CLASS_UNCLASSIFIED, verdict)), Idle)
    case ShedInspect(id) => ShedInspectFlow(sh, c, id)
  }

  // ----- The whole machine -----

  datatype Event =
    | Capture(cpu: nat, packet: Packet)
    | Advance(cpu: nat, ok: bool)
    | BeginSync(snapshot: Snapshot)
    | ClearOne(key: Key)
    | BeginFill
    | FillOne
    | Publish
    | Abort
    | Disable
    | Expire(flow: FlowKey)

  /** The config record a sync publishes: the parsed one with the slot that was inactive. */
  function NewConfig(s: State, snapshot: Snapshot): Config {
    snapshot.config.(slot := !s.shared.config.slot)
  }

  function Target(s: State): Table {
    SlotOf(s.shared, !s.shared.config.slot)
  }

  function WithTarget(s: State, t: Table): State {
    s.(shared := WithSlot(s.shared, !s.shared.config.slot, t))
  }

  function FillStep(s: State): State
    requires s.publisher.Filling? && s.publisher.done < |s.publisher.snapshot.entries|
  {
    var (k, v) := s.publisher.snapshot.entries[s.publisher.done];
    if k in Target(s) then s.(publisher := Resting)
    else WithTarget(s, Target(s)[k := v]).(publisher := s.publisher.(done := s.publisher.done + 1))
  }

  function PublishStep(s: State): State
    requires s.publisher.Filling?
  {
    var config := NewConfig(s, s.publisher.snapshot);
    s.(shared := s.shared.(config := config), publisher := Resting,
       history := s.history[config.policyGen := Era(Policies(Target(s)), config.enforcement)],
       releases := s.releases + {(config, Target(s))})
  }

  /** A disabled step stutters. */
  function Step(s: State, e: Event): State {
    match e
    case Capture(c, packet) =>
      if c < |s.cpus| && s.cpus[c].Idle? && s.shared.config.enabled then
        s.(cpus := s.cpus[c := Busy(packet, s.shared.config, SlotOf(s.shared, s.shared.config.slot), 0, FindSubject)])
      else s
    case Advance(c, ok) =>
      if c < |s.cpus| && s.cpus[c].Busy? then
        var (sh, cpu) := Move(s.shared, s.cpus[c], ok);
        s.(shared := sh, cpus := s.cpus[c := cpu])
      else s
    case BeginSync(snapshot) => if s.publisher.Resting? then s.(publisher := Clearing(snapshot)) else s
    case ClearOne(key) => if s.publisher.Clearing? then WithTarget(s, Target(s) - {key}) else s
    case BeginFill =>
      if s.publisher.Clearing? && Target(s) == map[] then s.(publisher := Filling(s.publisher.snapshot, 0)) else s
    case FillOne =>
      if s.publisher.Filling? && s.publisher.done < |s.publisher.snapshot.entries| then FillStep(s) else s
    case Publish =>
      if s.publisher.Filling? && s.publisher.done == |s.publisher.snapshot.entries| then PublishStep(s) else s
    case Abort => s.(publisher := Resting)
    case Disable =>
      if s.publisher.Resting? then s.(shared := s.shared.(config := s.shared.config.(enabled := false))) else s
    case Expire(flow) => s.(shared := s.shared.(flows := s.shared.flows - {flow}))
  }

  function Start(cpus: nat): State {
    var config := Config(false, false, false, 0, 0, Allow, Allow);
    State(Shared(config, map[], map[], [], map[], 0, []), seq(cpus, i => Idle), Resting, map[], {})
  }

  function Run(cpus: nat, events: seq<Event>): State {
    if events == [] then Start(cpus) else Step(Run(cpus, events[..|events| - 1]), events[|events| - 1])
  }

  // ----- What the rest of the controller guarantees -----

  /** The grace period: whoever captured the slot about to be cleared has finished. */
  predicate GraceElapsed(s: State) {
    forall c :: 0 <= c < |s.cpus| && s.cpus[c].Busy? ==> s.cpus[c].config.slot == s.shared.config.slot
  }

  /** A generation that was published before comes with the same policies and the same enforcement again. */
  predicate KeepsMeaning(s: State) {
    s.publisher.Filling? && s.publisher.done == |s.publisher.snapshot.entries| ==>
      var config := NewConfig(s, s.publisher.snapshot);
      config.policyGen in s.history ==> s.history[config.policyGen] == Era(Policies(Target(s)), config.enforcement)
  }

  predicate Disciplined(s: State, e: Event) {
    && (e.BeginSync? && s.publisher.Resting? ==> GraceElapsed(s))
    && (e.Publish? ==> KeepsMeaning(s))
  }

  /** Every step of the run respects both. */
  predicate Assumed(cpus: nat, events: seq<Event>) {
    events == [] ||
    (var n := |events| - 1; Assumed(cpus, events[..n]) && Disciplined(Run(cpus, events[..n]), events[n]))
  }

  // ----- The invariant -----

  predicate Enforcing(history: map<nat, Era>, gen: nat) {
    gen in history && history[gen].enforcement
  }

  /** The record's verdict is the one its generation's policies give. */
  predicate Coherent(history: map<nat, Era>, e: Entry) {
    Enforcing(history, e.gen) && e.verdict == VerdictOf(history[e.gen].policies, e.subject, e.classId)
  }

  /** Terminal records of an enforcing generation are coherent, and classified records are of such a generation. */
  predicate EntryOk(history: map<nat, Era>, e: Entry) {
    && e.gen in history
    && (e.kind != NoKind ==> !e.pending && Enforcing(history, e.gen))
    && (!e.pending && Enforcing(history, e.gen) ==> Coherent(history, e))
  }

  predicate Captured(s: State, config: Config, view: Table) {
    && config.enabled && (config, view) in s.releases
    && config.policyGen in s.history && s.history[config.policyGen] == Era(Policies(view), config.enforcement)
  }

  predicate GoalOk(elements: seq<Entry>, subject: nat, goal: Goal, classId: nat) {
    match goal
    case ForRefresh(id) =>
      id < |elements| && elements[id].subject == subject && elements[id].classId == classId && !elements[id].pending
    case ForShed => classId == CLASS_UNCLASSIFIED
    case _ => true
  }

  predicate Holding(c: Cpu) {
    c.Busy? && (c.at.InsertPending? || c.at.ReadPrefix? || c.at.ReadPort? || c.at.Replace? || c.at.Release?
                || (c.at.Ask? && c.at.goal.ForTerminal?) || (c.at.Answered? && c.at.goal.ForTerminal?))
  }

  /** What holds of a packet between two of its steps. */
  predicate AtOk(history: map<nat, Era>, elements: seq<Entry>, c: Cpu)
    requires c.Busy?
  {
    match c.at
    case FindSubject => true
    case FindFlow => true
    case Track => !c.config.enforcement
    case Ask(goal, classId, missedExact) =>
      && c.config.enforcement && GoalOk(elements, c.subject, goal, classId)
      && (missedExact ==> PolicyAt(c.view, c.subject, classId).None?)
    case Answered(goal, classId, verdict) =>
      && c.config.enforcement && GoalOk(elements, c.subject, goal, classId)
      && verdict == VerdictOf(c.view, c.subject, classId)
    case Inspect(id) => id < |elements| && elements[id].subject == c.subject
    case ShedInspect(id) => c.config.enforcement && id < |elements| && elements[id].subject == c.subject
    case Reread(id) =>
      && c.config.enforcement && id < |elements| && elements[id].subject == c.subject
      && !elements[id].pending && Enforcing(history, elements[id].gen)
    case Replace(entry) =>
      && c.config.enforcement && entry.subject == c.subject && !entry.pending && entry.gen == c.config.policyGen
      && entry.verdict == VerdictOf(c.view, c.subject, entry.classId)
    case ShedInsert(verdict) => c.config.enforcement && verdict == VerdictOf(c.view, c.subject, CLASS_UNCLASSIFIED)
    case ShedFind(verdict) => c.config.enforcement && verdict == VerdictOf(c.view, c.subject, CLASS_UNCLASSIFIED)
    case _ => c.config.enforcement
  }

  predicate CpuOk(s: State, c: Cpu) {
    c.Busy? ==>
      && Captured(s, c.config, c.view)
      && SlotOf(s.shared, c.config.slot) == c.view
      && (!c.at.FindSubject? ==> SubjectOf(c.view, c.packet.mac) == Some(c.subject))
      && AtOk(s.history, s.shared.elements, c)
  }

  /** The mark is the one the packet's snapshot prescribes; a cached one is that of a published generation. */
  predicate EmissionOk(s: State, m: Emission) {
    && Captured(s, m.config, m.view) && m.config.enforcement
    && (if m.cause.NoSubject? then SubjectOf(m.view, m.packet.mac).None?
        else SubjectOf(m.view, m.packet.mac) == Some(m.subject))
    && match m.cause
       case NoSubject(verdict) => verdict == m.config.unknownVerdict
       case LookedUp(classId, verdict) => verdict == VerdictOf(m.view, m.subject, classId)
       case Optimistic(verdict) => verdict == m.config.provisionalVerdict
       case Cached(e) => e.subject == m.subject && Coherent(s.history, e)
  }

  function Contents(entries: seq<(Key, Val)>): Table {
    if entries == [] then map[]
    else Contents(entries[..|entries| - 1])[entries[|entries| - 1].0 := entries[|entries| - 1].1]
  }

  predicate PublisherOk(s: State) {
    && (!s.publisher.Resting? ==> GraceElapsed(s))
    && (s.publisher.Filling? ==>
          s.publisher.done <= |s.publisher.snapshot.entries|
          && Target(s) == Contents(s.publisher.snapshot.entries[..s.publisher.done]))
  }

  predicate FlowsOk(sh: Shared) {
    forall k :: k in sh.flows ==> sh.flows[k] < |sh.elements| && sh.elements[sh.flows[k]].subject == k.subject
  }

  predicate EntriesOk(history: map<nat, Era>, elements: seq<Entry>) {
    forall i :: 0 <= i < |elements| ==> EntryOk(history, elements[i])
  }

  predicate CpusOk(s: State) {
    forall c :: 0 <= c < |s.cpus| ==> CpuOk(s, s.cpus[c])
  }

  predicate LogOk(s: State) {
    forall i :: 0 <= i < |s.shared.log| ==> EmissionOk(s, s.shared.log[i])
  }

  function Holders(cpus: seq<Cpu>): nat {
    if cpus == [] then 0 else Holders(cpus[..|cpus| - 1]) + if Holding(cpus[|cpus| - 1]) then 1 else 0
  }

  predicate Inv(s: State) {
    && (s.shared.config.enabled ==> Captured(s, s.shared.config, SlotOf(s.shared, s.shared.config.slot)))
    && PublisherOk(s) && FlowsOk(s.shared) && EntriesOk(s.history, s.shared.elements) && CpusOk(s) && LogOk(s)
    && s.shared.reserved == Holders(s.cpus)
  }
}
