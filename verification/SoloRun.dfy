/**
 * One packet running undisturbed through the interleaved machine does exactly what the packet program of `Backend`
 * promises for one packet at a time.
 */
module SoloRun {
  import opened Common
  import opened Hints
  import opened Tables
  import opened Datapath
  import opened DatapathSafety
  import opened Backend

  /** The packet takes its steps with these outcomes of its tests and updates, until it leaves or they run out. */
  function Solo(sh: Shared, c: Cpu, oks: seq<bool>): (Shared, Cpu)
    decreases |oks|
  {
    if oks == [] || c.Idle? then (sh, c)
    else
      var (next, cpu) := Move(sh, c, oks[0]);
      Solo(next, cpu, oks[1..])
  }

  predicate All(oks: seq<bool>, ok: bool) {
    forall i :: 0 <= i < |oks| ==> oks[i] == ok
  }

  // ----- The flow table -----

  /** The records by flow. */
  function FlowTable(sh: Shared): map<FlowKey, Entry> {
    map k | k in sh.flows && sh.flows[k] < |sh.elements| :: sh.elements[sh.flows[k]]
  }

  /** No two flows share a record. */
  predicate Unshared(sh: Shared) {
    forall j, k :: j in sh.flows && k in sh.flows && j != k ==> sh.flows[j] != sh.flows[k]
  }

  predicate Orderly(sh: Shared) {
    FlowsOk(sh) && Unshared(sh)
  }

  lemma RecordOf(sh: Shared, f: FlowKey)
    requires FlowsOk(sh)
    ensures f in FlowTable(sh) <==> f in sh.flows
    ensures f in sh.flows ==> FlowTable(sh)[f] == sh.elements[sh.flows[f]]
  {
  }

  /** Two tables with the same record of every flow. */
  lemma SameRecords(a: map<FlowKey, Entry>, b: map<FlowKey, Entry>)
    requires forall f :: (f in a <==> f in b) && (f in b ==> a[f] == b[f])
    ensures a == b
  {
  }

  lemma StoredOrderly(sh: Shared, k: FlowKey, e: Entry)
    requires Orderly(sh) && e.subject == k.subject
    ensures Orderly(Stored(sh, k, e))
  {
  }

  lemma TableStored(sh: Shared, k: FlowKey, e: Entry)
    requires Orderly(sh) && e.subject == k.subject
    ensures Orderly(Stored(sh, k, e)) && FlowTable(Stored(sh, k, e)) == FlowTable(sh)[k := e]
  {
    StoredOrderly(sh, k, e);
    hide FlowTable, Unshared;
    var r, now := Stored(sh, k, e), FlowTable(sh)[k := e];
    forall f
      ensures (f in FlowTable(r) <==> f in now) && (f in now ==> FlowTable(r)[f] == now[f])
    {
      RecordOf(r, f);
      RecordOf(sh, f);
    }
    SameRecords(FlowTable(r), now);
  }

  lemma DeletedOrderly(sh: Shared, k: FlowKey)
    requires Orderly(sh)
    ensures Orderly(sh.(flows := sh.flows - {k}))
  {
  }

  lemma TableDeleted(sh: Shared, k: FlowKey)
    requires Orderly(sh)
    ensures var r := sh.(flows := sh.flows - {k}); Orderly(r) && FlowTable(r) == FlowTable(sh) - {k}
  {
    DeletedOrderly(sh, k);
    hide FlowTable, Unshared;
    var r, now := sh.(flows := sh.flows - {k}), FlowTable(sh) - {k};
    forall f
      ensures (f in FlowTable(r) <==> f in now) && (f in now ==> FlowTable(r)[f] == now[f])
    {
      RecordOf(r, f);
      RecordOf(sh, f);
    }
    SameRecords(FlowTable(r), now);
  }

  lemma TableRefreshed(sh: Shared, k: FlowKey, e: Entry)
    requires Orderly(sh) && k in sh.flows && e.subject == k.subject
    ensures var r := sh.(elements := sh.elements[sh.flows[k] := e]);
            Orderly(r) && FlowTable(r) == FlowTable(sh)[k := e]
  {
    hide FlowTable;
    var r, now := sh.(elements := sh.elements[sh.flows[k] := e]), FlowTable(sh)[k := e];
    forall f
      ensures (f in FlowTable(r) <==> f in now) && (f in now ==> FlowTable(r)[f] == now[f])
    {
      RecordOf(r, f);
      RecordOf(sh, f);
      if f in sh.flows && f != k { assert sh.flows[f] != sh.flows[k]; }
    }
    SameRecords(FlowTable(r), now);
  }

  // ----- How a packet leaves -----

  function MarkOf(m: Emission): Verdict {
    match m.cause
    case NoSubject(verdict) => verdict
    case LookedUp(_, verdict) => verdict
    case Optimistic(verdict) => verdict
    case Cached(entry) => entry.verdict
  }

  predicate SameTables(a: Shared, b: Shared) {
    a.config == b.config && a.slotA == b.slotA && a.slotB == b.slotB
  }

  /** The packet is gone with one mark and without its reservation, and the tables stand. */
  predicate Leaves(sh: Shared, c: Cpu, out: (Shared, Cpu))
    requires c.Busy?
  {
    && out.1 == Idle && SameTables(sh, out.0) && out.0.reserved + Units(c) == sh.reserved
    && |out.0.log| == |sh.log| + 1 && out.0.log[..|sh.log|] == sh.log
    && var m := out.0.log[|sh.log|]; m.packet == c.packet && m.config == c.config
  }

  predicate Left(sh: Shared, c: Cpu, out: (Shared, Cpu), verdict: Verdict, now: map<FlowKey, Entry>)
    requires c.Busy?
  {
    Leaves(sh, c, out) && MarkOf(out.0.log[|sh.log|]) == verdict && FlowTable(out.0) == now
  }

  function TableOf(sh: Shared, c: Cpu): Table
    requires c.Busy?
  {
    SlotOf(sh, c.config.slot)
  }

  lemma First(sh: Shared, c: Cpu, oks: seq<bool>)
    requires c.Busy? && oks != []
    ensures var (next, cpu) := Move(sh, c, oks[0]); Solo(sh, c, oks) == Solo(next, cpu, oks[1..])
  {
  }

  lemma Rest(oks: seq<bool>, n: nat)
    requires n <= |oks|
    ensures forall ok :: All(oks, ok) ==> All(oks[n..], ok)
    ensures forall m: nat {:trigger oks[n..][m..]} :: n + m <= |oks| ==> oks[n..][m..] == oks[n + m..]
  {
  }

  /** A lookup takes one or two accesses. */
  lemma Lookup(sh: Shared, c: Cpu, oks: seq<bool>) returns (n: nat)
    requires c.Busy? && c.at.Ask? && !c.at.missedExact && |oks| >= 2
    ensures 1 <= n <= 2
    ensures var verdict := VerdictOf(TableOf(sh, c), c.subject, c.at.classId);
            Solo(sh, c, oks) == Solo(sh, c.(at := Answered(c.at.goal, c.at.classId, verdict)), oks[n..])
  {
    hide Solo;
    var cpu := Move(sh, c, oks[0]).1;
    First(sh, c, oks);
    n := 1;
    if !cpu.at.Answered? {
      First(sh, cpu, oks[1..]);
      Rest(oks, 1);
      n := 2;
    }
  }

  /** There is room for an unclassified record. */
  lemma SoloKept(sh: Shared, c: Cpu, oks: seq<bool>)
    requires c.Busy? && c.at.ShedInsert? && Orderly(sh) && oks != [] && oks[0] && KeyOf(c) !in sh.flows
    ensures var e := UnclassifiedRecord(c.config, c.subject, c.at.verdict);
            Left(sh, c, Solo(sh, c, oks), c.at.verdict, FlowTable(sh)[KeyOf(c) := e])
  {
    hide Solo, FlowTable, Unshared, FlowsOk;
    var stored := Stored(sh, KeyOf(c), UnclassifiedRecord(c.config, c.subject, c.at.verdict));
    var done := Emit(stored, c, LookedUp(CLASS_UNCLASSIFIED, c.at.verdict));
    First(sh, c, oks);
    TableStored(sh, KeyOf(c), UnclassifiedRecord(c.config, c.subject, c.at.verdict));
    Gone(done, oks[1..]);
    SameFlows(stored, done);
  }

  /** There is none, nor another packet's record. */
  lemma SoloNotKept(sh: Shared, c: Cpu, oks: seq<bool>)
    requires c.Busy? && c.at.ShedInsert? && |oks| >= 2 && !oks[0] && KeyOf(c) !in sh.flows
    ensures Left(sh, c, Solo(sh, c, oks), c.at.verdict, FlowTable(sh))
  {
    hide Solo, FlowTable, Orderly;
    var done := Emit(sh, c, LookedUp(CLASS_UNCLASSIFIED, c.at.verdict));
    First(sh, c, oks);
    First(sh, c.(at := ShedFind(c.at.verdict)), oks[1..]);
    Gone(done, oks[1..][1..]);
    SameFlows(sh, done);
  }

  /** Keeping an unclassified record, or not. */
  lemma SoloShedInsert(sh: Shared, c: Cpu, oks: seq<bool>)
    requires c.Busy? && c.at.ShedInsert? && Orderly(sh) && |oks| >= 2 && KeyOf(c) !in sh.flows
    ensures var out := Solo(sh, c, oks);
            var e := UnclassifiedRecord(c.config, c.subject, c.at.verdict);
            Left(sh, c, out, c.at.verdict, if oks[0] then FlowTable(sh)[KeyOf(c) := e] else FlowTable(sh))
  {
    hide Solo, FlowTable, Orderly, Left;
    if oks[0] { SoloKept(sh, c, oks); } else { SoloNotKept(sh, c, oks); }
  }

  lemma Gone(sh: Shared, oks: seq<bool>)
    ensures Solo(sh, Idle, oks) == (sh, Idle)
  {
  }

  lemma SameFlows(a: Shared, b: Shared)
    requires a.flows == b.flows && a.elements == b.elements
    ensures FlowTable(a) == FlowTable(b) && (Orderly(a) ==> Orderly(b))
  {
  }

  /** A shed packet is marked unclassified, and its record is kept if there is room. */
  lemma SoloShed(sh: Shared, c: Cpu, oks: seq<bool>)
    requires c.Busy? && c.at == Ask(ForShed, CLASS_UNCLASSIFIED, false) && Orderly(sh) && |oks| >= 5
    requires KeyOf(c) !in sh.flows
    ensures var out := Solo(sh, c, oks);
            var verdict := VerdictOf(TableOf(sh, c), c.subject, CLASS_UNCLASSIFIED);
            var stored := FlowTable(sh)[KeyOf(c) := UnclassifiedRecord(c.config, c.subject, verdict)];
            && (Left(sh, c, out, verdict, FlowTable(sh)) || Left(sh, c, out, verdict, stored))
            && (All(oks, true) ==> Left(sh, c, out, verdict, stored))
            && (All(oks, false) ==> Left(sh, c, out, verdict, FlowTable(sh)))
  {
    hide Solo, FlowTable, Unshared, VerdictOf, FlowsOk;
    var n := Lookup(sh, c, oks);
    var verdict := VerdictOf(TableOf(sh, c), c.subject, CLASS_UNCLASSIFIED);
    First(sh, c.(at := Answered(ForShed, CLASS_UNCLASSIFIED, verdict)), oks[n..]);
    Rest(oks, n);
    Rest(oks, n + 1);
    SoloShedInsert(sh, c.(at := ShedInsert(verdict)), oks[n + 1..]);
  }

  /** A packet without a reservation deletes its flow's record and is shed. */
  lemma SoloDeleted(sh: Shared, c: Cpu, oks: seq<bool>)
    requires c.Busy? && c.at.DeleteFlow? && Orderly(sh) && |oks| >= 6
    ensures var out := Solo(sh, c, oks);
            var shed := VerdictOf(TableOf(sh, c), c.subject, CLASS_UNCLASSIFIED);
            var bare := FlowTable(sh) - {KeyOf(c)};
            || Left(sh, c, out, shed, bare)
            || Left(sh, c, out, shed, bare[KeyOf(c) := UnclassifiedRecord(c.config, c.subject, shed)])
  {
    hide Solo, FlowTable, Unshared, VerdictOf, FlowsOk;
    First(sh, c, oks);
    TableDeleted(sh, KeyOf(c));
    SoloShed(sh.(flows := sh.flows - {KeyOf(c)}), c.(at := Ask(ForShed, CLASS_UNCLASSIFIED, false)), oks[1..]);
  }

  /** A record that could not be replaced is deleted, and the packet shed. */
  lemma SoloUndone(sh: Shared, c: Cpu, oks: seq<bool>)
    requires c.Busy? && c.at == Release(DeleteAndLoadShed) && Orderly(sh) && |oks| >= 7 && sh.reserved > 0
    ensures var out := Solo(sh, c, oks);
            var shed := VerdictOf(TableOf(sh, c), c.subject, CLASS_UNCLASSIFIED);
            var bare := FlowTable(sh) - {KeyOf(c)};
            || Left(sh, c, out, shed, bare)
            || Left(sh, c, out, shed, bare[KeyOf(c) := UnclassifiedRecord(c.config, c.subject, shed)])
  {
    hide Solo, FlowTable, Orderly, VerdictOf;
    First(sh, c, oks);
    SameFlows(sh, Released(sh));
    SoloDeleted(Released(sh), c.(at := DeleteFlow), oks[1..]);
  }

  /** An admitted packet gives its reservation back and leaves with the optimistic verdict. */
  lemma SoloReleased(sh: Shared, c: Cpu, oks: seq<bool>)
    requires c.Busy? && c.at == Release(EmitProvisional) && oks != [] && sh.reserved > 0
    ensures Left(sh, c, Solo(sh, c, oks), c.config.provisionalVerdict, FlowTable(sh))
  {
    hide Solo, FlowTable, Orderly;
    var done := Released(Emit(sh, c, Optimistic(c.config.provisionalVerdict)));
    First(sh, c, oks);
    Gone(done, oks[1..]);
    SameFlows(sh, done);
  }

  /** The rest of a classification, from the lookup of the flow's own verdict on. */
  lemma SoloTerminal(sh: Shared, c: Cpu, oks: seq<bool>)
    requires c.Busy? && c.at.Ask? && c.at.goal.ForTerminal? && !c.at.missedExact && Orderly(sh) && |oks| >= 11
    requires KeyOf(c) in sh.flows && sh.reserved > 0
    ensures var out := Solo(sh, c, oks);
            var verdict := VerdictOf(TableOf(sh, c), c.subject, c.at.classId);
            var shed := VerdictOf(TableOf(sh, c), c.subject, CLASS_UNCLASSIFIED);
            var e := Terminal(c, c.at.classId, c.at.goal.kind, verdict);
            var bare := FlowTable(sh) - {KeyOf(c)};
            || Left(sh, c, out, c.config.provisionalVerdict, FlowTable(sh)[KeyOf(c) := e])
            || (!All(oks, true) && (Left(sh, c, out, shed, bare)
                || Left(sh, c, out, shed, bare[KeyOf(c) := UnclassifiedRecord(c.config, c.subject, shed)])))
  {
    hide Solo, FlowTable, Unshared, VerdictOf, FlowsOk;
    var n := Lookup(sh, c, oks);
    var verdict := VerdictOf(TableOf(sh, c), c.subject, c.at.classId);
    var e := Terminal(c, c.at.classId, c.at.goal.kind, verdict);
    var replacing := c.(at := Replace(e));
    First(sh, c.(at := Answered(c.at.goal, c.at.classId, verdict)), oks[n..]);
    Rest(oks, n);
    First(sh, replacing, oks[n + 1..]);
    Rest(oks, n + 1);
    Rest(oks, n + 2);
    if oks[n + 1] {
      TableStored(sh, KeyOf(c), e);
      SoloReleased(Stored(sh, KeyOf(c), e), c.(at := Release(EmitProvisional)), oks[n + 2..]);
    } else {
      SoloUndone(sh, c.(at := Release(DeleteAndLoadShed)), oks[n + 2..]);
    }
  }

  /** The classification of a flow whose pending record was just inserted. */
  lemma SoloClassified(sh: Shared, c: Cpu, oks: seq<bool>)
    requires c.Busy? && c.at.ReadPrefix? && Orderly(sh) && |oks| >= 13
    requires KeyOf(c) in sh.flows && sh.reserved > 0
    ensures var out := Solo(sh, c, oks);
            var bare := FlowTable(sh) - {KeyOf(c)};
            && Leaves(sh, c, out)
            && var mark, now := MarkOf(out.0.log[|sh.log|]), FlowTable(out.0);
               && (Admits(c.config, TableOf(sh, c), bare, now, KeyOf(c), mark)
                   || (!All(oks, true) && Sheds(c.config, TableOf(sh, c), bare, now, KeyOf(c), mark)))
  {
    hide Solo, FlowTable, Unshared, VerdictOf, FlowsOk, PrefixHint, PortHint, MergeHint, Settle;
    First(sh, c, oks);
    Rest(oks, 1);
    var evidence := MergeHint(NoEvidence(), PrefixHint(TableOf(sh, c), c.packet.tuple));
    First(sh, c.(at := ReadPort(evidence)), oks[1..]);
    Rest(oks, 2);
    var (classId, kind) := Classify(TableOf(sh, c), c.packet.tuple);
    SoloTerminal(sh, c.(at := Ask(ForTerminal(kind), classId, false)), oks[2..]);
  }

  lemma NoRecord(sh: Shared, k: FlowKey, e: Entry)
    requires k !in sh.flows
    ensures k !in FlowTable(sh) && FlowTable(sh) - {k} == FlowTable(sh) && FlowTable(sh)[k := e] - {k} == FlowTable(sh)
  {
  }

  /** The pending record does not fit: the packet gives its reservation back and is shed. */
  lemma SoloNotInserted(sh: Shared, c: Cpu, oks: seq<bool>)
    requires c.Busy? && c.at.InsertPending? && Orderly(sh) && |oks| >= 7 && !oks[0]
    requires KeyOf(c) !in sh.flows && sh.reserved > 0
    ensures var out := Solo(sh, c, oks);
            && Leaves(sh, c, out)
            && Sheds(c.config, TableOf(sh, c), FlowTable(sh), FlowTable(out.0), KeyOf(c), MarkOf(out.0.log[|sh.log|]))
  {
    hide Solo, FlowTable, Unshared, VerdictOf, FlowsOk;
    First(sh, c, oks);
    First(sh, c.(at := Release(LoadShed)), oks[1..]);
    Rest(oks, 1);
    SameFlows(sh, Released(sh));
    SoloShed(Released(sh), c.(at := Ask(ForShed, CLASS_UNCLASSIFIED, false)), oks[2..]);
  }

  /** A packet with a reservation and no record: the flow is admitted, or shed. */
  lemma SoloReserved(sh: Shared, c: Cpu, oks: seq<bool>)
    requires c.Busy? && c.at.InsertPending? && Orderly(sh) && |oks| >= 14
    requires KeyOf(c) !in sh.flows && sh.reserved > 0
    ensures var out := Solo(sh, c, oks);
            && Leaves(sh, c, out)
            && var mark, now := MarkOf(out.0.log[|sh.log|]), FlowTable(out.0);
               && (Admits(c.config, TableOf(sh, c), FlowTable(sh), now, KeyOf(c), mark)
                   || (!All(oks, true) && Sheds(c.config, TableOf(sh, c), FlowTable(sh), now, KeyOf(c), mark)))
  {
    hide Solo, FlowTable, Unshared, VerdictOf, FlowsOk, Admits, Sheds;
    var key := KeyOf(c);
    if oks[0] {
      var e := Entry(c.subject, CLASS_UNCLASSIFIED, NoKind, true, c.config.provisionalVerdict, c.config.policyGen);
      First(sh, c, oks);
      Rest(oks, 1);
      TableStored(sh, key, e);
      NoRecord(sh, key, e);
      SoloClassified(Stored(sh, key, e), c.(at := ReadPrefix), oks[1..]);
    } else {
      SoloNotInserted(sh, c, oks);
    }
  }

  /** Classification was granted: the packet takes a reservation. */
  lemma SoloGranted(sh: Shared, c: Cpu, oks: seq<bool>)
    requires c.Busy? && c.at.Admit? && Orderly(sh) && |oks| >= 15 && KeyOf(c) !in sh.flows && oks[0]
    ensures var out := Solo(sh, c, oks);
            && Leaves(sh, c, out)
            && var mark, now := MarkOf(out.0.log[|sh.log|]), FlowTable(out.0);
               && (Admits(c.config, TableOf(sh, c), FlowTable(sh), now, KeyOf(c), mark)
                   || (!All(oks[1..], true) && Sheds(c.config, TableOf(sh, c), FlowTable(sh), now, KeyOf(c), mark)))
  {
    hide Solo, FlowTable, Unshared, VerdictOf, FlowsOk, Admits, Sheds, All;
    First(sh, c, oks);
    var held := sh.(reserved := sh.reserved + 1);
    SameFlows(sh, held);
    SoloReserved(held, c.(at := InsertPending), oks[1..]);
  }

  /** Classification was refused: the packet is shed. */
  lemma SoloDenied(sh: Shared, c: Cpu, oks: seq<bool>)
    requires c.Busy? && c.at.Admit? && Orderly(sh) && |oks| >= 6 && KeyOf(c) !in sh.flows && !oks[0]
    ensures var out := Solo(sh, c, oks);
            && Leaves(sh, c, out)
            && var mark, now := MarkOf(out.0.log[|sh.log|]), FlowTable(out.0);
               var shed := VerdictOf(TableOf(sh, c), c.subject, CLASS_UNCLASSIFIED);
               && Sheds(c.config, TableOf(sh, c), FlowTable(sh), now, KeyOf(c), mark) && mark == shed
               && (All(oks[1..], false) ==> now == FlowTable(sh))
               && (All(oks[1..], true) ==>
                     now == FlowTable(sh)[KeyOf(c) := UnclassifiedRecord(c.config, c.subject, shed)])
  {
    hide Solo, FlowTable, Unshared, VerdictOf, FlowsOk, All;
    First(sh, c, oks);
    SoloShed(sh, c.(at := Ask(ForShed, CLASS_UNCLASSIFIED, false)), oks[1..]);
  }

  /** A flow without a record is admitted, or shed. */
  lemma SoloAdmit(sh: Shared, c: Cpu, oks: seq<bool>)
    requires c.Busy? && c.at.Admit? && Orderly(sh) && |oks| >= 15 && KeyOf(c) !in sh.flows
    ensures var out := Solo(sh, c, oks);
            && Leaves(sh, c, out)
            && var mark, now := MarkOf(out.0.log[|sh.log|]), FlowTable(out.0);
               var shed := VerdictOf(TableOf(sh, c), c.subject, CLASS_UNCLASSIFIED);
               && (Admits(c.config, TableOf(sh, c), FlowTable(sh), now, KeyOf(c), mark)
                   || Sheds(c.config, TableOf(sh, c), FlowTable(sh), now, KeyOf(c), mark))
               && (All(oks, true) ==> Admits(c.config, TableOf(sh, c), FlowTable(sh), now, KeyOf(c), mark))
               && (All(oks, false) ==> mark == shed && now == FlowTable(sh))
               && (!oks[0] && All(oks[1..], true) ==>
                     mark == shed && now == FlowTable(sh)[KeyOf(c) := UnclassifiedRecord(c.config, c.subject, shed)])
  {
    hide Solo, FlowTable, Unshared, VerdictOf, Admits, FlowsOk, Sheds;
    First(sh, c, oks);
    Rest(oks, 1);
    if oks[0] { SoloGranted(sh, c, oks); } else { SoloDenied(sh, c, oks); }
  }

  /** The record as enforcement trusts it at the captured generation. */
  function Trusted(sh: Shared, c: Cpu, e: Entry): Entry
    requires c.Busy?
  {
    if e.gen == c.config.policyGen then e else RefreshedRecord(c.config, TableOf(sh, c), e)
  }

  /** A usable record is refreshed if it is stale, and read again. */
  lemma SoloReuse(sh: Shared, c: Cpu, oks: seq<bool>)
    requires c.Busy? && c.at.Inspect? && c.config.enforcement && Orderly(sh) && |oks| >= 5
    requires KeyOf(c) in sh.flows && c.at.id == sh.flows[KeyOf(c)] && Usable(sh.elements[c.at.id])
    ensures var e := Trusted(sh, c, sh.elements[c.at.id]);
            Left(sh, c, Solo(sh, c, oks), e.verdict, FlowTable(sh)[KeyOf(c) := e])
  {
    hide Solo, VerdictOf, FlowTable, Unshared, Left;
    var e := sh.elements[c.at.id];
    First(sh, c, oks);
    if e.gen == c.config.policyGen {
      SoloReread(sh, sh, c.(at := Reread(c.at.id)), e, oks[1..]);
      LeftAlike(sh, c.(at := Reread(c.at.id)), c, Solo(sh, c, oks), e.verdict, FlowTable(sh)[KeyOf(c) := e]);
    } else {
      var asking := c.(at := Ask(ForRefresh(c.at.id), e.classId, false));
      SoloRefresh(sh, asking, oks[1..]);
      var r := Trusted(sh, c, e);
      LeftAlike(sh, asking, c, Solo(sh, c, oks), r.verdict, FlowTable(sh)[KeyOf(c) := r]);
    }
  }

  /** The second access emits the record as it then is. */
  lemma SoloReread(sh: Shared, next: Shared, c: Cpu, e: Entry, oks: seq<bool>)
    requires c.Busy? && c.at.Reread? && Orderly(sh) && KeyOf(c) in sh.flows && oks != [] && e.subject == c.subject
    requires c.at.id == sh.flows[KeyOf(c)] && next == sh.(elements := sh.elements[c.at.id := e])
    ensures Left(sh, c, Solo(next, c, oks), e.verdict, FlowTable(sh)[KeyOf(c) := e])
  {
    hide Solo, FlowTable, Unshared, VerdictOf;
    TableRefreshed(sh, KeyOf(c), e);
    First(next, c, oks);
    Gone(Emit(next, c, Cached(e)), oks[1..]);
    SameFlows(next, Emit(next, c, Cached(e)));
  }

  lemma SoloRefresh(sh: Shared, c: Cpu, oks: seq<bool>)
    requires c.Busy? && c.at.Ask? && c.at.goal.ForRefresh? && !c.at.missedExact && Orderly(sh) && |oks| >= 4
    requires var id := c.at.goal.id;
             KeyOf(c) in sh.flows && id == sh.flows[KeyOf(c)] && sh.elements[id].classId == c.at.classId
    ensures var e := RefreshedRecord(c.config, TableOf(sh, c), sh.elements[c.at.goal.id]);
            Left(sh, c, Solo(sh, c, oks), e.verdict, FlowTable(sh)[KeyOf(c) := e])
  {
    hide Solo, VerdictOf, FlowTable, Unshared, Left;
    var id := c.at.goal.id;
    var e := RefreshedRecord(c.config, TableOf(sh, c), sh.elements[id]);
    var n := Lookup(sh, c, oks);
    Rest(oks, n);
    First(sh, c.(at := Answered(ForRefresh(id), c.at.classId, e.verdict)), oks[n..]);
    var next := sh.(elements := sh.elements[id := e]);
    SoloReread(sh, next, c.(at := Reread(id)), e, oks[n + 1..]);
    LeftAlike(sh, c.(at := Reread(id)), c, Solo(sh, c, oks), e.verdict, FlowTable(sh)[KeyOf(c) := e]);
  }

  lemma LeftAlike(sh: Shared, a: Cpu, b: Cpu, out: (Shared, Cpu), verdict: Verdict, now: map<FlowKey, Entry>)
    requires a.Busy? && b.Busy? && a.packet == b.packet && a.config == b.config && Units(a) == Units(b)
    requires Left(sh, a, out, verdict, now)
    ensures Left(sh, b, out, verdict, now)
  {
  }

  /** Records of the active generation hold the active table's verdict. */
  predicate UpToDate(sh: Shared) {
    forall k :: k in sh.flows && sh.flows[k] < |sh.elements| ==>
      var e := sh.elements[sh.flows[k]];
      Usable(e) && e.gen == sh.config.policyGen ==>
        e.verdict == VerdictOf(SlotOf(sh, sh.config.slot), e.subject, e.classId)
  }

  /** The packet as it enters. */
  predicate Entering(sh: Shared, c: Cpu) {
    c.Busy? && c.at.FindSubject? && c.config == sh.config
  }

  /** A packet that does not parse is marked unclassified. */
  lemma SoloUnsupported(sh: Shared, c: Cpu, oks: seq<bool>)
    requires c.Busy? && c.at == Ask(ForUnsupported, CLASS_UNCLASSIFIED, false) && |oks| >= 3
    ensures Left(sh, c, Solo(sh, c, oks), VerdictOf(TableOf(sh, c), c.subject, CLASS_UNCLASSIFIED), FlowTable(sh))
  {
    hide Solo, VerdictOf, FlowTable;
    var n := Lookup(sh, c, oks);
    var verdict := VerdictOf(TableOf(sh, c), c.subject, CLASS_UNCLASSIFIED);
    var done := Emit(sh, c, LookedUp(CLASS_UNCLASSIFIED, verdict));
    First(sh, c.(at := Answered(ForUnsupported, CLASS_UNCLASSIFIED, verdict)), oks[n..]);
    Gone(done, oks[n..][1..]);
    SameFlows(sh, done);
  }

  /** A packet without a subject is marked with the verdict for those. */
  lemma SoloUnknown(sh: Shared, c: Cpu, oks: seq<bool>)
    requires c.Busy? && c.at.FindSubject? && c.config.enforcement && oks != []
    requires SubjectOf(TableOf(sh, c), c.packet.mac).None?
    ensures Left(sh, c, Solo(sh, c, oks), c.config.unknownVerdict, FlowTable(sh))
  {
    hide Solo, FlowTable, SubjectOf;
    var done := Emit(sh, c, NoSubject(c.config.unknownVerdict));
    First(sh, c, oks);
    Gone(done, oks[1..]);
    SameFlows(sh, done);
  }

  /** The subject lookup of a packet that has one. */
  lemma SubjectMoves(sh: Shared, c: Cpu, ok: bool)
    requires c.Busy? && c.at.FindSubject? && c.config.enforcement
    ensures var subject := SubjectOf(TableOf(sh, c), c.packet.mac);
            subject.Some? ==>
              var next := if c.packet.parse == ParseOk then FindFlow else Ask(ForUnsupported, CLASS_UNCLASSIFIED, false);
              Move(sh, c, ok) == (sh, c.(subject := subject.value, at := next))
  {
    hide SubjectOf;
  }

  /** Under enforcement a packet on its own is marked, and leaves the flow table, as promised for a single packet. */
  lemma SoloIsIngress(sh: Shared, c: Cpu, oks: seq<bool>)
    requires Entering(sh, c) && c.config.enforcement && Orderly(sh) && UpToDate(sh) && |oks| >= 18
    ensures var out := Solo(sh, c, oks);
            && Leaves(sh, c, out)
            && Marks(sh.config, TableOf(sh, c), FlowTable(sh), FlowTable(out.0), c.packet, MarkOf(out.0.log[|sh.log|]))
  {
    hide Solo, VerdictOf, SubjectOf, Move, FlowTable, Orderly, UpToDate, Admits, Sheds;
    var subject := SubjectOf(TableOf(sh, c), c.packet.mac);
    if subject.None? {
      SoloUnknown(sh, c, oks);
    } else {
      First(sh, c, oks);
      SubjectMoves(sh, c, oks[0]);
      if c.packet.parse != ParseOk {
        SoloUnsupported(sh, c.(subject := subject.value, at := Ask(ForUnsupported, CLASS_UNCLASSIFIED, false)), oks[1..]);
      } else {
        SoloFind(sh, c.(subject := subject.value, at := FindFlow), oks[1..]);
      }
    }
  }

  /** The outcome for a packet whose subject is known. */
  predicate FlowOutcome(sh: Shared, c: Cpu, mark: Verdict, now: map<FlowKey, Entry>)
    requires c.Busy?
  {
    var k, was := KeyOf(c), FlowTable(sh);
    if k in was && was[k].pending then mark == c.config.provisionalVerdict && now == was
    else if k in was && Usable(was[k]) then
      mark == VerdictOf(TableOf(sh, c), c.subject, was[k].classId)
      && now == was[k := RefreshedRecord(c.config, TableOf(sh, c), was[k])]
    else
      Admits(c.config, TableOf(sh, c), was - {k}, now, k, mark) || Sheds(c.config, TableOf(sh, c), was - {k}, now, k, mark)
  }

  /** The lookup of the flow's record. */
  lemma FindMoves(sh: Shared, c: Cpu, ok: bool)
    requires c.Busy? && c.at.FindFlow? && c.config.enforcement
    ensures Move(sh, c, ok) ==
            (sh, c.(at := if KeyOf(c) in sh.flows then Inspect(sh.flows[KeyOf(c)]) else Admit))
  {
  }

  /** Without a record, or with one that was final without a class, the flow is classified anew. */
  lemma SoloUnusable(sh: Shared, c: Cpu, oks: seq<bool>) returns (n: nat)
    requires c.Busy? && c.at.FindFlow? && c.config.enforcement && Orderly(sh) && |oks| >= 2
    requires var k, t := KeyOf(c), FlowTable(sh); k in t ==> !t[k].pending && !Usable(t[k])
    ensures n == if KeyOf(c) in sh.flows then 2 else 1
    ensures var bare := sh.(flows := sh.flows - {KeyOf(c)});
            && Orderly(bare) && FlowTable(bare) == FlowTable(sh) - {KeyOf(c)}
            && Solo(sh, c, oks) == Solo(bare, c.(at := Admit), oks[n..])
  {
    hide Solo, FlowTable, Unshared;
    RecordOf(sh, KeyOf(c));
    First(sh, c, oks);
    FindMoves(sh, c, oks[0]);
    Rest(oks, 1);
    TableDeleted(sh, KeyOf(c));
    n := 1;
    if KeyOf(c) in sh.flows {
      First(sh, c.(at := Inspect(sh.flows[KeyOf(c)])), oks[1..]);
      n := 2;
    } else {
      assert sh.flows - {KeyOf(c)} == sh.flows;
    }
  }

  /** A flow whose classification is under way is marked optimistically. */
  lemma SoloPending(sh: Shared, c: Cpu, oks: seq<bool>)
    requires c.Busy? && c.at.Inspect? && c.config.enforcement && oks != []
    requires c.at.id < |sh.elements| && sh.elements[c.at.id].pending
    ensures Left(sh, c, Solo(sh, c, oks), c.config.provisionalVerdict, FlowTable(sh))
  {
    hide Solo, FlowTable;
    var done := Emit(sh, c, Optimistic(c.config.provisionalVerdict));
    First(sh, c, oks);
    Gone(done, oks[1..]);
    SameFlows(sh, done);
  }

  lemma SoloFind(sh: Shared, c: Cpu, oks: seq<bool>)
    requires c.Busy? && c.at.FindFlow? && c.config == sh.config && c.config.enforcement && Orderly(sh) && UpToDate(sh)
    requires |oks| >= 17
    ensures var out := Solo(sh, c, oks);
            Leaves(sh, c, out) && FlowOutcome(sh, c, MarkOf(out.0.log[|sh.log|]), FlowTable(out.0))
  {
    hide Solo, VerdictOf, Admits, Sheds, Move, FlowTable, Unshared;
    var key := KeyOf(c);
    RecordOf(sh, key);
    if key in sh.flows && (sh.elements[sh.flows[key]].pending || Usable(sh.elements[sh.flows[key]])) {
      First(sh, c, oks);
      FindMoves(sh, c, oks[0]);
      var inspecting := c.(at := Inspect(sh.flows[key]));
      if sh.elements[sh.flows[key]].pending {
        SoloPending(sh, inspecting, oks[1..]);
      } else {
        SoloReuse(sh, inspecting, oks[1..]);
      }
    } else {
      var n := SoloUnusable(sh, c, oks);
      SoloAdmit(sh.(flows := sh.flows - {key}), c.(at := Admit), oks[n..]);
    }
  }

  /** A flow without a usable record. */
  predicate Unfiled(sh: Shared, c: Cpu)
    requires c.Busy?
  {
    var k, t := KeyOf(c), FlowTable(sh);
    k in t ==> !t[k].pending && !Usable(t[k])
  }

  /** With every test passed the flow is admitted. */
  lemma AdmissionOccurs(sh: Shared, c: Cpu, oks: seq<bool>)
    requires c.Busy? && c.at.FindFlow? && c.config.enforcement && Orderly(sh) && Unfiled(sh, c)
    requires |oks| == 18 && All(oks, true)
    ensures var out := Solo(sh, c, oks);
            && Leaves(sh, c, out)
            && Admits(c.config, TableOf(sh, c), FlowTable(sh) - {KeyOf(c)}, FlowTable(out.0), KeyOf(c), MarkOf(out.0.log[|sh.log|]))
  {
    hide Solo, FlowTable, Unshared, FlowsOk, VerdictOf, Admits, Sheds;
    var n := SoloUnusable(sh, c, oks);
    Rest(oks, n);
    SoloAdmit(sh.(flows := sh.flows - {KeyOf(c)}), c.(at := Admit), oks[n..]);
  }

  /** With the admission refused the flow is shed, and filed as the later tests say. */
  lemma SheddingOccurs(sh: Shared, c: Cpu, oks: seq<bool>, kept: bool)
    requires c.Busy? && c.at.FindFlow? && c.config.enforcement && Orderly(sh) && Unfiled(sh, c)
    requires |oks| == 18
    requires var n := if KeyOf(c) in sh.flows then 2 else 1; !oks[n] && All(oks[n + 1..], kept)
    ensures var out := Solo(sh, c, oks);
            var shed := VerdictOf(TableOf(sh, c), c.subject, CLASS_UNCLASSIFIED);
            var bare := FlowTable(sh) - {KeyOf(c)};
            Left(sh, c, out, shed, if kept then bare[KeyOf(c) := UnclassifiedRecord(c.config, c.subject, shed)] else bare)
  {
    hide Solo, FlowTable, Unshared, FlowsOk, VerdictOf, Sheds, All;
    var n := SoloUnusable(sh, c, oks);
    Rest(oks, n);
    SoloDenied(sh.(flows := sh.flows - {KeyOf(c)}), c.(at := Admit), oks[n..]);
  }

  /** Every outcome promised for a flow without a usable record is that of some run. */
  lemma EveryClassificationOccurs(sh: Shared, c: Cpu, mark: Verdict, now: map<FlowKey, Entry>) returns (oks: seq<bool>)
    requires c.Busy? && c.at.FindFlow? && c.config.enforcement && Orderly(sh) && Unfiled(sh, c)
    requires var k, was := KeyOf(c), FlowTable(sh) - {KeyOf(c)};
             Admits(c.config, TableOf(sh, c), was, now, k, mark) || Sheds(c.config, TableOf(sh, c), was, now, k, mark)
    ensures |oks| == 18
    ensures var out := Solo(sh, c, oks);
            Leaves(sh, c, out) && MarkOf(out.0.log[|sh.log|]) == mark && FlowTable(out.0) == now
  {
    hide Solo, FlowTable, Orderly, VerdictOf, Classify, Leaves, Unfiled;
    var was := FlowTable(sh) - {KeyOf(c)};
    if Admits(c.config, TableOf(sh, c), was, now, KeyOf(c), mark) {
      oks := seq(18, i => true);
      AdmissionOccurs(sh, c, oks);
    } else {
      var n := if KeyOf(c) in sh.flows then 2 else 1;
      oks := if now == was then seq(18, i => false) else seq(18, i => i > n);
      SheddingOccurs(sh, c, oks, now != was);
    }
  }

  /** Every mark and flow table promised for a single packet is that of some run of the packet on its own. */
  lemma EveryIngressOccurs(sh: Shared, c: Cpu, mark: Verdict, now: map<FlowKey, Entry>) returns (oks: seq<bool>)
    requires Entering(sh, c) && c.config.enforcement && Orderly(sh) && UpToDate(sh)
    requires Marks(sh.config, TableOf(sh, c), FlowTable(sh), now, c.packet, mark)
    ensures |oks| >= 18
    ensures var out := Solo(sh, c, oks);
            Leaves(sh, c, out) && MarkOf(out.0.log[|sh.log|]) == mark && FlowTable(out.0) == now
  {
    hide Solo, FlowTable, Unshared, FlowsOk, VerdictOf, UpToDate, Admits, Sheds;
    var subject := SubjectOf(TableOf(sh, c), c.packet.mac);
    oks := seq(19, i => true);
    if subject.Some? && c.packet.parse == ParseOk {
      var finding := c.(subject := subject.value, at := FindFlow);
      var k := KeyOf(finding);
      if k !in FlowTable(sh) || (!FlowTable(sh)[k].pending && !Usable(FlowTable(sh)[k])) {
        var rest := EveryClassificationOccurs(sh, finding, mark, now);
        oks := [true] + rest;
        First(sh, c, oks);
        assert oks[1..] == rest;
      }
    }
    SoloIsIngress(sh, c, oks);
  }

  /** In correlation-only mode a packet on its own is not marked, and at most files its flow. */
  lemma SoloIsTracking(sh: Shared, c: Cpu, oks: seq<bool>)
    requires Entering(sh, c) && !c.config.enforcement && Orderly(sh) && |oks| >= 3
    ensures var out := Solo(sh, c, oks);
            && out.1 == Idle && SameTables(sh, out.0) && out.0.log == sh.log && out.0.reserved == sh.reserved
            && Tracks(sh.config, TableOf(sh, c), FlowTable(sh), FlowTable(out.0), c.packet)
  {
    hide Solo, VerdictOf, PolicyAt, FlowTable, Unshared;
    First(sh, c, oks);
    var subject := SubjectOf(TableOf(sh, c), c.packet.mac);
    if subject.None? || c.packet.parse != ParseOk {
      Gone(sh, oks[1..]);
    } else {
      var finding := c.(subject := subject.value, at := FindFlow);
      First(sh, finding, oks[1..]);
      if KeyOf(finding) in sh.flows {
        First(sh, finding.(at := Inspect(sh.flows[KeyOf(finding)])), oks[1..][1..]);
        Gone(sh, oks[1..][1..][1..]);
      } else {
        SoloTrack(sh, finding.(at := Track), oks[1..][1..]);
      }
    }
  }

  lemma SoloTrack(sh: Shared, c: Cpu, oks: seq<bool>)
    requires c.Busy? && c.at.Track? && Orderly(sh) && oks != [] && KeyOf(c) !in sh.flows
    ensures var out := Solo(sh, c, oks);
            && out.1 == Idle && SameTables(sh, out.0) && out.0.log == sh.log && out.0.reserved == sh.reserved
            && KeyOf(c) !in FlowTable(sh)
            && (FlowTable(out.0) == FlowTable(sh)
                || FlowTable(out.0) == FlowTable(sh)[KeyOf(c) := UnclassifiedRecord(c.config, c.subject, Allow)])
  {
    hide Solo, FlowTable, Unshared;
    First(sh, c, oks);
    Gone(Move(sh, c, oks[0]).0, oks[1..]);
    TableStored(sh, KeyOf(c), UnclassifiedRecord(c.config, c.subject, Allow));
    NoRecord(sh, KeyOf(c), UnclassifiedRecord(c.config, c.subject, Allow));
  }

  // ----- In a run of the machine -----

  function Advances(c: nat, oks: seq<bool>): seq<Event> {
    seq(|oks|, i requires 0 <= i < |oks| => Advance(c, oks[i]))
  }

  lemma {:induction false} RunFromFront(s: State, e: Event, events: seq<Event>)
    ensures RunFrom(s, [e] + events) == RunFrom(Step(s, e), events)
  {
    hide Step;
    var all, n := [e] + events, |events|;
    if n > 0 {
      RunFromFront(s, e, events[..n - 1]);
      assert all[..n] == [e] + events[..n - 1];
    } else {
      assert all[..0] == [];
    }
  }

  lemma {:induction false} AdvancesAreSolo(s: State, c: nat, oks: seq<bool>)
    requires c < |s.cpus|
    ensures var out := Solo(s.shared, s.cpus[c], oks);
            RunFrom(s, Advances(c, oks)) == s.(shared := out.0, cpus := s.cpus[c := out.1])
    decreases |oks|
  {
    hide Move;
    if oks != [] {
      var next := Step(s, Advance(c, oks[0]));
      assert Advances(c, oks) == [Advance(c, oks[0])] + Advances(c, oks[1..]);
      RunFromFront(s, Advance(c, oks[0]), Advances(c, oks[1..]));
      AdvancesAreSolo(next, c, oks[1..]);
      if s.cpus[c].Idle? { Gone(s.shared, oks[1..]); }
    }
  }

  /** The accesses that change the flow map. */
  predicate Files(at: At) {
    at.Track? || at.InsertPending? || at.Replace? || at.ShedInsert? || at.DeleteFlow? || at.Inspect?
  }

  lemma FilingFlows(sh: Shared, c: Cpu, ok: bool)
    requires c.Busy? && Files(c.at)
    ensures var flows := Move(sh, c, ok).0.flows;
            flows == sh.flows || flows == sh.flows - {KeyOf(c)} || flows == sh.flows[KeyOf(c) := |sh.elements|]
  {
    hide VerdictOf, PolicyAt, SubjectOf, PrefixHint, PortHint, MergeHint, Settle, Use, ShedInspectFlow, AfterSubject;
  }

  lemma OtherFlows(sh: Shared, c: Cpu, ok: bool)
    requires c.Busy? && !Files(c.at)
    ensures Move(sh, c, ok).0.flows == sh.flows
  {
    hide VerdictOf, PolicyAt, SubjectOf, PrefixHint, PortHint, MergeHint, Settle, Stored, InspectFlow;
  }

  /** A packet only ever touches its own flow, and files a new record under a new number. */
  lemma MoveFlows(sh: Shared, c: Cpu, ok: bool)
    requires c.Busy?
    ensures var flows := Move(sh, c, ok).0.flows;
            flows == sh.flows || flows == sh.flows - {KeyOf(c)} || flows == sh.flows[KeyOf(c) := |sh.elements|]
  {
    hide Move;
    if Files(c.at) { FilingFlows(sh, c, ok); } else { OtherFlows(sh, c, ok); }
  }

  lemma UnsharedStays(sh: Shared, next: Shared, k: FlowKey)
    requires Orderly(sh)
    requires next.flows == sh.flows || next.flows == sh.flows - {k} || next.flows == sh.flows[k := |sh.elements|]
    ensures Unshared(next)
  {
  }

  lemma OtherStepFlows(s: State, e: Event)
    requires !e.Advance?
    ensures var flows := Step(s, e).shared.flows;
            flows == s.shared.flows || (e.Expire? && flows == s.shared.flows - {e.flow})
  {
    hide Policies, Contents;
  }

  lemma StepKeepsUnshared(s: State, e: Event)
    requires Orderly(s.shared)
    ensures Unshared(Step(s, e).shared)
  {
    hide Move, FlowsOk, Unshared, Policies, Contents;
    if e.Advance? {
      if e.cpu < |s.cpus| && s.cpus[e.cpu].Busy? {
        MoveFlows(s.shared, s.cpus[e.cpu], e.ok);
        UnsharedStays(s.shared, Step(s, e).shared, KeyOf(s.cpus[e.cpu]));
      }
    } else {
      OtherStepFlows(s, e);
      hide Step;
      UnsharedStays(s.shared, Step(s, e).shared, if e.Expire? then e.flow else FlowKey(0, Tuple(false, 0, 0, [], [], 0)));
    }
  }

  lemma {:induction false} RunKeepsUnshared(cpus: nat, events: seq<Event>)
    requires Assumed(cpus, events)
    ensures Unshared(Run(cpus, events).shared)
  {
    hide Step, Inv;
    if events != [] {
      var n := |events| - 1;
      RunKeepsUnshared(cpus, events[..n]);
      RunKeepsInv(cpus, events[..n]);
      OrderlyRecords(Run(cpus, events[..n]));
      StepKeepsUnshared(Run(cpus, events[..n]), events[n]);
    }
  }

  lemma OrderlyRecords(s: State)
    requires Inv(s)
    ensures FlowsOk(s.shared) && (s.shared.config.enabled ==> UpToDate(s.shared))
  {
    hide CpusOk, LogOk, PublisherOk, VerdictOf, Policies;
    if s.shared.config.enabled {
      forall k | k in s.shared.flows
        ensures var e := s.shared.elements[s.shared.flows[k]];
                Usable(e) && e.gen == s.shared.config.policyGen ==>
                  e.verdict == VerdictOf(SlotOf(s.shared, s.shared.config.slot), e.subject, e.classId)
      {
        var e := s.shared.elements[s.shared.flows[k]];
        assert EntryOk(s.history, e);
        var active := SlotOf(s.shared, s.shared.config.slot);
        SnapshotVerdict(s, Busy(Packet("", ParseOk, k.tuple), s.shared.config, active, e.subject, FindFlow), e.classId);
      }
    }
  }

  /** The run of one packet, undisturbed, from a reachable state. */
  function Undisturbed(s: State, c: nat, packet: Packet, oks: seq<bool>): State {
    RunFrom(s, [Capture(c, packet)] + Advances(c, oks))
  }

  lemma UndisturbedIsSolo(s: State, c: nat, packet: Packet, oks: seq<bool>)
    requires c < |s.cpus| && s.cpus[c].Idle? && s.shared.config.enabled
    ensures var cpu := Busy(packet, s.shared.config, SlotOf(s.shared, s.shared.config.slot), 0, FindSubject);
            var out := Solo(s.shared, cpu, oks);
            Undisturbed(s, c, packet, oks) == s.(shared := out.0, cpus := s.cpus[c := out.1])
  {
    hide Solo;
    RunFromFront(s, Capture(c, packet), Advances(c, oks));
    AdvancesAreSolo(Step(s, Capture(c, packet)), c, oks);
  }

  /**
   * From every reachable state, a packet that runs through the interleaved machine without interference emits the
   * mark and leaves the flow table that the sequential packet program promises, and nothing else changes.
   */
  lemma UndisturbedIsIngress(cpus: nat, events: seq<Event>, c: nat, packet: Packet, oks: seq<bool>)
    requires Assumed(cpus, events) && |oks| >= 18
    requires var s := Run(cpus, events); c < |s.cpus| && s.cpus[c].Idle? && s.shared.config.enabled
    ensures var s := Run(cpus, events);
            var r := Undisturbed(s, c, packet, oks);
            var config, active := s.shared.config, SlotOf(s.shared, s.shared.config.slot);
            && r.cpus == s.cpus && SameTables(s.shared, r.shared) && r.shared.reserved == s.shared.reserved
            && (if config.enforcement then
                  && |r.shared.log| == |s.shared.log| + 1 && r.shared.log[..|s.shared.log|] == s.shared.log
                  && Marks(config, active, FlowTable(s.shared), FlowTable(r.shared), packet,
                           MarkOf(r.shared.log[|s.shared.log|]))
                else
                  r.shared.log == s.shared.log && Tracks(config, active, FlowTable(s.shared), FlowTable(r.shared), packet))
  {
    hide Solo, Run, Inv, Marks, Tracks, Undisturbed;
    var s := Run(cpus, events);
    RunKeepsInv(cpus, events);
    RunKeepsUnshared(cpus, events);
    OrderlyRecords(s);
    UndisturbedIsSolo(s, c, packet, oks);
    var cpu := Busy(packet, s.shared.config, SlotOf(s.shared, s.shared.config.slot), 0, FindSubject);
    if cpu.config.enforcement { SoloIsIngress(s.shared, cpu, oks); } else { SoloIsTracking(s.shared, cpu, oks); }
  }

  /** And conversely, whatever the sequential program may do with a packet under enforcement, some such run does. */
  lemma IngressIsUndisturbed(cpus: nat, events: seq<Event>, c: nat, packet: Packet, mark: Verdict,
                             now: map<FlowKey, Entry>) returns (oks: seq<bool>)
    requires Assumed(cpus, events)
    requires var s := Run(cpus, events);
             && c < |s.cpus| && s.cpus[c].Idle? && s.shared.config.enabled && s.shared.config.enforcement
             && Marks(s.shared.config, SlotOf(s.shared, s.shared.config.slot), FlowTable(s.shared), now, packet, mark)
    ensures |oks| >= 18
    ensures var s := Run(cpus, events);
            var r := Undisturbed(s, c, packet, oks);
            && |r.shared.log| == |s.shared.log| + 1 && MarkOf(r.shared.log[|s.shared.log|]) == mark
            && FlowTable(r.shared) == now
  {
    hide Solo, Run, Inv, Marks, Undisturbed;
    var s := Run(cpus, events);
    RunKeepsInv(cpus, events);
    RunKeepsUnshared(cpus, events);
    OrderlyRecords(s);
    var cpu := Busy(packet, s.shared.config, SlotOf(s.shared, s.shared.config.slot), 0, FindSubject);
    oks := EveryIngressOccurs(s.shared, cpu, mark, now);
    UndisturbedIsSolo(s, c, packet, oks);
  }
}
