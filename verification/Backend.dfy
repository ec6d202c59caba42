/**
 * The kernel side as the controller and one packet at a time see it: publishing a snapshot, disabling, and the packet
 * program itself. Whether a kernel call succeeds is arbitrary, except that an obliging kernel refuses nothing.
 */
module Backend {
  import opened Common
  import opened Hints
  import opened Tables
  import opened Datapath
  import opened PackedWord
  import PendingCounter
  import RateWindow

  datatype Limits = Limits(packets: nat, bytes: nat, ageMs: nat, pending: nat, perSecond: nat, perSubject: nat)

  function SubjectWindow(rates: map<nat, nat>, subject: nat): nat {
    if subject in rates then rates[subject] else 0
  }

  /** The config record of freshly created maps. */
  function NewlyLoaded(): Config {
    Config(false, false, false, 0, 0, Allow, Allow)
  }

  /** What a snapshot makes its policy generation mean. */
  ghost function EraOf(snapshot: Snapshot): Era {
    Era(Policies(Contents(snapshot.entries)), snapshot.config.enforcement)
  }

  ghost predicate KeepsEra(history: map<nat, Era>, snapshot: Snapshot) {
    snapshot.config.policyGen in history ==> history[snapshot.config.policyGen] == EraOf(snapshot)
  }

  /** Every flow record belongs to its key and is coherent with the published generations. */
  ghost predicate CacheOk(history: map<nat, Era>, flows: map<FlowKey, Entry>) {
    forall k :: k in flows ==> flows[k].subject == k.subject && EntryOk(history, flows[k])
  }

  // ----- What the packet program does to the flow table -----

  /** A record that enforcement trusts: terminal and classified. */
  predicate Usable(e: Entry) {
    !e.pending && e.kind != NoKind
  }

  function UnclassifiedRecord(config: Config, subject: nat, verdict: Verdict): Entry {
    Entry(subject, CLASS_UNCLASSIFIED, NoKind, false, verdict, config.policyGen)
  }

  /** The record refreshed to the active generation. */
  function RefreshedRecord(config: Config, active: Table, e: Entry): Entry {
    e.(verdict := VerdictOf(active, e.subject, e.classId), gen := config.policyGen)
  }

  /** The flow was admitted: its record holds its class, and the optimistic verdict is emitted. */
  predicate Admits(config: Config, active: Table, was: map<FlowKey, Entry>, now: map<FlowKey, Entry>, k: FlowKey,
                   verdict: Verdict) {
    var (classId, kind) := Classify(active, k.tuple);
    && verdict == config.provisionalVerdict
    && now == was[k := Entry(k.subject, classId, kind, false, VerdictOf(active, k.subject, classId), config.policyGen)]
  }

  /** The flow was shed: at most an unclassified record is kept, and the unclassified verdict is emitted. */
  predicate Sheds(config: Config, active: Table, was: map<FlowKey, Entry>, now: map<FlowKey, Entry>, k: FlowKey,
                  verdict: Verdict) {
    && verdict == VerdictOf(active, k.subject, CLASS_UNCLASSIFIED)
    && (now == was || now == was[k := UnclassifiedRecord(config, k.subject, verdict)])
  }

  /**
   * The mark of a packet under enforcement, and what becomes of the flow table: the unknown-subject verdict, the
   * unclassified verdict of a packet that does not parse, the table's verdict for a classified flow, or a
   * classification.
   */
  predicate Marks(config: Config, active: Table, was: map<FlowKey, Entry>, now: map<FlowKey, Entry>, p: Packet,
                  verdict: Verdict) {
    var subject := SubjectOf(active, p.mac);
    if subject.None? then verdict == config.unknownVerdict && now == was
    else if p.parse != ParseOk then
      verdict == VerdictOf(active, subject.value, CLASS_UNCLASSIFIED) && now == was
    else
      var k := FlowKey(subject.value, p.tuple);
      if k in was && was[k].pending then verdict == config.provisionalVerdict && now == was
      else if k in was && Usable(was[k]) then
        && verdict == VerdictOf(active, k.subject, was[k].classId)
        && now == was[k := RefreshedRecord(config, active, was[k])]
      else Admits(config, active, was - {k}, now, k, verdict) || Sheds(config, active, was - {k}, now, k, verdict)
  }

  /** Correlation-only mode: no mark, and at most a record without a class for a flow that had none. */
  predicate Tracks(config: Config, active: Table, was: map<FlowKey, Entry>, now: map<FlowKey, Entry>, p: Packet) {
    var subject := SubjectOf(active, p.mac);
    || now == was
    || (subject.Some? && p.parse == ParseOk
        && var k := FlowKey(subject.value, p.tuple);
           k !in was && now == was[k := UnclassifiedRecord(config, k.subject, Allow)])
  }

  /** Every key occurs once. */
  predicate Distinct(entries: seq<(Key, Val)>) {
    forall i, j :: 0 <= i < j < |entries| ==> entries[i].0 != entries[j].0
  }

  lemma {:induction false} KeyOfContents(entries: seq<(Key, Val)>, k: Key)
    requires k in Contents(entries)
    ensures exists i :: 0 <= i < |entries| && entries[i].0 == k
  {
    var n := |entries| - 1;
    if entries[n].0 != k {
      KeyOfContents(entries[..n], k);
      var i :| 0 <= i < n && entries[..n][i].0 == k;
      assert entries[i].0 == k;
    }
  }

  class Maps {
    var config: Config
    var limits: Limits
    var slotA: Table
    var slotB: Table
    var flows: map<FlowKey, Entry>
    var pending: nat
    var globalRate: nat
    var subjectRates: map<nat, nat>
    ghost var history: map<nat, Era>

    function Slot(slot: bool): Table
      reads this
    {
      if slot then slotB else slotA
    }

    function Active(): Table
      reads this
    {
      Slot(config.slot)
    }

    /** The active table is what its generation means, and the verdict cache is coherent with history. */
    ghost predicate Valid()
      reads this
    {
      && (config.enabled ==>
            config.policyGen in history && history[config.policyGen] == Era(Policies(Active()), config.enforcement))
      && CacheOk(history, flows)
    }

    constructor ()
      ensures Valid() && config == NewlyLoaded() && history == map[] && flows == map[] && Lo(pending) == 0
    {
      config, limits := NewlyLoaded(), Limits(0, 0, 0, 0, 0, 0);
      slotA, slotB, flows, subjectRates, history := map[], map[], map[], map[], map[];
      pending, globalRate := 0, 0;
    }

    /** The pinned maps are gone and created anew: everything is as after load. */
    method Reset()
      modifies this
      ensures Valid() && config == NewlyLoaded() && history == map[]
    {
      config, limits := NewlyLoaded(), Limits(0, 0, 0, 0, 0, 0);
      slotA, slotB, flows, subjectRates, history := map[], map[], map[], map[], map[];
      pending, globalRate := 0, 0;
    }

    // ----- Publication -----

    method SetSlot(slot: bool, t: Table)
      modifies this`slotA, this`slotB
      ensures Slot(slot) == t && Slot(!slot) == old(Slot(!slot))
    {
      if slot { slotB := t; } else { slotA := t; }
    }

    /** clear_map over the maps of one slot: key by key, until empty or until a deletion fails. */
    method ClearSlot(slot: bool, obliging: bool) returns (ok: bool)
      modifies this`slotA, this`slotB
      ensures ok ==> Slot(slot) == map[]
      ensures obliging ==> ok
      ensures Slot(!slot) == old(Slot(!slot))
    {
      while Slot(slot).Keys != {}
        invariant Slot(!slot) == old(Slot(!slot))
        decreases |Slot(slot).Keys|
      {
        var key :| key in Slot(slot).Keys;
        var refused: bool := *;
        if refused && !obliging { return false; }
        ghost var before := Slot(slot).Keys;
        SetSlot(slot, Slot(slot) - {key});
        assert Slot(slot).Keys == before - {key};
      }
      ok := true;
    }

    /** The filling loops: every key at most once. */
    method FillSlot(slot: bool, entries: seq<(Key, Val)>, obliging: bool) returns (ok: bool)
      requires Slot(slot) == map[]
      modifies this`slotA, this`slotB
      ensures ok ==> Slot(slot) == Contents(entries)
      ensures obliging && Distinct(entries) ==> ok
      ensures Slot(!slot) == old(Slot(!slot))
    {
      for i := 0 to |entries|
        invariant Slot(slot) == Contents(entries[..i]) && Slot(!slot) == old(Slot(!slot))
      {
        assert entries[..i + 1][..i] == entries[..i];
        var refused: bool := *;
        if entries[i].0 in Slot(slot) {
          KeyOfContents(entries[..i], entries[i].0);
          return false;
        }
        if refused && !obliging { return false; }
        SetSlot(slot, Slot(slot)[entries[i].0 := entries[i].1]);
      }
      assert entries[..|entries|] == entries;
      ok := true;
    }

    /** clear_map over the per-subject windows, which start over with a new classifier generation. */
    method ResetRates(obliging: bool) returns (ok: bool)
      modifies this`subjectRates
      ensures obliging ==> ok
      ensures ok ==> subjectRates == map[]
      ensures forall k :: k in subjectRates ==> k in old(subjectRates) && subjectRates[k] == old(subjectRates)[k]
    {
      while subjectRates.Keys != {}
        invariant forall k :: k in subjectRates ==> k in old(subjectRates) && subjectRates[k] == old(subjectRates)[k]
        decreases |subjectRates.Keys|
      {
        var subject :| subject in subjectRates.Keys;
        var refused: bool := *;
        if refused && !obliging { return false; }
        ghost var before := subjectRates.Keys;
        subjectRates := subjectRates - {subject};
        assert subjectRates.Keys == before - {subject};
      }
      ok := true;
    }

    /** Everything a sync does before it publishes. */
    method Rebuild(snapshot: Snapshot, obliging: bool) returns (ok: bool)
      modifies this`slotA, this`slotB, this`subjectRates
      ensures obliging && Distinct(snapshot.entries) ==> ok
      ensures ok ==> Slot(!config.slot) == Contents(snapshot.entries)
      ensures ok && snapshot.config.classifierGen != config.classifierGen ==> subjectRates == map[]
      ensures Slot(config.slot) == old(Slot(config.slot))
      ensures snapshot.config.classifierGen == config.classifierGen ==> subjectRates == old(subjectRates)
    {
      ok := ClearSlot(!config.slot, obliging);
      if !ok { return; }
      ok := FillSlot(!config.slot, snapshot.entries, obliging);
      if !ok { return; }
      if snapshot.config.classifierGen != config.classifierGen { ok := ResetRates(obliging); }
    }

    /**
     * ca_bpf_snapshot_sync. A sync that succeeds publishes exactly the snapshot in the slot that was inactive; one
     * that fails at any step leaves the config record and the active tables as they were.
     */
    method Sync(parsed: Option<(Snapshot, Limits)>, obliging: bool) returns (ok: bool)
      requires Valid() && (parsed.Some? ==> KeepsEra(history, parsed.value.0))
      modifies this`config, this`limits, this`slotA, this`slotB, this`subjectRates, this`history
      ensures Valid()
      ensures obliging && parsed.Some? && Distinct(parsed.value.0.entries) ==> ok
      ensures ok ==> parsed.Some? && config == parsed.value.0.config.(slot := !old(config.slot))
                     && Active() == Contents(parsed.value.0.entries) && limits == parsed.value.1
                     && history == old(history)[config.policyGen := EraOf(parsed.value.0)]
      ensures !ok ==> config == old(config) && Active() == old(Active()) && limits == old(limits)
                      && history == old(history)
      ensures Slot(old(config.slot)) == old(Active())
      ensures ok ==> subjectRates == if config.classifierGen == old(config.classifierGen) then old(subjectRates) else map[]
    {
      hide CacheOk, Contents, Policies, Distinct;
      var unavailable: bool := *;
      if (unavailable && !obliging) || parsed.None? { return false; }
      var (snapshot, newLimits) := parsed.value;
      ok := Rebuild(snapshot, obliging);
      if !ok { return; }
      var refused: bool := *;
      if refused && !obliging { return false; }
      config, limits := snapshot.config.(slot := !config.slot), newLimits;
      KeepsCache(history, history[config.policyGen := EraOf(snapshot)], flows);
      history := history[config.policyGen := EraOf(snapshot)];
    }

    /** ca_bpf_backend_disable: only the enable flag changes. */
    method Disable() returns (ok: bool)
      requires Valid()
      modifies this`config
      ensures Valid() && config.(enabled := old(config.enabled)) == old(config)
      ensures ok ==> !config.enabled
      ensures !ok ==> config == old(config)
    {
      hide CacheOk;
      ok := *;
      if ok { config := config.(enabled := false); }
    }

    // ----- The packet program -----

    /** ca_rate_take with no other CPU interfering. */
    method RateTake(word: nat, nowNs: nat, limit: nat) returns (next: nat, ok: bool)
      ensures ok <==> !(RateWindow.Second(nowNs) == Hi(word) && Lo(word) >= limit)
      ensures next == if ok then RateWindow.Taken(RateWindow.Second(nowNs), word) else word
    {
      var second := RateWindow.Second(nowNs);
      if second != Hi(word) { return RateWindow.Taken(second, word), true; }
      if Lo(word) >= limit { return word, false; }
      return word + 1, true;
    }

    /** ca_admit_classification: one take from the global window, then one from the subject's own. */
    method AdmitClassification(subject: nat, nowNs: nat) returns (ok: bool)
      modifies this`globalRate, this`subjectRates
      ensures ok ==> globalRate == RateWindow.Taken(RateWindow.Second(nowNs), old(globalRate))
      ensures ok ==> subject in subjectRates
                     && subjectRates[subject] == RateWindow.Taken(RateWindow.Second(nowNs), SubjectWindow(old(subjectRates), subject))
      ensures forall k :: k in subjectRates && k != subject ==> k in old(subjectRates) && subjectRates[k] == old(subjectRates)[k]
    {
      var word;
      word, ok := RateTake(globalRate, nowNs, limits.perSecond);
      globalRate := word;
      if !ok { return; }
      var full: bool := *;
      if subject !in subjectRates {
        if full { return false; }
        subjectRates := subjectRates[subject := 0];
      }
      word, ok := RateTake(subjectRates[subject], nowNs, limits.perSubject);
      subjectRates := subjectRates[subject := word];
    }

    /** ca_pending_reserve and ca_pending_release with no other CPU interfering. */
    method Reserve() returns (ok: bool)
      requires limits.pending < 0x1_0000_0000
      modifies this`pending
      ensures ok <==> old(Lo(pending)) < limits.pending
      ensures ok ==> Lo(pending) == old(Lo(pending)) + 1
                     && Hi(pending) == Max(old(Lo(pending)) + 1, old(Hi(pending)))
      ensures !ok ==> pending == old(pending)
    {
      ok := Lo(pending) < limits.pending;
      if ok {
        PackParts(Max(Lo(pending) + 1, Hi(pending)), Lo(pending) + 1);
        pending := PendingCounter.Reserved(pending);
      }
    }

    method Release()
      requires Lo(pending) > 0
      modifies this`pending
      ensures Lo(pending) == old(Lo(pending)) - 1 && Hi(pending) == old(Hi(pending))
    {
      DecrementLo(pending);
      pending := pending - 1;
    }

    /** bpf_map_update_elem with BPF_NOEXIST on the flow map, which may be full. */
    method InsertFlow(k: FlowKey, e: Entry) returns (ok: bool)
      modifies this`flows
      ensures ok ==> k !in old(flows) && flows == old(flows)[k := e]
      ensures !ok ==> flows == old(flows)
    {
      var full: bool := *;
      ok := k !in flows && !full;
      if ok { flows := flows[k := e]; }
    }

    function Unclassified(subject: nat, verdict: Verdict): Entry
      reads this`config
    {
      UnclassifiedRecord(config, subject, verdict)
    }

    /** The record refreshed to the active generation. */
    function Refreshed(e: Entry): Entry
      reads this
    {
      RefreshedRecord(config, Active(), e)
    }

    /** Brings a terminal record up to the active generation and returns the verdict to emit. */
    method UseRecord(k: FlowKey) returns (verdict: Verdict)
      requires Valid() && config.enabled && config.enforcement && k in flows && !flows[k].pending
      modifies this`flows
      ensures Valid() && verdict == VerdictOf(Active(), k.subject, old(flows)[k].classId)
      ensures flows == old(flows)[k := Refreshed(old(flows)[k])]
    {
      var e := flows[k];
      ActiveMeans(e);
      if e.gen != config.policyGen { flows := flows[k := Refreshed(e)]; }
      verdict := flows[k].verdict;
    }

    /** A record of the active generation is coherent exactly when it holds the active table's verdict. */
    lemma ActiveMeans(e: Entry)
      requires Valid() && config.enabled && config.enforcement
      ensures e.gen == config.policyGen ==>
                (Coherent(history, e) <==> e.verdict == VerdictOf(Active(), e.subject, e.classId))
      ensures Coherent(history, Refreshed(e))
    {
    }

    /** ca_budget_exhausted; `examined` packets and bytes, `age` since the first one. */
    function BudgetExhausted(packets: nat, bytes: nat, ageNs: nat): (exhausted: bool)
      reads this`limits
      ensures packets == 1 ==> exhausted
    {
      limits.packets != 1 || packets >= limits.packets || bytes >= limits.bytes || ageNs >= limits.ageMs * 1_000_000
    }

    /** ca_try_terminal: an admitted record becomes terminal, or stays pending while there is budget left. */
    method TryTerminal(e: Entry, tuple: Tuple, packets: nat, bytes: nat, ageNs: nat) returns (r: Entry, terminal: bool)
      requires Valid() && config.enabled && config.enforcement && e.kind == NoKind && e.pending
      ensures packets == 1 ==> terminal
      ensures terminal ==> var (classId, kind) := Classify(Active(), tuple);
                           r == Entry(e.subject, classId, kind, false, VerdictOf(Active(), e.subject, classId), config.policyGen)
      ensures terminal ==> EntryOk(history, r)
      ensures !terminal ==> r.pending
    {
      var (classId, kind) := Classify(Active(), tuple);
      r := e.(classId := classId, kind := kind);
      if kind == NoKind && !BudgetExhausted(packets, bytes, ageNs) { return r, false; }
      r := r.(pending := false, verdict := VerdictOf(Active(), e.subject, classId), gen := config.policyGen);
      terminal := true;
      ActiveMeans(r);
    }

    /** ca_load_shed: the unclassified verdict, stored if there is room, unless another record turned up. */
    method LoadShed(k: FlowKey) returns (verdict: Verdict)
      requires Valid() && config.enabled && config.enforcement
      modifies this`flows
      ensures Valid()
      ensures k !in old(flows) ==>
                var e := Unclassified(k.subject, VerdictOf(Active(), k.subject, CLASS_UNCLASSIFIED));
                verdict == e.verdict && (flows == old(flows) || flows == old(flows)[k := e])
      ensures k in old(flows) && !old(flows)[k].pending ==>
                verdict == VerdictOf(Active(), k.subject, old(flows)[k].classId)
                && flows == old(flows)[k := Refreshed(old(flows)[k])]
      ensures k in old(flows) && old(flows)[k].pending ==> verdict == config.provisionalVerdict && flows == old(flows)
    {
      var e := Unclassified(k.subject, VerdictOf(Active(), k.subject, CLASS_UNCLASSIFIED));
      ActiveMeans(e);
      var inserted := InsertFlow(k, e);
      if inserted { return e.verdict; }
      if k in flows {
        if flows[k].pending { return config.provisionalVerdict; }
        verdict := UseRecord(k);
        return;
      }
      return e.verdict;
    }

    ghost predicate AdmittedFlow(was: map<FlowKey, Entry>, k: FlowKey, verdict: Verdict)
      reads this
    {
      Admits(config, Active(), was, flows, k, verdict)
    }

    ghost predicate ShedFlow(was: map<FlowKey, Entry>, k: FlowKey, verdict: Verdict)
      reads this
    {
      Sheds(config, Active(), was, flows, k, verdict)
    }

    /** The bounded classification of a flow without a record, from the reservation to its release. */
    method ClassifyReserved(k: FlowKey, bytes: nat) returns (verdict: Verdict)
      requires Valid() && config.enabled && config.enforcement && k !in flows && Lo(pending) > 0
      modifies this`flows, this`pending
      ensures Valid() && Lo(pending) == old(Lo(pending)) - 1 && Hi(pending) == old(Hi(pending))
      ensures AdmittedFlow(old(flows), k, verdict) || ShedFlow(old(flows), k, verdict)
    {
      var initial := Entry(k.subject, CLASS_UNCLASSIFIED, NoKind, true, config.provisionalVerdict, config.policyGen);
      var inserted := InsertFlow(k, initial);
      if !inserted {
        Release();
        verdict := LoadShed(k);
        return;
      }
      verdict := ClassifyInserted(k, initial, bytes, old(flows));
    }

    /** The classification of a flow whose pending record is in place. */
    method ClassifyInserted(k: FlowKey, initial: Entry, bytes: nat, ghost was: map<FlowKey, Entry>) returns (verdict: Verdict)
      requires Valid() && config.enabled && config.enforcement && k !in was && Lo(pending) > 0
      requires initial == Entry(k.subject, CLASS_UNCLASSIFIED, NoKind, true, config.provisionalVerdict, config.policyGen)
      requires flows == was[k := initial] && CacheOk(history, was)
      modifies this`flows, this`pending
      ensures Valid() && Lo(pending) == old(Lo(pending)) - 1 && Hi(pending) == old(Hi(pending))
      ensures AdmittedFlow(was, k, verdict) || ShedFlow(was, k, verdict)
    {
      hide VerdictOf, Lo, Hi, Classify;
      var e, terminal := TryTerminal(initial, k.tuple, 1, bytes, 0);
      var failed: bool := *;
      if failed {
        Release();
        flows := flows - {k};
        assert flows == was;
        verdict := LoadShed(k);
        return;
      }
      flows := flows[k := e];
      assert flows == was[k := e];
      if terminal { Release(); }
      verdict := config.provisionalVerdict;
    }

    /** Classification of a flow that has no usable record. */
    method ClassifyFlow(k: FlowKey, nowNs: nat, bytes: nat) returns (verdict: Verdict)
      requires Valid() && config.enabled && config.enforcement && k !in flows && limits.pending < 0x1_0000_0000
      modifies this`flows, this`pending, this`globalRate, this`subjectRates
      ensures Valid() && Lo(pending) == old(Lo(pending)) && Hi(pending) >= old(Hi(pending))
      ensures AdmittedFlow(old(flows), k, verdict) || ShedFlow(old(flows), k, verdict)
    {
      var admitted := AdmitClassification(k.subject, nowNs);
      if !admitted {
        verdict := LoadShed(k);
        return;
      }
      var reserved := Reserve();
      if !reserved {
        verdict := LoadShed(k);
        return;
      }
      verdict := ClassifyReserved(k, bytes);
    }

    /** The part of ca_ingress that runs under enforcement for a packet of a known subject. */
    method EnforceFlow(k: FlowKey, nowNs: nat, bytes: nat) returns (verdict: Verdict)
      requires Valid() && config.enabled && config.enforcement && limits.pending < 0x1_0000_0000
      modifies this`flows, this`pending, this`globalRate, this`subjectRates
      ensures Valid() && Lo(pending) == old(Lo(pending)) && Hi(pending) >= old(Hi(pending))
      ensures k in old(flows) && Usable(old(flows)[k]) ==>
                verdict == VerdictOf(Active(), k.subject, old(flows)[k].classId)
                && flows == old(flows)[k := Refreshed(old(flows)[k])]
      ensures k in old(flows) && old(flows)[k].pending ==> verdict == config.provisionalVerdict && flows == old(flows)
      ensures k !in old(flows) || (!old(flows)[k].pending && !Usable(old(flows)[k])) ==>
                AdmittedFlow(old(flows) - {k}, k, verdict) || ShedFlow(old(flows) - {k}, k, verdict)
    {
      if k in flows {
        if flows[k].pending { return config.provisionalVerdict; }
        if Usable(flows[k]) {
          verdict := UseRecord(k);
          return;
        }
        flows := flows - {k};
      } else {
        assert flows - {k} == flows;
      }
      verdict := ClassifyFlow(k, nowNs, bytes);
    }

    /** Correlation-only mode: a record without a class, and no mark. */
    method TrackFlow(k: FlowKey)
      requires Valid() && config.enabled && !config.enforcement
      modifies this`flows
      ensures Valid()
      ensures flows == old(flows) || (k !in old(flows) && flows == old(flows)[k := Unclassified(k.subject, Allow)])
    {
      if k !in flows { var inserted := InsertFlow(k, Unclassified(k.subject, Allow)); }
    }

    /**
     * ca_ingress without interference. `packet` is None for a frame without an Ethernet header; the result is the
     * verdict marked on the packet, if any.
     */
    method Ingress(packet: Option<Packet>, nowNs: nat, bytes: nat) returns (mark: Option<Verdict>)
      requires Valid() && limits.pending < 0x1_0000_0000
      modifies this`flows, this`pending, this`globalRate, this`subjectRates
      ensures Valid() && Lo(pending) == old(Lo(pending)) && Hi(pending) >= old(Hi(pending))
      ensures mark.Some? <==> packet.Some? && config.enabled && config.enforcement
      ensures mark.Some? ==> Marked(old(flows), packet.value, mark.value)
      ensures packet.None? || !config.enabled ==> flows == old(flows)
      ensures mark.None? && packet.Some? && config.enabled ==> Tracks(config, Active(), old(flows), flows, packet.value)
      ensures forall k :: k in flows && k !in old(flows) ==> Keyed(packet, k)
      ensures forall k :: k in old(flows) && !Keyed(packet, k) ==> k in flows && flows[k] == old(flows)[k]
    {
      if !config.enabled || packet.None? { return None; }
      var p := packet.value;
      var subject := SubjectOf(Active(), p.mac);
      if subject.None? { return if config.enforcement then Some(config.unknownVerdict) else None; }
      if p.parse != ParseOk {
        return if config.enforcement then Some(VerdictOf(Active(), subject.value, CLASS_UNCLASSIFIED)) else None;
      }
      var k := FlowKey(subject.value, p.tuple);
      if !config.enforcement {
        TrackFlow(k);
        return None;
      }
      var verdict := EnforceFlow(k, nowNs, bytes);
      return Some(verdict);
    }

    /** The flow key the packet would be filed under. */
    predicate Keyed(packet: Option<Packet>, k: FlowKey)
      reads this
    {
      packet.Some? && SubjectOf(Active(), packet.value.mac) == Some(k.subject) && packet.value.tuple == k.tuple
    }

    ghost predicate Marked(was: map<FlowKey, Entry>, p: Packet, verdict: Verdict)
      reads this
    {
      Marks(config, Active(), was, flows, p, verdict)
    }

    /** A packet whose flow has a usable record is marked with the table's verdict for the flow's class. */
    method MarkUsable(p: Packet, nowNs: nat, bytes: nat, ghost subject: nat) returns (mark: Option<Verdict>)
      requires Valid() && limits.pending < 0x1_0000_0000 && config.enabled && config.enforcement
      requires p.parse == ParseOk && SubjectOf(Active(), p.mac) == Some(subject)
      requires FlowKey(subject, p.tuple) in flows && Usable(flows[FlowKey(subject, p.tuple)])
      modifies this`flows, this`pending, this`globalRate, this`subjectRates
      ensures mark == Some(VerdictOf(Active(), subject, old(flows)[FlowKey(subject, p.tuple)].classId))
    {
      hide VerdictOf, SubjectOf, Tracks, Admits, Sheds, Keyed, CacheOk;
      mark := Ingress(Some(p), nowNs, bytes);
    }

    /**
     * Two packets of a new flow: the first is marked optimistically when the flow is admitted, and then, if the
     * tables classify the flow, the second gets the policy's verdict for that class.
     */
    method SecondPacketIsClassified(p: Packet, nowNs: nat, bytes: nat, laterNs: nat)
      returns (first: Option<Verdict>, second: Option<Verdict>, admitted: bool)
      requires Valid() && limits.pending < 0x1_0000_0000 && config.enabled && config.enforcement
      requires p.parse == ParseOk && SubjectOf(Active(), p.mac).Some?
      requires FlowKey(SubjectOf(Active(), p.mac).value, p.tuple) !in flows
      modifies this`flows, this`pending, this`globalRate, this`subjectRates
      ensures admitted ==> first == Some(config.provisionalVerdict)
      ensures admitted && Classify(Active(), p.tuple).1 != NoKind ==>
                second == Some(VerdictOf(Active(), SubjectOf(Active(), p.mac).value, Classify(Active(), p.tuple).0))
      ensures !admitted ==>
                first == Some(VerdictOf(Active(), SubjectOf(Active(), p.mac).value, CLASS_UNCLASSIFIED))
    {
      var k := FlowKey(SubjectOf(Active(), p.mac).value, p.tuple);
      first := Ingress(Some(p), nowNs, bytes);
      admitted := k in flows && first == Some(config.provisionalVerdict)
                  && (flows[k].classId, flows[k].kind) == Classify(Active(), k.tuple);
      second := Ingress(Some(p), laterNs, bytes);
    }
  }

  lemma KeepsCache(was: map<nat, Era>, now: map<nat, Era>, flows: map<FlowKey, Entry>)
    requires CacheOk(was, flows) && forall g :: g in was ==> g in now && now[g] == was[g]
    ensures CacheOk(now, flows)
  {
  }
}
