/**
 * client-access-sfoctl: conntrack dumps, the bounded verify-and-delete loop behind a targeted revocation and behind a
 * baseline, and the garbage collection of flow records.
 *
 * The kernel's answers are inputs: one dump, one list of deletion outcomes and one clock reading per pass.
 */
module Revocation {
  import opened Common
  import opened FlowIndex

  const MAX_CANDIDATES := 4096
  const MAX_CONNTRACK_SNAPSHOT := 32768
  const MAX_VERIFICATION_PASSES := 3

  // ----- Collecting candidates -----

  predicate Wanted(f: Flow, subject: Option<nat>, class_: Option<nat>) {
    && (subject.Some? ==> f.key.subjectId == subject.value)
    && SupportedFlow(f.key)
    && (class_.Some? ==> f.classId == class_.value)
  }

  function WantedFlows(records: seq<Flow>, subject: Option<nat>, class_: Option<nat>): seq<Flow> {
    if records == [] then []
    else
      var n := |records| - 1;
      WantedFlows(records[..n], subject, class_) + if Wanted(records[n], subject, class_) then [records[n]] else []
  }

  /**
   * collect_candidates over the records the flow map yields: the wanted records in order and indexed, or a failure
   * as soon as one more than fits is wanted.
   */
  method Collect(c: Candidates, records: seq<Flow>, subject: Option<nat>, class_: Option<nat>) returns (ok: bool)
    requires c.Valid() && c.count == 0 && forall r :: r in records ==> ValidKey(r.key)
    modifies c, c.items, c.next
    ensures ok <==> |WantedFlows(records, subject, class_)| <= c.items.Length
    ensures ok ==> c.Indexed() && c.Flows() == WantedFlows(records, subject, class_)
  {
    ok := true;
    for i := 0 to |records|
      invariant ok && c.Valid() && c.Flows() == WantedFlows(records[..i], subject, class_)
      invariant |c.Flows()| <= c.items.Length
    {
      assert records[..i + 1][..i] == records[..i];
      if Wanted(records[i], subject, class_) {
        ok := c.Append(records[i]);
        if !ok {
          WantedGrows(records, i + 1, subject, class_);
          return;
        }
      }
    }
    assert records[..|records|] == records;
    c.Index();
  }

  lemma {:induction false} WantedGrows(records: seq<Flow>, n: nat, subject: Option<nat>, class_: Option<nat>)
    requires n <= |records|
    ensures |WantedFlows(records[..n], subject, class_)| <= |WantedFlows(records, subject, class_)|
  {
    if n == |records| {
      assert records[..n] == records;
    } else {
      var m := |records| - 1;
      WantedGrows(records[..m], n, subject, class_);
      assert records[..m][..n] == records[..n];
    }
  }

  // ----- Scanning a dump -----

  type CandidateList = fs: seq<Flow> | AllCandidates(fs) witness []

  /** What a scan looks for: conntrack entries of the candidates, or every software-offloaded entry. */
  datatype Target = Offloaded | MatchesOf(flows: CandidateList)

  predicate Selects(target: Target, ct: Conntrack) {
    match target
    case Offloaded => ct.offloaded && !ct.hwOffloaded
    case MatchesOf(flows) => MatchesAny(flows, ct)
  }

  function Selected(target: Target, dump: seq<Conntrack>): seq<Conntrack> {
    if dump == [] then []
    else
      var n := |dump| - 1;
      Selected(target, dump[..n]) + if Selects(target, dump[n]) then [dump[n]] else []
  }

  function HardwareCount(dump: seq<Conntrack>): nat {
    if dump == [] then 0
    else
      var n := |dump| - 1;
      HardwareCount(dump[..n]) + if dump[n].hwOffloaded then 1 else 0
  }

  lemma {:induction false} SelectedMembers(target: Target, dump: seq<Conntrack>, ct: Conntrack)
    ensures ct in Selected(target, dump) <==> ct in dump && Selects(target, ct)
  {
    if dump != [] {
      var n := |dump| - 1;
      SelectedMembers(target, dump[..n], ct);
      assert dump == dump[..n] + [dump[n]];
    }
  }

  lemma {:induction false} SelectedGrows(target: Target, dump: seq<Conntrack>, n: nat)
    requires n <= |dump|
    ensures |Selected(target, dump[..n])| <= |Selected(target, dump)|
  {
    if n == |dump| {
      assert dump[..n] == dump;
    } else {
      var m := |dump| - 1;
      SelectedGrows(target, dump[..m], n);
      assert dump[..m][..n] == dump[..n];
    }
  }

  lemma {:induction false} NoHardware(dump: seq<Conntrack>)
    ensures HardwareCount(dump) == 0 <==> forall ct :: ct in dump ==> !ct.hwOffloaded
  {
    if dump != [] {
      var n := |dump| - 1;
      NoHardware(dump[..n]);
      assert dump == dump[..n] + [dump[n]];
    }
  }

  /** What the callback accumulates. */
  datatype Scan = Scan(entries: nat, hardware: nat, overflow: bool, matches: seq<Conntrack>)

  /** Candidate `i` has an entry in the dump. */
  predicate Live(flows: CandidateList, i: nat, dump: seq<Conntrack>)
    requires i < |flows|
  {
    exists j :: 0 <= j < |dump| && Matches(flows, i, dump[j])
  }

  function TargetOf(offloadedOnly: bool, flows: CandidateList): Target {
    if offloadedOnly then Offloaded else MatchesOf(flows)
  }

  predicate Fits(target: Target, dump: seq<Conntrack>, capacity: Option<nat>) {
    && |dump| <= MAX_CONNTRACK_SNAPSHOT
    && (capacity.Some? ==> |Selected(target, dump)| <= capacity.value)
  }

  /** One entry added to what was seen. */
  function Extended(target: Target, s: Scan, ct: Conntrack, keep: bool): Scan {
    Scan(s.entries + 1, s.hardware + if ct.hwOffloaded then 1 else 0, false,
         s.matches + if keep && Selects(target, ct) then [ct] else [])
  }

  predicate Overflows(target: Target, s: Scan, ct: Conntrack, capacity: Option<nat>) {
    || s.entries >= MAX_CONNTRACK_SNAPSHOT
    || (capacity.Some? && Selects(target, ct) && |s.matches| >= capacity.value)
  }

  /** scan_cb */
  method ScanEntry(c: Candidates, offloadedOnly: bool, ct: Conntrack, capacity: Option<nat>, s0: Scan)
    returns (s: Scan)
    requires c.Indexed() && !s0.overflow
    modifies c.present
    ensures s.overflow <==> Overflows(TargetOf(offloadedOnly, c.Flows()), s0, ct, capacity)
    ensures !s.overflow ==> s == Extended(TargetOf(offloadedOnly, c.Flows()), s0, ct, capacity.Some?)
    ensures !s.overflow && !offloadedOnly ==>
              forall i :: 0 <= i < c.count ==> c.present[i] == (old(c.present[i]) || Matches(c.Flows(), i, ct))
  {
    s := s0.(entries := s0.entries + 1);
    if s.entries > MAX_CONNTRACK_SNAPSHOT { return s.(overflow := true); }
    if ct.hwOffloaded { s := s.(hardware := s.hardware + 1); }
    var selected := ct.offloaded && !ct.hwOffloaded;
    if !offloadedOnly { selected := c.Mark(ct); }
    if selected && capacity.Some? {
      s := if |s.matches| >= capacity.value then s.(overflow := true) else s.(matches := s.matches + [ct]);
    }
  }

  /** What a scan of a whole dump that fits accumulates. */
  function Seen(target: Target, dump: seq<Conntrack>, keep: bool): Scan {
    Scan(|dump|, HardwareCount(dump), false, if keep then Selected(target, dump) else [])
  }

  /** Reading the next entry goes on from the scan of the entries before it, or shows that the dump does not fit. */
  lemma SeenStep(target: Target, dump: seq<Conntrack>, k: nat, capacity: Option<nat>)
    requires k < |dump|
    ensures Extended(target, Seen(target, dump[..k], capacity.Some?), dump[k], capacity.Some?)
         == Seen(target, dump[..k + 1], capacity.Some?)
    ensures Fits(target, dump[..k], capacity) ==>
              (Fits(target, dump[..k + 1], capacity) <==>
               !Overflows(target, Seen(target, dump[..k], capacity.Some?), dump[k], capacity))
    ensures Fits(target, dump, capacity) ==> Fits(target, dump[..k + 1], capacity)
  {
    hide HardwareCount, Selected, Selects;
    OneMoreEntry(target, dump, k);
    SelectedGrows(target, dump, k + 1);
  }

  /** The counts of one more entry. */
  lemma OneMoreEntry(target: Target, dump: seq<Conntrack>, k: nat)
    requires k < |dump|
    ensures HardwareCount(dump[..k + 1]) == HardwareCount(dump[..k]) + if dump[k].hwOffloaded then 1 else 0
    ensures Selected(target, dump[..k + 1]) == Selected(target, dump[..k]) + if Selects(target, dump[k]) then [dump[k]] else []
  {
    hide Selects;
    assert dump[..k + 1][..k] == dump[..k];
  }

  /** One turn of a dump, in terms of the entries read so far. */
  method ScanNext(c: Candidates, offloadedOnly: bool, dump: seq<Conntrack>, k: nat, capacity: Option<nat>, s0: Scan,
                  ghost target: Target) returns (s: Scan)
    requires c.Indexed() && target == TargetOf(offloadedOnly, c.Flows()) && k < |dump|
    requires !s0.overflow && s0 == Seen(target, dump[..k], capacity.Some?) && Fits(target, dump[..k], capacity)
    requires !offloadedOnly ==> forall i :: 0 <= i < c.count ==> c.present[i] == Live(c.Flows(), i, dump[..k])
    modifies c.present
    ensures s.overflow ==> !Fits(target, dump, capacity)
    ensures !s.overflow ==> s == Seen(target, dump[..k + 1], capacity.Some?) && Fits(target, dump[..k + 1], capacity)
    ensures !s.overflow && !offloadedOnly ==>
              forall i :: 0 <= i < c.count ==> c.present[i] == Live(c.Flows(), i, dump[..k + 1])
  {
    hide Extended, Overflows, Seen, Fits, TargetOf, Matches, Live, Candidates.Indexed, Candidates.Flows;
    s := ScanEntry(c, offloadedOnly, dump[k], capacity, s0);
    SeenStep(target, dump, k, capacity);
    LiveSteps(c.Flows(), dump, k);
  }

  /** Before the first entry. */
  lemma NothingSeen(target: Target, flows: CandidateList, capacity: Option<nat>)
    ensures Seen(target, [], capacity.Some?) == Scan(0, 0, false, []) && Fits(target, [], capacity)
    ensures forall i :: 0 <= i < |flows| ==> !Live(flows, i, [])
  {
  }

  /**
   * conntrack_scan: the dump is read up to the first overflow. Without one, the collected entries are exactly the
   * selected ones in order, the presence flags exactly the candidates with an entry, and the count covers the dump.
   */
  method ScanDump(c: Candidates, offloadedOnly: bool, dump: seq<Conntrack>, capacity: Option<nat>)
    returns (s: Scan)
    requires c.Indexed() && forall i :: 0 <= i < c.count ==> !c.present[i]
    modifies c.present
    ensures !s.overflow <==> Fits(TargetOf(offloadedOnly, c.Flows()), dump, capacity)
    ensures !s.overflow ==> s == Seen(TargetOf(offloadedOnly, c.Flows()), dump, capacity.Some?)
    ensures !s.overflow && !offloadedOnly ==>
              forall i :: 0 <= i < c.count ==> c.present[i] == Live(c.Flows(), i, dump)
  {
    hide Extended, Overflows, Seen, Fits, TargetOf, Matches, Live, Candidates.Indexed, Candidates.Flows;
    ghost var flows: CandidateList := c.Flows();
    ghost var target := TargetOf(offloadedOnly, flows);
    s := Scan(0, 0, false, []);
    var k := 0;
    NothingSeen(target, flows, capacity);
    assert dump[..0] == [];
    while k < |dump|
      invariant 0 <= k <= |dump| && c.Indexed() && c.Flows() == flows
      invariant !s.overflow && s == Seen(target, dump[..k], capacity.Some?) && Fits(target, dump[..k], capacity)
      invariant !offloadedOnly ==> forall i :: 0 <= i < c.count ==> c.present[i] == Live(flows, i, dump[..k])
    {
      s := ScanNext(c, offloadedOnly, dump, k, capacity, s, target);
      if s.overflow { return; }
      k := k + 1;
    }
    assert dump[..|dump|] == dump;
  }

  lemma LiveStep(flows: CandidateList, i: nat, dump: seq<Conntrack>, k: nat)
    requires i < |flows| && k < |dump|
    ensures Live(flows, i, dump[..k + 1]) == (Live(flows, i, dump[..k]) || Matches(flows, i, dump[k]))
  {
    if Live(flows, i, dump[..k]) {
      var j :| 0 <= j < k && Matches(flows, i, dump[..k][j]);
      assert dump[..k + 1][j] == dump[..k][j];
    }
    if Matches(flows, i, dump[k]) { assert dump[..k + 1][k] == dump[k]; }
    if Live(flows, i, dump[..k + 1]) {
      var j :| 0 <= j < k + 1 && Matches(flows, i, dump[..k + 1][j]);
      if j < k { assert dump[..k][j] == dump[..k + 1][j]; }
    }
  }

  lemma LiveSteps(flows: CandidateList, dump: seq<Conntrack>, k: nat)
    requires k < |dump|
    ensures forall i :: 0 <= i < |flows| ==>
              Live(flows, i, dump[..k + 1]) == (Live(flows, i, dump[..k]) || Matches(flows, i, dump[k]))
  {
    hide Live, Matches;
    forall i | 0 <= i < |flows| {
      LiveStep(flows, i, dump, k);
    }
  }

  // ----- Deleting -----

  datatype DeleteOutcome = Deleted | Absent | Failed

  /** What the kernel does during one pass. */
  datatype Pass = Pass(scanFails: bool, dump: seq<Conntrack>, opens: bool, deletes: seq<DeleteOutcome>, elapsedMs: nat)

  function Outcome(p: Pass, i: nat): DeleteOutcome {
    if i < |p.deletes| then p.deletes[i] else Deleted
  }

  datatype Summary = Summary(complete: bool, healthy: bool, attempts: nat, successes: nat, absent: nat, failures: nat,
                           passes: nat, remaining: nat, deadlineExceeded: bool)

  predicate AllDeleted(p: Pass, n: nat) {
    p.opens && forall i :: 0 <= i < n ==> Outcome(p, i) != Failed
  }

  /** delete_conntracks: stops at the first entry that can be neither deleted nor found absent. */
  method Delete(list: seq<Conntrack>, p: Pass, r0: Summary) returns (r: Summary, ok: bool)
    ensures ok <==> AllDeleted(p, |list|)
    ensures r.(attempts := r0.attempts, successes := r0.successes, absent := r0.absent) == r0
    ensures var refused := if ok || !p.opens then 0 else 1;
            r.attempts - r0.attempts == (r.successes - r0.successes) + (r.absent - r0.absent) + refused
    ensures ok ==> r.attempts == r0.attempts + |list|
  {
    r := r0;
    if !p.opens { return r, false; }
    for i := 0 to |list|
      invariant forall k :: 0 <= k < i ==> Outcome(p, k) != Failed
      invariant r.(attempts := r0.attempts, successes := r0.successes, absent := r0.absent) == r0
      invariant r.attempts == r0.attempts + i
      invariant i == (r.successes - r0.successes) + (r.absent - r0.absent)
    {
      r := r.(attempts := r.attempts + 1);
      match Outcome(p, i)
      case Deleted => r := r.(successes := r.successes + 1);
      case Absent => r := r.(absent := r.absent + 1);
      case Failed => return r, false;
    }
    ok := true;
  }

  // ----- The bounded loop -----

  predicate Observed(target: Target, p: Pass) {
    !p.scanFails && Fits(target, p.dump, Some(MAX_CANDIDATES)) && HardwareCount(p.dump) == 0
  }

  /** The pass shows that nothing selected is left. */
  predicate Clean(target: Target, p: Pass) {
    Observed(target, p) && Selected(target, p.dump) == []
  }

  /** The pass deleted everything it saw and there is time for another look. */
  predicate Retry(target: Target, p: Pass, deadlineMs: nat) {
    && Observed(target, p) && Selected(target, p.dump) != []
    && AllDeleted(p, |Selected(target, p.dump)|) && p.elapsedMs < deadlineMs
  }

  predicate CleanAt(target: Target, world: seq<Pass>, deadlineMs: nat, k: nat) {
    && k < |world| && k < MAX_VERIFICATION_PASSES
    && Clean(target, world[k]) && forall j :: 0 <= j < k ==> Retry(target, world[j], deadlineMs)
  }

  predicate BecomesClean(target: Target, world: seq<Pass>, deadlineMs: nat) {
    exists k :: 0 <= k < |world| && CleanAt(target, world, deadlineMs, k)
  }

  /** After retries only, the first pass that is no retry decides. */
  lemma FirstStopDecides(target: Target, world: seq<Pass>, deadlineMs: nat, n: nat)
    requires n < |world| <= MAX_VERIFICATION_PASSES
    requires forall j :: 0 <= j < n ==> Retry(target, world[j], deadlineMs)
    requires !Retry(target, world[n], deadlineMs) || n + 1 == |world|
    ensures BecomesClean(target, world, deadlineMs) <==> Clean(target, world[n])
    ensures Clean(target, world[n]) ==> CleanAt(target, world, deadlineMs, n)
  {
    if Clean(target, world[n]) { assert CleanAt(target, world, deadlineMs, n); }
  }

  method ClearPresence(c: Candidates)
    requires c.Valid()
    modifies c.present
    ensures forall i :: 0 <= i < c.count ==> !c.present[i]
  {
    for i := 0 to c.count
      invariant forall k :: 0 <= k < i ==> !c.present[k]
    {
      c.present[i] := false;
    }
  }

  /** One pass up to the decision whether to go on. */
  method RunPass(c: Candidates, offloadedOnly: bool, p: Pass, deadlineMs: nat, r0: Summary)
    returns (r: Summary, again: bool)
    requires c.Indexed() && !r0.complete
    modifies c.present
    ensures !(r.complete && again)
    ensures r.complete <==> Clean(TargetOf(offloadedOnly, c.Flows()), p)
    ensures again <==> Retry(TargetOf(offloadedOnly, c.Flows()), p, deadlineMs)
    ensures r.passes == r0.passes + 1
    ensures r.complete ==> r.remaining == 0 && r.healthy == r0.healthy
    ensures again ==> r.healthy == r0.healthy
  {
    ClearPresence(c);
    r := r0.(passes := r0.passes + 1);
    again := false;
    ghost var target := TargetOf(offloadedOnly, c.Flows());
    if p.scanFails { return r.(failures := r.failures + 1, healthy := false), false; }
    var s := ScanDump(c, offloadedOnly, p.dump, Some(MAX_CANDIDATES));
    if s.overflow { return r.(failures := r.failures + 1, healthy := false), false; }
    r := r.(remaining := |s.matches|);
    if s.hardware > 0 { return r.(healthy := false), false; }
    if |s.matches| == 0 { return r.(complete := true), false; }
    var ok;
    r, ok := Delete(s.matches, p, r);
    if !ok { return r.(failures := r.failures + 1), false; }
    again := p.elapsedMs < deadlineMs;
  }

  /** The loop shared by run_revoke and run_baseline. */
  method RunPasses(c: Candidates, offloadedOnly: bool, world: seq<Pass>, deadlineMs: nat, ghost target: Target)
    returns (r: Summary)
    requires c.Indexed() && |world| == MAX_VERIFICATION_PASSES && target == TargetOf(offloadedOnly, c.Flows())
    modifies c.present
    ensures 1 <= r.passes <= MAX_VERIFICATION_PASSES
    ensures r.complete <==> BecomesClean(target, world, deadlineMs)
    ensures r.complete ==> r.healthy && r.remaining == 0 && CleanAt(target, world, deadlineMs, r.passes - 1)
  {
    hide TargetOf, Clean, Retry, CleanAt, BecomesClean, Candidates.Flows, Candidates.Indexed, Candidates.Valid;
    r := Summary(false, true, 0, 0, 0, 0, 0, 0, false);
    var again := true;
    while again && r.passes < MAX_VERIFICATION_PASSES
      invariant r.passes <= MAX_VERIFICATION_PASSES && (again || r.passes > 0)
      invariant c.Indexed() && TargetOf(offloadedOnly, c.Flows()) == target
      invariant again ==> !r.complete && r.healthy
      invariant r.complete ==> r.healthy && r.remaining == 0
      invariant forall j :: 0 <= j < r.passes - 1 ==> Retry(target, world[j], deadlineMs)
      invariant r.passes > 0 ==> (again <==> Retry(target, world[r.passes - 1], deadlineMs))
      invariant r.passes > 0 ==> (r.complete <==> Clean(target, world[r.passes - 1]))
      decreases MAX_VERIFICATION_PASSES - r.passes
    {
      r, again := RunPass(c, offloadedOnly, world[r.passes], deadlineMs, r);
    }
    FirstStopDecides(target, world, deadlineMs, r.passes - 1);
  }

  /**
   * The loop with its closing deadline test reports COMPLETE exactly when one of at most three passes saw nothing
   * left, after passes that each deleted all they saw in time, and the whole call met its deadline.
   */
  method VerifyAndDelete(c: Candidates, offloadedOnly: bool, world: seq<Pass>, deadlineMs: nat, latencyMs: nat)
    returns (r: Summary)
    requires c.Indexed() && |world| == MAX_VERIFICATION_PASSES
    modifies c.present
    ensures r.complete <==>
            BecomesClean(TargetOf(offloadedOnly, c.Flows()), world, deadlineMs) && latencyMs <= deadlineMs
    ensures 1 <= r.passes <= MAX_VERIFICATION_PASSES
    ensures r.complete ==> r.healthy && CleanAt(TargetOf(offloadedOnly, c.Flows()), world, deadlineMs, r.passes - 1)
    ensures r.deadlineExceeded ==> !r.complete && !r.healthy
  {
    hide BecomesClean, CleanAt, Candidates.Indexed, Candidates.Flows;
    r := RunPasses(c, offloadedOnly, world, deadlineMs, TargetOf(offloadedOnly, c.Flows()));
    r := r.(deadlineExceeded := latencyMs > deadlineMs || (!r.complete && r.remaining > 0));
    if r.deadlineExceeded { r := r.(complete := false, healthy := false); }
  }

  /**
   * run_revoke: COMPLETE exactly when the wanted flow records fit and the loop over them ends clean in time.
   */
  method Revoke(records: seq<Flow>, subject: nat, class_: Option<nat>, world: seq<Pass>, deadlineMs: nat,
                latencyMs: nat) returns (complete: bool)
    requires |world| == MAX_VERIFICATION_PASSES && forall r :: r in records ==> ValidKey(r.key)
    ensures complete <==>
            var wanted := WantedFlows(records, Some(subject), class_);
            && |wanted| <= MAX_CANDIDATES && AllCandidates(wanted)
            && BecomesClean(MatchesOf(wanted), world, deadlineMs) && latencyMs <= deadlineMs
  {
    hide BecomesClean, CleanAt;
    var c := new Candidates(MAX_CANDIDATES);
    var collected := Collect(c, records, Some(subject), class_);
    if !collected { return false; }
    var r := VerifyAndDelete(c, false, world, deadlineMs, latencyMs);
    complete := r.complete;
  }

  /** A clean pass of a targeted revocation leaves no conntrack entry that any candidate matches. */
  lemma CleanMeansNoneMatches(flows: CandidateList, p: Pass, ct: Conntrack, i: nat)
    requires Clean(MatchesOf(flows), p) && ct in p.dump && i < |flows|
    ensures !TupleMatches(flows[i].key, ct) && !ct.hwOffloaded
  {
    SelectedMembers(MatchesOf(flows), p.dump, ct);
    NoHardware(p.dump);
    assert !Matches(flows, i, ct);
  }

  /** A clean pass of a baseline leaves no offloaded entry at all. */
  lemma CleanBaselineMeansNothingOffloaded(p: Pass, ct: Conntrack)
    requires Clean(Offloaded, p) && ct in p.dump
    ensures !ct.offloaded && !ct.hwOffloaded
  {
    SelectedMembers(Offloaded, p.dump, ct);
    NoHardware(p.dump);
  }

  // ----- Garbage collection -----

  function Cutoff(nowNs: nat, idleSeconds: nat): (c: nat)
    ensures c > 0 ==> c == nowNs - idleSeconds * 1_000_000_000
    ensures c == 0 <==> nowNs <= idleSeconds * 1_000_000_000
  {
    if nowNs > idleSeconds * 1_000_000_000 then nowNs - idleSeconds * 1_000_000_000 else 0
  }

  ghost predicate Stale(flows: CandidateList, i: nat, dump: seq<Conntrack>, cutoff: nat) {
    i < |flows| && !Live(flows, i, dump) && flows[i].lastSeenNs < cutoff
  }

  /** The keys of the first `n` candidates that are stale. */
  ghost function StaleKeys(flows: CandidateList, dump: seq<Conntrack>, cutoff: nat, n: nat): set<FlowKey>
    requires n <= |flows|
  {
    set i | 0 <= i < n && Stale(flows, i, dump, cutoff) :: flows[i].key
  }

  /** The deleting loop of run_gc, stopping at the first record the kernel refuses to delete. */
  method Sweep(c: Candidates, ghost dump: seq<Conntrack>, cutoff: nat, table: map<FlowKey, Flow>,
               refused: set<FlowKey>) returns (kept: map<FlowKey, Flow>, complete: bool)
    requires c.Valid() && forall k :: 0 <= k < c.count ==> c.present[k] == Live(c.Flows(), k, dump)
    ensures complete ==> kept == table - StaleKeys(c.Flows(), dump, cutoff, c.count)
    ensures kept.Keys <= table.Keys
    ensures forall k :: k in table && k !in kept ==> k in StaleKeys(c.Flows(), dump, cutoff, c.count)
  {
    hide Live, StaleKeys, Stale, AllCandidates;
    kept, complete := table, false;
    ghost var flows: CandidateList := c.Flows();
    var i := 0;
    StaleKeysStart(flows, dump, cutoff);
    while i < c.count
      invariant 0 <= i <= c.count && kept == table - StaleKeys(flows, dump, cutoff, i)
    {
      var flow := c.items[i];
      assert flow == flows[i];
      StaleKeysStep(flows, dump, cutoff, i);
      if !c.present[i] && flow.lastSeenNs < cutoff {
        if flow.key in refused { return; }
        kept := kept - {flow.key};
      }
      i := i + 1;
    }
    complete := true;
  }

  /**
   * run_gc after collection: a successful run removes from the flow map exactly the idle records without a conntrack
   * entry; an unsuccessful one removes no other record.
   */
  method CollectGarbage(c: Candidates, dump: seq<Conntrack>, scanFails: bool, nowNs: nat, idleSeconds: nat,
                        table: map<FlowKey, Flow>, refused: set<FlowKey>)
    returns (kept: map<FlowKey, Flow>, complete: bool)
    requires c.Indexed() && forall i :: 0 <= i < c.count ==> !c.present[i]
    modifies c.present
    ensures complete ==> kept == table - StaleKeys(c.Flows(), dump, Cutoff(nowNs, idleSeconds), c.count)
    ensures kept.Keys <= table.Keys
    ensures forall k :: k in table && k !in kept ==> k in StaleKeys(c.Flows(), dump, Cutoff(nowNs, idleSeconds), c.count)
    ensures complete ==> HardwareCount(dump) == 0 && |dump| <= MAX_CONNTRACK_SNAPSHOT && !scanFails
  {
    hide Live, StaleKeys, Candidates.Indexed, Candidates.Flows;
    kept, complete := table, false;
    if scanFails { return; }
    var s := ScanDump(c, false, dump, None);
    if s.overflow || s.hardware > 0 { return; }
    kept, complete := Sweep(c, dump, Cutoff(nowNs, idleSeconds), table, refused);
  }

  lemma StaleKeysStart(flows: CandidateList, dump: seq<Conntrack>, cutoff: nat)
    ensures StaleKeys(flows, dump, cutoff, 0) == {}
  {
  }

  lemma StaleKeysStep(flows: CandidateList, dump: seq<Conntrack>, cutoff: nat, i: nat)
    requires i < |flows|
    ensures StaleKeys(flows, dump, cutoff, i + 1) ==
            StaleKeys(flows, dump, cutoff, i) + if Stale(flows, i, dump, cutoff) then {flows[i].key} else {}
    ensures StaleKeys(flows, dump, cutoff, i) <= StaleKeys(flows, dump, cutoff, |flows|)
    ensures Stale(flows, i, dump, cutoff) <==> !Live(flows, i, dump) && flows[i].lastSeenNs < cutoff
  {
    hide Live;
  }
}
