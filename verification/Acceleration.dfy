/**
 * Software flow offload: classifying the acceleration topology, reconciling the acceleration state, and revoking
 * accelerated flows after a restrictive policy change.
 */
module Acceleration {
  import opened Common
  import opened Decimal
  import Text

  datatype Mode = NoOffload | Available | Active | Degraded | BackendMissing | HardwareUnsupported | CustomUnsupported
                | Unverifiable

  datatype Capability = Capability(mode: Mode, offloadPresent: bool, trackingRequired: bool, hardwareDetected: bool)

  /** What the ruleset scan and the configuration say about offload. */
  datatype Topology = Topology(checked: bool, hardware: bool, configured: bool, canonical: bool, custom: bool, anyFlowtable: bool)

  /** offload_capability */
  function OffloadCapability(t: Topology, backendPresent: bool): (c: Capability)
    ensures c.mode == Active <==>
            t.checked && !t.hardware && !t.custom && t.configured && t.canonical && backendPresent
    ensures c.mode == Active ==> c.offloadPresent && c.trackingRequired && !c.hardwareDetected
    ensures c.trackingRequired ==> c.mode == Active
    ensures !c.offloadPresent ==> t.checked && !t.anyFlowtable && !t.configured && !t.hardware
  {
    if !t.checked then Capability(Unverifiable, true, false, t.hardware)
    else if t.hardware then Capability(HardwareUnsupported, true, false, true)
    else if t.custom || (!t.configured && t.anyFlowtable) then Capability(CustomUnsupported, true, false, false)
    else if !t.configured then Capability(if backendPresent then Available else NoOffload, false, false, false)
    else if !t.canonical then Capability(Unverifiable, true, false, false)
    else Capability(if backendPresent then Active else BackendMissing, true, backendPresent, false)
  }

  const DEFAULT_DEADLINE_MS := 2000
  const MAX_DEADLINE_MS := 10000

  /** Every admissible deadline survives being written down and parsed. */
  lemma DeadlineRoundTrip(ms: nat)
    requires 1 <= ms <= MAX_DEADLINE_MS
    ensures ParseDeadline(Dec(ms)) == ms
  {
    ValueOfDec(ms);
    NumeralHasNoLeadingZero(ms);
    var s := Dec(ms);
    assert Text.TrimLeft(s) == s && Text.TrimRight(s) == s;
  }

  lemma {:induction false} NumeralHasNoLeadingZero(n: nat)
    ensures n > 0 ==> Dec(n)[0] != '0'
  {
    if n >= 10 { NumeralHasNoLeadingZero(n / 10); }
  }

  predicate Canonical(text: string) {
    text != [] && AllDigits(text) && (text[0] != '0' || |text| == 1)
  }

  /** parse_deadline */
  function ParseDeadline(value: string): (ms: nat)
    ensures 1 <= ms <= MAX_DEADLINE_MS
  {
    var text := Text.Trim(value);
    if Canonical(text) && 1 <= Value(text) <= MAX_DEADLINE_MS then Value(text) else DEFAULT_DEADLINE_MS
  }

  // ----- The runtime backend -----

  datatype Report = Report(complete: bool, deadlineExceeded: bool, healthy: Option<bool>, hardwareFlows: Option<nat>)

  /** What a call of the helper returns: its exit code and its parsed output, either of which may be missing. */
  datatype BackendResult = BackendResult(code: Option<int>, report: Option<Report>)

  predicate BackendOk(r: BackendResult) {
    r.code == Some(0) && r.report.Some? && r.report.value.complete && !r.report.value.deadlineExceeded
  }

  datatype Scope = Access | Application

  datatype Transition = Transition(scope: Scope, identity: string, subject: Option<nat>, classId: Option<nat>,
                                   restrictive: bool, published: bool)

  /** A published restriction whose accelerated flows may still bypass policy. */
  datatype Restriction = Restriction(scope: Scope, subject: Option<nat>, classId: Option<nat>)

  predicate Effective(t: Transition) {
    t.restrictive && t.published
  }

  function RestrictionOf(t: Transition): Restriction {
    Restriction(t.scope, t.subject, t.classId)
  }

  ghost function RestrictionsOf(ts: seq<Transition>): set<Restriction> {
    set i | 0 <= i < |ts| && Effective(ts[i]) :: RestrictionOf(ts[i])
  }

  /** A targeted revocation of the subject's flows, of one class or of all, deals with the restriction. */
  predicate Covers(subject: nat, classId: Option<nat>, r: Restriction) {
    r.subject == Some(subject) && (classId.None? || r.classId == classId)
  }

  datatype Outcome = NotRequired | NotRevoked | NormalDatapath | Targeted | Fallback

  /** The acceleration state the daemon keeps; `stale` and `baselines` are an observer's record of the flow table. */
  class Manager {
    var mode: Mode
    var hardwareDetected: bool
    var hardwareFlows: nat
    var healthy: bool
    var deadlineMs: nat
    var baselineRequired: bool
    ghost var stale: set<Restriction>
    ghost var baselines: nat

    constructor ()
      ensures mode == NoOffload && baselineRequired && stale == {}
    {
      mode, hardwareDetected, hardwareFlows, healthy := NoOffload, false, 0, false;
      deadlineMs, baselineRequired := DEFAULT_DEADLINE_MS, true;
      stale, baselines := {}, 0;
    }

    /** A daemon restart forgets the state but not the flow table. */
    method Restart()
      modifies this
      ensures mode == NoOffload && baselineRequired && stale == old(stale) && baselines == old(baselines)
    {
      mode, hardwareDetected, hardwareFlows, healthy := NoOffload, false, 0, false;
      deadlineMs, baselineRequired := DEFAULT_DEADLINE_MS, true;
    }

    /** The observer notes restrictions that were just published over existing accelerated flows. */
    ghost method Publish(ts: seq<Transition>)
      modifies this`stale
      ensures stale == old(stale) + RestrictionsOf(ts)
    {
      stale := stale + RestrictionsOf(ts);
    }

    /** The executor asks for a baseline when application enforcement starts. */
    method RequireBaseline()
      modifies this`baselineRequired
      ensures baselineRequired
    {
      baselineRequired := true;
    }

    // ----- Helper calls -----

    /** `status` and `gc`: whatever the helper answers. */
    method Query() returns (r: BackendResult)
    {
      r := *;
    }

    /** A baseline that reports success has evicted every offloaded flow. */
    method Baseline() returns (r: BackendResult)
      modifies this`stale, this`baselines
      ensures BackendOk(r) ==> stale == {} && baselines == old(baselines) + 1
      ensures !BackendOk(r) ==> stale == old(stale) && baselines == old(baselines)
    {
      r := *;
      if BackendOk(r) {
        stale := {};
        baselines := baselines + 1;
      }
    }

    /** A targeted revocation that reports success has evicted the flows it covers. */
    method Revoke(subject: nat, classId: Option<nat>) returns (r: BackendResult)
      modifies this`stale
      ensures stale == if BackendOk(r) then set x | x in old(stale) && !Covers(subject, classId, x) else old(stale)
    {
      r := *;
      if BackendOk(r) { stale := set x | x in stale && !Covers(subject, classId, x); }
    }

    /** absorb */
    method Absorb(r: BackendResult)
      modifies this`healthy, this`hardwareFlows, this`hardwareDetected
      ensures hardwareFlows == if r.report.Some? && r.report.value.hardwareFlows.Some? then r.report.value.hardwareFlows.value
                               else old(hardwareFlows)
      ensures hardwareDetected <==> old(hardwareDetected) || hardwareFlows > 0
      ensures healthy <==> if r.report.Some? && r.report.value.healthy.Some? then r.report.value.healthy.value
                           else r.code == Some(0)
    {
      healthy := if r.report.Some? && r.report.value.healthy.Some? then r.report.value.healthy.value else r.code == Some(0);
      if r.report.Some? && r.report.value.hardwareFlows.Some? { hardwareFlows := r.report.value.hardwareFlows.value; }
      if hardwareFlows > 0 { hardwareDetected := true; }
    }

    // ----- Reconciliation -----

    /** The establishing of a clean baseline. */
    method Establish() returns (ok: bool)
      requires mode == Active
      modifies this
      ensures deadlineMs == old(deadlineMs)
      ensures ok ==> mode == Active && stale == {} && baselines == old(baselines) + 1 && !baselineRequired
      ensures !ok ==> mode == Degraded && stale == old(stale) && baselines == old(baselines)
                      && baselineRequired == old(baselineRequired) && !healthy
    {
      var r := Baseline();
      Absorb(r);
      ok := BackendOk(r);
      if !ok {
        mode, healthy := Degraded, false;
        return;
      }
      baselineRequired := false;
    }

    /**
     * reconcile. The state is ACTIVE afterwards only with a capable topology, a backend and healthy tracking, and
     * either it was ACTIVE before with no baseline due, or a baseline has just succeeded.
     */
    method Reconcile(capability: Capability, trackingHealthy: bool, configuredDeadline: string, backend: bool)
      modifies this
      ensures mode == Active ==> capability.mode == Active && backend && trackingHealthy && !baselineRequired
      ensures mode == Active && (old(mode) != Active || old(baselineRequired)) ==>
                stale == {} && baselines == old(baselines) + 1
      ensures stale == old(stale) || stale == {}
      ensures baselines == old(baselines) ==> stale == old(stale)
      ensures baselines >= old(baselines)
      ensures mode != Active ==> mode == Degraded || mode == BackendMissing || mode == capability.mode
      ensures deadlineMs == ParseDeadline(configuredDeadline)
      ensures capability.mode == Active && mode != Active ==> !healthy
      ensures mode == Active ==> !hardwareDetected
      ensures capability.mode != Active ==> mode == capability.mode && baselineRequired
    {
      var previousMode := mode;
      mode := capability.mode;
      hardwareDetected := capability.hardwareDetected;
      deadlineMs := ParseDeadline(configuredDeadline);
      if capability.mode != Active {
        healthy, baselineRequired := !capability.offloadPresent, true;
        return;
      }
      if !backend || !trackingHealthy {
        mode := if !backend then BackendMissing else Degraded;
        healthy, baselineRequired := false, true;
        return;
      }
      if previousMode != Active || baselineRequired {
        var ok := Establish();
        if !ok { return; }
      }
      var status := Query();
      Absorb(status);
      if !BackendOk(status) || hardwareDetected {
        mode, healthy := Degraded, false;
      }
    }

    /** reconcile_gc */
    method ReconcileGc(capability: Capability, trackingHealthy: bool, backend: bool)
      modifies this
      ensures stale == old(stale) && baselines == old(baselines) && deadlineMs == old(deadlineMs)
      ensures mode == old(mode) || (old(mode) == Active && mode == Degraded && baselineRequired)
      ensures mode == old(mode) ==> baselineRequired == old(baselineRequired)
      ensures mode != old(mode) ==> !healthy
    {
      if !backend || capability.mode != Active || mode != Active || !trackingHealthy { return; }
      var r := Query();
      Absorb(r);
      if !BackendOk(r) {
        mode, healthy, baselineRequired := Degraded, false, true;
      }
    }

    // ----- Revocation -----

    /** Revokes one published restriction: targeted first, then a baseline, unless a baseline was made already. */
    method RevokeOne(t: Transition, broad: Option<BackendResult>) returns (complete: bool, usedFallback: bool)
      requires Effective(t) && (broad.None? ==> mode == Active && t.subject.Some?)
      requires broad.Some? && BackendOk(broad.value) ==> stale == {}
      modifies this
      ensures complete ==> stale <= old(stale) - {RestrictionOf(t)} && mode == old(mode)
                           && baselineRequired == old(baselineRequired)
      ensures !complete ==> mode == Degraded && baselineRequired && stale == old(stale) && !healthy
      ensures broad.Some? ==> (complete <==> BackendOk(broad.value)) && usedFallback
      ensures deadlineMs == old(deadlineMs) && baselines >= old(baselines)
    {
      var result;
      usedFallback := broad.Some?;
      if broad.Some? {
        result := broad.value;
      } else {
        result := Revoke(t.subject.value, if t.scope == Application then t.classId else None);
      }
      Absorb(result);
      if !BackendOk(result) && !usedFallback {
        result := Baseline();
        usedFallback := true;
        Absorb(result);
      }
      complete := BackendOk(result);
      if !complete {
        mode, healthy, baselineRequired := Degraded, false, true;
      }
    }

    /** The first loop and the broad baseline of revoke_transitions. */
    method RevokeBroadly(ts: seq<Transition>, capability: Capability, backend: bool) returns (broad: Option<BackendResult>)
      modifies this
      ensures broad.Some? ==> (if BackendOk(broad.value) then stale == {} && mode == old(mode)
                               else stale == old(stale) && mode == Degraded && baselineRequired && !healthy)
      ensures broad.None? ==> stale == old(stale) && mode == old(mode)
      ensures broad.Some? ==> old(mode) == Active
      ensures broad.None? && backend && capability.offloadPresent && capability.mode == Active && mode == Active ==>
                forall i :: 0 <= i < |ts| && Effective(ts[i]) ==> ts[i].subject.Some?
      ensures broad.None? || BackendOk(broad.value) ==> baselineRequired == old(baselineRequired)
      ensures deadlineMs == old(deadlineMs) && baselines >= old(baselines)
    {
      broad := None;
      var required := exists i :: 0 <= i < |ts| && Effective(ts[i]) && ts[i].subject.None?;
      if backend && required && capability.offloadPresent && capability.mode == Active && mode == Active {
        var r := Baseline();
        Absorb(r);
        if !BackendOk(r) { mode, healthy, baselineRequired := Degraded, false, true; }
        broad := Some(r);
      }
    }

    /**
     * revoke_transitions. If the state is ACTIVE afterwards no published restriction is left unrevoked, and every
     * published restriction reported as not revoked leaves the state not ACTIVE.
     */
    method RevokeTransitions(ts: seq<Transition>, capability: Capability, backend: bool) returns (outcomes: seq<Outcome>)
      requires mode == Active ==> backend && capability.mode == Active && capability.offloadPresent
      requires mode == Active ==> stale <= RestrictionsOf(ts)
      modifies this
      ensures mode == Active ==> stale == {} && old(mode) == Active && baselineRequired == old(baselineRequired)
      ensures mode == old(mode) || (old(mode) == Active && mode == Degraded && baselineRequired && !healthy)
      ensures stale <= old(stale) && deadlineMs == old(deadlineMs) && baselines >= old(baselines)
      ensures |outcomes| == |ts|
      ensures forall i :: 0 <= i < |ts| ==> (outcomes[i] == NotRequired <==> !ts[i].restrictive)
      ensures forall i :: 0 <= i < |ts| && ts[i].restrictive && !ts[i].published ==> outcomes[i] == NotRevoked
      ensures forall i :: 0 <= i < |ts| && Effective(ts[i]) && !capability.offloadPresent ==> outcomes[i] == NormalDatapath
      ensures forall i :: 0 <= i < |ts| && Effective(ts[i]) && outcomes[i] == NotRevoked ==> mode != Active
    {
      outcomes := [];
      var broad := RevokeBroadly(ts, capability, backend);
      RestrictionsFrom(ts, 0);
      for i := 0 to |ts|
        invariant |outcomes| == i && stale <= old(stale) && deadlineMs == old(deadlineMs) && baselines >= old(baselines)
        invariant mode == Active ==> old(mode) == Active && backend && capability.mode == Active && capability.offloadPresent
        invariant mode == Active ==> stale <= RestrictionsOf(ts[i..]) && baselineRequired == old(baselineRequired)
        invariant mode == old(mode) || (old(mode) == Active && mode == Degraded && baselineRequired && !healthy)
        invariant broad.Some? ==> mode == Active || mode == Degraded
        invariant broad.Some? ==> if BackendOk(broad.value) then stale == {} && mode == Active else mode != Active
        invariant broad.None? && mode == Active ==> forall k :: 0 <= k < |ts| && Effective(ts[k]) ==> ts[k].subject.Some?
        invariant forall k :: 0 <= k < i ==> (outcomes[k] == NotRequired <==> !ts[k].restrictive)
        invariant forall k :: 0 <= k < i && ts[k].restrictive && !ts[k].published ==> outcomes[k] == NotRevoked
        invariant forall k :: 0 <= k < i && Effective(ts[k]) && !capability.offloadPresent ==> outcomes[k] == NormalDatapath
        invariant forall k :: 0 <= k < i && Effective(ts[k]) && outcomes[k] == NotRevoked ==> mode != Active
      {
        RestrictionsFrom(ts, i);
        var outcome := RevokeNext(ts[i], capability, backend, broad);
        outcomes := outcomes + [outcome];
      }
    }

    /** The body of the main loop of revoke_transitions. */
    method RevokeNext(t: Transition, capability: Capability, backend: bool, broad: Option<BackendResult>)
      returns (outcome: Outcome)
      requires mode == Active ==> backend && capability.mode == Active && capability.offloadPresent
      requires broad.Some? ==> if BackendOk(broad.value) then stale == {} && mode == Active else mode != Active
      requires broad.None? && mode == Active && Effective(t) ==> t.subject.Some?
      requires broad.Some? ==> mode == Active || mode == Degraded
      modifies this
      ensures stale <= old(stale) && deadlineMs == old(deadlineMs) && baselines >= old(baselines)
      ensures mode == Active ==> old(mode) == Active && baselineRequired == old(baselineRequired)
      ensures mode == Active && Effective(t) ==> RestrictionOf(t) !in stale
      ensures old(baselineRequired) ==> baselineRequired
      ensures mode == Degraded && (old(mode) == Active || !old(healthy)) ==> !healthy
      ensures outcome == Targeted ==> broad.None?
      ensures broad.Some? && BackendOk(broad.value) && backend && capability.mode == Active ==> mode == Active
      ensures mode == old(mode) || (old(mode) == Active && mode == Degraded && baselineRequired)
      ensures outcome == NotRequired <==> !t.restrictive
      ensures t.restrictive && !t.published ==> outcome == NotRevoked
      ensures Effective(t) && !capability.offloadPresent ==> outcome == NormalDatapath
      ensures Effective(t) && outcome == NotRevoked ==> mode != Active
    {
      if !t.restrictive { return NotRequired; }
      if !t.published { return NotRevoked; }
      if !capability.offloadPresent { return NormalDatapath; }
      if !backend || capability.mode != Active || (mode != Active && broad.None?) { return NotRevoked; }
      var complete, usedFallback := RevokeOne(t, broad);
      return if !complete then NotRevoked else if usedFallback then Fallback else Targeted;
    }
  }

  lemma RestrictionsFrom(ts: seq<Transition>, i: nat)
    requires i <= |ts|
    ensures i < |ts| ==>
              RestrictionsOf(ts[i..]) == RestrictionsOf(ts[i + 1..]) + if Effective(ts[i]) then {RestrictionOf(ts[i])} else {}
    ensures ts[0..] == ts && (i == |ts| ==> RestrictionsOf(ts[i..]) == {})
  {
  }
}
