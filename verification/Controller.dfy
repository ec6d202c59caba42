/**
 * One reconciliation attempt from plan to commit, and whole runs of attempts, daemon restarts, lost maps and outside
 * interference.
 */
module Controller {
  import opened Common
  import Backend
  import Kernel
  import ApplicationPlane
  import A = Acceleration
  import Z = Authorization

  /** The access signature: what the access plane publishes. */
  datatype AccessSignature = AccessSignature(enabled: bool, whitelist: bool, drop: bool, exceptions: set<string>,
                                             sources: seq<string>, destinations: seq<string>)

  /** What one attempt starts from: the compiled desired state and the observed topology. */
  datatype Input = Input(repair: bool, accessReady: bool, access: AccessSignature, application: ApplicationPlane.Desired,
                         snapshot: Z.Snapshot, topology: A.Topology, backend: bool, deadline: string)

  function CapabilityOf(i: Input): A.Capability {
    A.OffloadCapability(i.topology, i.backend)
  }

  /** The parts of the desired state fit together as the builder makes them. */
  predicate Proper(i: Input) {
    && ApplicationPlane.Consistent(i.application)
    && i.application.offloadPresent == CapabilityOf(i).offloadPresent
    && i.application.offloadActive == (CapabilityOf(i).mode == A.Active)
    && i.application.trackingRequired == CapabilityOf(i).trackingRequired
  }

  /** The evidence of an attempt. */
  datatype Evidence = Evidence(accessOk: bool, applicationSucceeded: bool, applicationOk: bool, accelerationOk: bool,
                               outcomes: seq<A.Outcome>, ok: bool)

  /** application_published: what the application action is recorded as. */
  predicate ApplicationPublished(d: ApplicationPlane.Desired, r: ApplicationPlane.Result) {
    !d.requested || (r.ok && r.enabled)
  }

  /** What is recorded as a success is one exactly for actions that were asked to enforce. */
  lemma SuccessIsTruthful(d: ApplicationPlane.Desired)
    ensures (forall r :: ApplicationPublished(d, r) ==> r.ok && r.enabled) <==> d.requested
  {
    var failed := ApplicationPlane.Result(false, false, false, false, false, 0, 0);
    assert ApplicationPublished(d, failed) <==> !d.requested;
  }

  class Daemon {
    const k: Kernel.System
    const app: ApplicationPlane.Application
    const accel: A.Manager
    var accessGeneration: nat
    var accessSignature: Option<AccessSignature>
    var authorization: Option<Z.Snapshot>
    var synchronized: bool
    ghost var records: seq<Z.Record>

    ghost predicate Valid()
      reads this, k, k.maps, app, accel
    {
      && k.Valid() && app.Agrees(k)
      && (accel.mode == A.Active ==> accel.stale == {})
      && (authorization.None? <==> records == [])
      && (authorization.Some? ==> authorization.value == Z.Committed(records))
    }

    constructor ()
      ensures Valid() && k.log == k.numbered == [] && fresh(k) && fresh(k.maps) && fresh(k.tc) && fresh(app) && fresh(accel)
    {
      k := new Kernel.System();
      app := new ApplicationPlane.Application();
      accel := new A.Manager();
      accessGeneration, accessSignature, authorization, synchronized, records := 0, None, None, false, [];
    }

    // ----- Planning -----

    /** The transitions of an attempt; the very first attempt plans none. */
    method Transitions(current: Z.Snapshot) returns (ts: seq<A.Transition>, ghost keys: seq<Z.Key>)
      requires Valid()
      ensures authorization.None? ==> ts == []
      ensures authorization.Some? ==> Z.PlansExactly(ts, keys, Z.Committed(records), current)
    {
      if authorization.None? { return [], []; }
      ts, keys := Z.PlanTransitions(authorization.value, current);
    }

    // ----- Execution -----

    /** The access action: published when changed or repairing. */
    method ExecuteAccess(i: Input) returns (ok: bool)
      ensures ok ==> i.accessReady
      ensures i.accessReady && !i.repair && accessSignature == Some(i.access) ==> ok
    {
      if !i.accessReady { return false; }
      if i.repair || accessSignature != Some(i.access) { ok := *; } else { ok := true; }
    }

    /** A health check that fails takes the application plane down. */
    method CheckHealth(d: ApplicationPlane.Desired, r0: ApplicationPlane.Result)
      returns (r: ApplicationPlane.Result, healthy: bool)
      requires k.Valid() && app.Agrees(k) && app.AppliedOk(k, d, r0)
      modifies app, k`scope, k.maps`config, k.tc`attached
      ensures k.Valid() && app.Agrees(k)
      ensures app.policyGeneration == old(app.policyGeneration) && app.classifierGeneration == old(app.classifierGeneration)
      ensures r.ok && r.tracking ==> healthy && ApplicationPlane.Realizes(k, d, r.generation, r.classifierGeneration)
      ensures r.ok ==> r == r0
      ensures k.obliging && k.tool && r0.ok && r0.tracking && old(ApplicationPlane.InPlace(k, d) && k.maps.config.enabled) ==>
                r.ok && healthy
      ensures !r0.tracking ==> r == r0 && k.scope == old(k.scope) && k.maps.config == old(k.maps.config)
      ensures r.enabled ==> r.tracking && healthy
      ensures r.generation == app.policyGeneration && r.classifierGeneration == app.classifierGeneration
    {
      hide Kernel.HistoryOk, Kernel.Monotone;
      r := r0;
      healthy := false;
      if r.tracking {
        ghost var inspected, unreadable;
        if k.tool {
          healthy, inspected, unreadable := k.Health(r.generation, r.classifierGeneration, app.attached);
        }
        if !healthy {
          var _ := app.Neutralize(k);
          r := ApplicationPlane.Result(false, false, false, false, false, r.generation, r.classifierGeneration);
        }
      }
    }

    /** What plan chooses for an attempt. */
    function PlanFor(i: Input): ApplicationPlane.Plan
      reads k, k.maps, app
    {
      app.MakePlan(k.Floors(), i.application, i.repair)
    }

    /** At most the planned publication was made, and success leaves exactly the planned generations. */
    ghost predicate GenerationsOk(plan: ApplicationPlane.Plan, i: Input, succeeded: bool, before: seq<Kernel.Publication>)
      reads k, app
    {
      && (k.numbered == before || k.numbered == before + [ApplicationPlane.Planned(plan, i.application)])
      && (succeeded ==> app.policyGeneration == plan.policyGen && app.classifierGeneration == plan.classifierGen)
    }

    /** The generation floors are read, the attempt planned, and the daemon's generations raised to the plan. */
    method Prepare(i: Input) returns (plan: ApplicationPlane.Plan)
      requires k.Valid() && app.Agrees(k)
      modifies app`policyGeneration, app`classifierGeneration
      ensures app.Agrees(k) && app.PlanOk(plan, i.application, k) && plan == old(PlanFor(i))
      ensures app.policyGeneration >= old(app.policyGeneration) && app.classifierGeneration >= old(app.classifierGeneration)
    {
      hide Kernel.HistoryOk, Kernel.Monotone, Kernel.Follows, Kernel.System.Describes, Kernel.System.Live;
      var floors := k.Generations();
      plan := app.MakePlan(floors, i.application, i.repair);
      app.RaiseFloors(plan, floors, i.application, k);
    }

    /** The application action: floors, reconciliation, health. */
    method ExecuteApplication(i: Input) returns (r: ApplicationPlane.Result, healthy: bool)
      requires k.Valid() && app.Agrees(k) && Proper(i)
      modifies app, k`scope, k`program, k`log, k`numbered, k.maps, k.tc`attached
      ensures k.Valid() && app.Agrees(k)
      ensures app.policyGeneration >= old(app.policyGeneration) && app.classifierGeneration >= old(app.classifierGeneration)
      ensures r.ok && r.tracking ==> ApplicationPlane.Realizes(k, i.application, r.generation, r.classifierGeneration)
      ensures r.ok && i.application.requested ==> r.enabled
      ensures !i.application.requested && !i.application.trackingRequired && r.ok ==> ApplicationPlane.Neutral(k)
      ensures r.enabled ==> r.tracking && healthy
      ensures r.generation == app.policyGeneration && r.classifierGeneration == app.classifierGeneration
      ensures GenerationsOk(old(PlanFor(i)), i, r.ok && r.tracking, old(k.numbered))
      ensures GenerationsOk(old(PlanFor(i)), i, i.application.requested && r.ok && r.enabled, old(k.numbered))
      ensures old(app.Unobstructed(k, i.application, PlanFor(i))) ==> r.ok
    {
      hide ApplicationPlane.InPlace, ApplicationPlane.Application.Unobstructed;
      hide Kernel.System.Valid, PlanFor, ApplicationPlane.Planned, ApplicationPlane.Realizes, ApplicationPlane.Neutral;
      hide ApplicationPlane.Application.Agrees, ApplicationPlane.Application.PlanOk, ApplicationPlane.Application.AppliedOk;
      app.ObligesToEnforce(k, i.application, PlanFor(i));
      var plan := Prepare(i);
      r := app.Apply(k, i.application, plan);
      r, healthy := CheckHealth(i.application, r);
    }

    /** The transitions with their publication evidence. */
    function WithEvidence(ts: seq<A.Transition>, accessOk: bool, applicationOk: bool): (r: seq<A.Transition>)
      ensures |r| == |ts|
    {
      seq(|ts|, j requires 0 <= j < |ts| => ts[j].(published := if ts[j].scope == A.Access then accessOk else applicationOk))
    }

    /** The acceleration part of execute. */
    method ExecuteAcceleration(i: Input, ts: seq<A.Transition>, startsEnforcing: bool, tracking: bool)
      returns (outcomes: seq<A.Outcome>)
      requires accel.mode == A.Active ==> accel.stale == {}
      modifies accel
      ensures accel.mode == A.Active ==> accel.stale == {} && CapabilityOf(i).mode == A.Active && tracking
      ensures accel.mode == A.Active && (old(accel.mode) != A.Active || old(accel.baselineRequired)) ==>
                accel.baselines > old(accel.baselines)
      ensures |outcomes| == |ts|
      ensures forall j :: 0 <= j < |ts| && A.Effective(ts[j]) && outcomes[j] == A.NotRevoked ==> accel.mode != A.Active
      ensures forall j :: 0 <= j < |ts| && ts[j].restrictive && !ts[j].published ==> outcomes[j] == A.NotRevoked
    {
      var capability := CapabilityOf(i);
      var broad := exists j :: 0 <= j < |ts| && ts[j].restrictive && ts[j].subject.None?;
      if capability.mode == A.Active && startsEnforcing && !broad { accel.RequireBaseline(); }
      if capability.offloadPresent { accel.Publish(ts); }
      accel.Reconcile(capability, tracking, i.deadline, true);
      if capability.mode == A.Active { accel.ReconcileGc(capability, tracking, true); }
      outcomes := accel.RevokeTransitions(ts, capability, true);
    }

    // ----- One attempt -----

    /**
     * reconcile_once: plan, execute, commit. Generations do not go back, a success that was asked to enforce is the
     * truth about the datapath, no published restriction is left unrevoked while ACTIVE, and the authorization
     * snapshot advances by exactly the planes that succeeded.
     */
    method Attempt(i: Input) returns (e: Evidence, ts: seq<A.Transition>, ghost keys: seq<Z.Key>)
      requires Valid() && Proper(i)
      modifies this, app, accel, k`scope, k`program, k`log, k`numbered, k.maps, k.tc`attached
      ensures Valid()
      ensures app.policyGeneration >= old(app.policyGeneration) && app.classifierGeneration >= old(app.classifierGeneration)
      ensures e.applicationSucceeded && i.application.requested ==>
                ApplicationPlane.Realizes(k, i.application, app.policyGeneration, app.classifierGeneration)
      ensures GenerationsOk(old(PlanFor(i)), i, i.application.requested && e.applicationSucceeded, old(k.numbered))
      ensures !i.application.requested ==> e.applicationSucceeded
      ensures old(app.Unobstructed(k, i.application, PlanFor(i))) ==> e.applicationSucceeded
      ensures !i.application.requested && !i.application.trackingRequired && e.applicationOk ==> ApplicationPlane.Neutral(k)
      ensures accel.mode == A.Active && old(accel.mode) != A.Active ==> accel.baselines > old(accel.baselines)
      ensures records == old(records) + [Z.Record(i.snapshot, e.accessOk, e.applicationOk)]
      ensures e.applicationOk ==> e.applicationSucceeded
      ensures old(authorization).None? ==> ts == []
      ensures old(authorization).Some? ==> Planned(ts, keys, old(records), i.snapshot, e)
      ensures e.accessOk ==> accessSignature == Some(i.access)
      ensures !e.accessOk ==> accessSignature == old(accessSignature) && accessGeneration == old(accessGeneration)
      ensures accessGeneration == old(accessGeneration) + (if e.accessOk && old(accessSignature) != Some(i.access) then 1 else 0)
      ensures |e.outcomes| == |ts|
      ensures e.ok ==> e.accessOk && e.applicationSucceeded && e.accelerationOk
                       && forall j :: 0 <= j < |ts| ==> ts[j].restrictive ==> ts[j].published && e.outcomes[j] != A.NotRevoked
    {
      hide Kernel.HistoryOk, Kernel.Monotone, Z.Committed, Z.PlansExactly, ApplicationPlane.Realizes, Kernel.System.Valid, CapabilityOf;
      hide PlanFor, GenerationsOk, ApplicationPlane.Neutral, ApplicationPlane.Application.Agrees;
      hide ApplicationPlane.Application.Unobstructed;
      var planned: seq<A.Transition>;
      planned, keys := Transitions(i.snapshot);
      var accessOk := ExecuteAccess(i);
      var enforcedBefore := app.appliedEnforcement;
      var r, healthy := ExecuteApplication(i);
      var succeeded := ApplicationPublished(i.application, r);
      ts := WithEvidence(planned, accessOk, succeeded);
      var flowsHealthy: bool := *;
      var outcomes := ExecuteAcceleration(i, ts, !enforcedBefore && r.enabled, r.tracking && healthy && flowsHealthy);
      var accelerationOk := !CapabilityOf(i).offloadPresent || accel.mode == A.Active;
      var converged := AllConverged(ts, outcomes);
      var applicationOk := succeeded && r.ok;
      e := Evidence(accessOk, succeeded, applicationOk, accelerationOk, outcomes,
                    accessOk && succeeded && accelerationOk && converged);
      Commit(i, accessOk, applicationOk, accelerationOk);
    }

    /** The transition actions: a restriction that was not published or not revoked fails the attempt. */
    method AllConverged(ts: seq<A.Transition>, outcomes: seq<A.Outcome>) returns (ok: bool)
      requires |outcomes| == |ts|
      ensures ok <==> forall j :: 0 <= j < |ts| ==> ts[j].published && outcomes[j] != A.NotRevoked
    {
      for j := 0 to |ts|
        invariant forall n :: 0 <= n < j ==> ts[n].published && outcomes[n] != A.NotRevoked
      {
        if !ts[j].published || outcomes[j] == A.NotRevoked { return false; }
      }
      return true;
    }

    /** The executed transitions are those of exactly the changed keys, with the evidence of their planes. */
    ghost predicate Planned(ts: seq<A.Transition>, keys: seq<Z.Key>, before: seq<Z.Record>, current: Z.Snapshot, e: Evidence) {
      exists planned :: Z.PlansExactly(planned, keys, Z.Committed(before), current)
                     && ts == WithEvidence(planned, e.accessOk, e.applicationSucceeded)
    }

    /** apply of the commit module. */
    method Commit(i: Input, accessOk: bool, applicationOk: bool, sfoReady: bool)
      requires (authorization.None? <==> records == [])
      requires authorization.Some? ==> authorization.value == Z.Committed(records)
      modifies this
      ensures records == old(records) + [Z.Record(i.snapshot, accessOk, applicationOk)]
      ensures authorization == Some(Z.Committed(records))
      ensures accessOk ==> accessSignature == Some(i.access)
      ensures !accessOk ==> accessSignature == old(accessSignature)
      ensures accessGeneration == old(accessGeneration) + (if accessOk && old(accessSignature) != Some(i.access) then 1 else 0)
      ensures synchronized <==> accessOk && i.accessReady && sfoReady
    {
      hide Z.Committed, Z.Advanced;
      Z.NothingCommitted();
      if accessOk {
        if accessSignature != Some(i.access) { accessGeneration := accessGeneration + 1; }
        accessSignature := Some(i.access);
      }
      var next := Z.Advance(authorization, i.snapshot, accessOk, applicationOk);
      ghost var record := Z.Record(i.snapshot, accessOk, applicationOk);
      Z.CommittedStep(records, record);
      records := records + [record];
      authorization := Some(next);
      synchronized := accessOk && i.accessReady && sfoReady;
    }

    // ----- Restarts and runs -----

    /** The state of a daemon that has just started. */
    method StartOver()
      requires Valid()
      modifies this, app, accel, k`numbered
      ensures Valid() && accel.mode != A.Active && accel.stale == old(accel.stale)
      ensures k.numbered == if k.log == [] then [] else old(k.numbered)
      ensures app.applied.None? && app.classifier.None? && app.policyGeneration == app.classifierGeneration == 0
      ensures app.attached == []
    {
      hide Kernel.System.Valid;
      if k.log == [] { k.Forget(); }
      app.Restart();
      accel.Restart();
      accessGeneration, accessSignature, authorization, synchronized, records := 0, None, None, false, [];
    }

    /**
     * The daemon starts anew over whatever the kernel holds, and first neutralizes the application plane. The numbering
     * of generations begins again exactly when the maps hold no publication.
     */
    method Restart() returns (neutral: bool)
      requires Valid()
      modifies this, app, accel, k`scope, k`numbered, k.maps`config
      ensures Valid() && k.log == old(k.log) && accel.mode != A.Active && accel.stale == old(accel.stale)
      ensures neutral && k.tool ==> !k.maps.config.enabled
      ensures k.numbered == if old(k.log) == [] then [] else old(k.numbered)
      ensures app.applied.None? && app.classifier.None? && app.policyGeneration == app.classifierGeneration == 0
      ensures app.attached == []
    {
      hide Kernel.System.Valid, ApplicationPlane.Application.Agrees;
      StartOver();
      var disabled := k.Disable();
      var scoped := k.ApplyScope(false, [], []);
      neutral := (disabled.None? || disabled.value) && scoped;
    }

    /**
     * The pins disappear under a running daemon. The numbering goes on unless the daemon had not yet caught up with
     * the generations the maps held, as only a daemon that restarted since can be behind them.
     */
    method LosePins()
      requires Valid()
      modifies k`program, k`log, k`numbered, k.maps
      ensures Valid() && k.log == []
      ensures k.numbered == if old(app.Remembers(k)) then old(k.numbered) else []
    {
      hide Kernel.HistoryOk, Kernel.Monotone;
      ghost var remembered := app.Remembers(k);
      k.LosePins();
      if !remembered { k.Forget(); }
    }

    /** The machine reboots under it: the pins and all attachments are gone. */
    method Reboot()
      requires Valid()
      modifies k`program, k`log, k`numbered, k.maps, k.tc`attached
      ensures Valid() && k.log == [] && k.tc.attached == map[]
      ensures k.numbered == if old(app.Remembers(k)) then old(k.numbered) else []
    {
      hide Kernel.HistoryOk, Kernel.Monotone;
      ghost var remembered := app.Remembers(k);
      k.Reboot();
      if !remembered { k.Forget(); }
    }

    method Disturb()
      requires Valid()
      modifies k`tool, k`obliging, k`scope, k.tc
      ensures Valid()
    {
      k.Disturb();
    }

    /**
     * Any number of events in any order from a fresh start. Throughout, publications never reuse a generation for
     * another policy or classifier and never go back, not even over maps that were replaced, as long as the maps or
     * the daemon hold the last generations; every success asked to enforce was the truth when it was recorded; and
     * ACTIVE means that no published restriction is outstanding.
     */
    method Run(steps: nat)
      requires Valid()
      modifies this, app, accel, k, k.maps, k.tc
      ensures Valid() && Kernel.Monotone(k.log) && Kernel.Monotone(k.numbered) && (accel.mode == A.Active ==> accel.stale == {})
    {
      for n := 0 to steps
        invariant Valid()
      {
        var choice: int := *;
        match choice
        case 0 => var _ := Restart();
        case 1 => LosePins();
        case 2 => Disturb();
        case 3 => Reboot();
        case _ =>
          var i: Input := *;
          if Proper(i) {
            ghost var before := k.numbered;
            var e, ts, keys := Attempt(i);
            assert k.numbered == before || k.numbered == before + [Kernel.Last(k.numbered)];
            assert e.applicationSucceeded && i.application.requested ==>
                ApplicationPlane.Realizes(k, i.application, app.policyGeneration, app.classifierGeneration);
          }
      }
    }

    /** Nothing was published to the maps, and the daemon has applied nothing. */
    ghost predicate Blank()
      reads this, k, k.maps, app
    {
      && k.log == k.numbered == [] && app.applied.None? && app.classifier.None?
      && app.policyGeneration == app.classifierGeneration == 0 && app.attached == []
    }

    /** The kernel refuses nothing, and the desired state is complete and names interfaces that exist. */
    ghost predicate Enforceable(i: Input)
      reads k, k.tc
    {
      var d := i.application;
      && k.obliging && k.tool && Proper(i) && d.requested && d.compiled && (d.offloadPresent ==> d.offloadActive)
      && !d.projectionErrors && !d.policyErrors && d.sources != [] && d.destinations != []
      && Backend.Distinct(Kernel.Entries(d.policy, d.classifier)) && forall s :: s in d.sources ==> s in k.tc.interfaces
    }

    /** From nothing, with nothing attached, an enforceable attempt succeeds, and publishes under generation 1. */
    method FirstAttempt(i: Input)
      requires Valid() && Blank() && Enforceable(i) && k.tc.attached == map[]
      modifies this, app, accel, k`scope, k`program, k`log, k`numbered, k.maps, k.tc`attached
      ensures Valid() && ApplicationPlane.Realizes(k, i.application, 1, 1)
      ensures k.numbered == [Kernel.Publication(1, i.application.policy, 1, i.application.classifier)]
    {
      hide Kernel.HistoryOk, Kernel.Monotone, Z.PlansExactly, Z.Committed;
      ghost var plan := PlanFor(i);
      assert plan.policyGen == 1 && plan.classifierGen == 1 && plan.changed;
      NothingInTheWay(i, plan);
      var e, ts, keys := Attempt(i);
      EnforcingIsPublished();
    }

    lemma NothingInTheWay(i: Input, plan: ApplicationPlane.Plan)
      requires Enforceable(i) && k.tc.attached == map[] && app.attached == [] && plan.changed
      ensures app.Unobstructed(k, i.application, plan)
    {
      hide Backend.Distinct;
    }

    lemma EnforcingIsPublished()
      requires Valid() && k.maps.config.enabled
      ensures k.log != [] && k.numbered != []
    {
      hide Kernel.HistoryOk, Kernel.Monotone;
    }
  }

  /**
   * A reboot and a restart are a run in which the numbering begins again: two policies, however different, are both
   * published and enforced under generation 1.
   */
  method RestartOverLostPins(daemon: Daemon, i: Input, j: Input) returns (ghost before: seq<Kernel.Publication>)
    requires daemon.Valid() && daemon.Blank() && daemon.k.tc.attached == map[]
    requires daemon.Enforceable(i) && daemon.Enforceable(j)
    modifies daemon, daemon.app, daemon.accel, daemon.k, daemon.k.maps, daemon.k.tc`attached
    ensures before == [Kernel.Publication(1, i.application.policy, 1, i.application.classifier)]
    ensures daemon.k.numbered == [Kernel.Publication(1, j.application.policy, 1, j.application.classifier)]
    ensures ApplicationPlane.Realizes(daemon.k, j.application, 1, 1)
  {
    hide Daemon.Valid, ApplicationPlane.Realizes;
    daemon.FirstAttempt(i);
    before := daemon.k.numbered;
    daemon.Reboot();
    var neutral := daemon.Restart();
    daemon.FirstAttempt(j);
  }
}
