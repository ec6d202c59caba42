/**
 * The application plane of the controller: planning generations, reconciling the datapath with the desired state, and
 * falling back to the previous snapshot or to nothing when a step fails.
 */
module ApplicationPlane {
  import opened Common
  import opened Hints
  import opened Kernel
  import Attachments
  import Backend

  /** The desired application state and the flags the reconciliation looks at. */
  datatype Desired = Desired(
    requested: bool, compiled: bool, policy: PolicySignature, classifier: ClassifierSignature,
    sources: seq<string>, destinations: seq<string>, trackingRequired: bool, offloadPresent: bool, offloadActive: bool,
    projectionErrors: bool, policyErrors: bool)

  /** The policy signature spells out the enforcement flag. */
  predicate Consistent(d: Desired) {
    d.policy.enforcement == d.requested
  }

  datatype Plan = Plan(repair: bool, changed: bool, classifierChanged: bool, policyGen: nat, classifierGen: nat)

  datatype Result = Result(ok: bool, available: bool, enabled: bool, tracking: bool, retained: bool, generation: nat,
                           classifierGeneration: nat)

  /** The publication a plan leads to. */
  function Planned(plan: Plan, d: Desired): Publication {
    Publication(plan.policyGen, d.policy, plan.classifierGen, d.classifier)
  }

  /** The datapath enforces exactly the desired state at exactly the desired interfaces. */
  ghost predicate Realizes(k: System, d: Desired, policyGen: nat, classifierGen: nat)
    reads k, k.maps, k.tc
  {
    && k.program.Some? && k.maps.config.enabled
    && k.Live(Publication(policyGen, d.policy, classifierGen, d.classifier))
    && k.tc.ExactlyAt(k.program.value, Attachments.Names(d.sources))
    && k.scope == ScopeOf(d.requested, d.sources, d.destinations)
  }

  /** Nothing is enforced and no traffic is sent through the application filter. */
  predicate Neutral(k: System)
    reads k, k.maps
  {
    (k.tool ==> !k.maps.config.enabled) && k.scope == ScopeOf(false, [], [])
  }

  predicate Due(plan: Plan) {
    plan.repair || plan.changed || plan.classifierChanged
  }

  /** What the health check will look for at the interfaces is there. */
  ghost predicate InPlace(k: System, d: Desired)
    reads k, k.tc
  {
    k.program.Some? && k.tc.Verified(k.program.value, d.sources, {})
  }

  lemma OwnedIsInPlace(k: System, d: Desired)
    requires k.program.Some? && forall i :: i in d.sources ==> k.Owns(i)
    requires k.tc.NothingBeyond(k.program.value, Attachments.Names(d.sources))
    ensures InPlace(k, d)
  {
  }

  lemma SourcesKnown(k: System, d: Desired)
    ensures forall i :: i in d.sources && k.Owns(i) ==> i in k.tc.interfaces
  {
  }

  class Application {
    var policyGeneration: nat
    var classifierGeneration: nat
    var applied: Option<PolicySignature>
    var classifier: Option<ClassifierSignature>
    var appliedSources: seq<string>
    var appliedDestinations: seq<string>
    var appliedEnforcement: bool
    var attached: seq<string>

    constructor ()
      ensures applied.None? && classifier.None? && policyGeneration == classifierGeneration == 0
      ensures attached == [] && !appliedEnforcement
    {
      policyGeneration, classifierGeneration, applied, classifier := 0, 0, None, None;
      appliedSources, appliedDestinations, appliedEnforcement, attached := [], [], false, [];
    }

    /** A restarted daemon knows nothing of what it applied. */
    method Restart()
      modifies this
      ensures applied.None? && classifier.None? && policyGeneration == classifierGeneration == 0
      ensures attached == [] && !appliedEnforcement
    {
      policyGeneration, classifierGeneration, applied, classifier := 0, 0, None, None;
      appliedSources, appliedDestinations, appliedEnforcement, attached := [], [], false, [];
    }

    /** The daemon's own generations reach those of the last publication. */
    ghost predicate Remembers(k: System)
      reads this`policyGeneration, this`classifierGeneration, k`numbered
    {
      k.numbered != [] ==>
        policyGeneration >= Last(k.numbered).policyGen && classifierGeneration >= Last(k.numbered).classifierGen
    }

    /** The last generations are not lost: the maps hold them, or the daemon does. */
    ghost predicate Covered(k: System)
      reads this`policyGeneration, this`classifierGeneration, k`numbered, k`log
    {
      k.log != [] || Remembers(k)
    }

    /** A recorded signature is that of the last publication: with the system's own invariant, of the active tables. */
    ghost predicate Agrees(k: System)
      reads this, k`numbered, k`log
    {
      && (applied.None? <==> classifier.None?)
      && (applied.Some? ==>
            && k.numbered != []
            && Last(k.numbered) == Publication(policyGeneration, applied.value, classifierGeneration, classifier.value))
      && Covered(k)
    }

    // ----- Planning -----

    /** The generation part of plan. */
    function MakePlan(floors: Option<(nat, nat)>, d: Desired, repair: bool): Plan
      reads this
    {
      var policyBase := if floors.Some? then Max(floors.value.0, policyGeneration) else policyGeneration;
      var classifierBase := if floors.Some? then Max(floors.value.1, classifierGeneration) else classifierGeneration;
      var changed := applied != Some(d.policy);
      var classifierChanged := classifier != Some(d.classifier);
      Plan(repair, changed, classifierChanged, if changed then policyBase + 1 else policyBase,
           if classifierChanged then classifierBase + 1 else classifierBase)
    }

    /** What a plan promises once the floors are raised to it. */
    ghost predicate PlanOk(plan: Plan, d: Desired, k: System)
      reads this, k
    {
      && (plan.changed <==> applied != Some(d.policy)) && (plan.classifierChanged <==> classifier != Some(d.classifier))
      && (k.tool ==> Remembers(k) && Numbered(Planned(plan, d)))
      && (k.tool && k.numbered != [] ==> Follows(Last(k.numbered), Planned(plan, d)))
      && policyGeneration == (if plan.changed then plan.policyGen - 1 else plan.policyGen)
      && classifierGeneration == (if plan.classifierChanged then plan.classifierGen - 1 else plan.classifierGen)
    }

    /** The executor's first step: the floors of the plan become the state's own generations. */
    method RaiseFloors(plan: Plan, ghost floors: Option<(nat, nat)>, d: Desired, k: System)
      requires k.Valid() && Agrees(k) && plan == MakePlan(floors, d, plan.repair)
      requires floors == k.Floors()
      modifies this`policyGeneration, this`classifierGeneration
      ensures Agrees(k) && PlanOk(plan, d, k)
      ensures policyGeneration >= old(policyGeneration) && classifierGeneration >= old(classifierGeneration)
    {
      var policyFloor := if plan.changed then plan.policyGen - 1 else plan.policyGen;
      var classifierFloor := if plan.classifierChanged then plan.classifierGen - 1 else plan.classifierGen;
      policyGeneration := Max(policyFloor, policyGeneration);
      classifierGeneration := Max(classifierFloor, classifierGeneration);
    }

    /**
     * A daemon that has applied nothing, as after a restart, continues the numbering of earlier publications exactly
     * when its own generations or the floors it could read reach the last of them: otherwise some policy is published
     * under a generation that was, or is below one that was, already used for another.
     */
    lemma NumberingContinues(floors: Option<(nat, nat)>, last: Publication, repair: bool)
      requires applied.None? && classifier.None?
      ensures (forall d: Desired :: Follows(last, Planned(MakePlan(floors, d, repair), d))) <==>
              var (policy, classes) := if floors.Some? then floors.value else (0, 0);
              last.policyGen <= Max(policy, policyGeneration) && last.classifierGen <= Max(classes, classifierGeneration)
    {
      var other := last.policy.(tracking := !last.policy.tracking);
      var ports := ClassifierSignature(last.classifier.ports + [(0, 0, Hint(0, 0, NoKind))], []);
      assert |ports.ports| == |last.classifier.ports| + 1;
      var d := Desired(false, true, other, ports, [], [], true, false, false, false, false);
      assert !Follows(last, Planned(MakePlan(floors, d, repair), d)) ||
             var (policy, classes) := if floors.Some? then floors.value else (0, 0);
             last.policyGen <= Max(policy, policyGeneration) && last.classifierGen <= Max(classes, classifierGeneration);
    }

    // ----- Falling back -----

    /** The datapath is disabled and detached everywhere, as far as the tools get. */
    method Withdraw(k: System) returns (disabled: Option<bool>, pruned: Option<bool>)
      requires k.Valid()
      modifies k.maps`config, k.tc`attached
      ensures k.Valid() && k.maps.config.policyGen == old(k.maps.config.policyGen)
      ensures (disabled.None? <==> !k.tool) && (pruned.None? <==> !k.tool)
      ensures disabled == Some(true) ==> !k.maps.config.enabled
      ensures pruned == Some(true) && k.program.Some? ==> k.tc.NothingBeyond(k.program.value, {})
    {
      hide Kernel.System.Valid, Attachments.Names, Attachments.Tc.NothingBeyond;
      NoNames();
      disabled := k.Disable();
      pruned := k.Prune([]);
    }

    /** The state no longer claims that anything is applied. */
    method DropClaims()
      modifies this`applied, this`classifier, this`appliedSources, this`appliedDestinations, this`appliedEnforcement
      ensures applied.None? && classifier.None? && !appliedEnforcement
    {
      applied, classifier, appliedSources, appliedDestinations, appliedEnforcement := None, None, [], [], false;
    }

    /** neutralize: whatever fails, the state no longer claims anything. */
    method Neutralize(k: System) returns (ok: bool)
      requires k.Valid() && Covered(k)
      modifies this, k`scope, k.maps`config, k.tc`attached
      ensures k.Valid() && Agrees(k) && applied.None? && !appliedEnforcement
      ensures policyGeneration == old(policyGeneration) && classifierGeneration == old(classifierGeneration)
      ensures ok && k.tool ==> !k.maps.config.enabled && attached == []
      ensures ok && k.tool && k.program.Some? ==> k.tc.NothingBeyond(k.program.value, {})
      ensures ok ==> Neutral(k)
      ensures k.maps.config.policyGen == old(k.maps.config.policyGen)
    {
      hide Attachments.Tc.NothingBeyond, Kernel.System.Valid, Attachments.Names, ScopeOf, Covered, Remembers;
      var disabled, pruned := Withdraw(k);
      if pruned.None? || pruned == Some(true) { attached := []; }
      var scoped := k.ApplyScope(false, [], []);
      DropClaims();
      ok := (disabled.None? || disabled.value) && (pruned.None? || pruned.value) && scoped;
    }

    /** restore_scope: the previous scope again, or nothing at all. */
    method RestoreScope(k: System) returns (retained: bool)
      requires k.Valid() && Agrees(k)
      modifies this, k`scope, k.maps`config, k.tc`attached
      ensures k.Valid() && Agrees(k)
      ensures retained ==> applied == old(applied) && k.maps.config == old(k.maps.config)
      ensures retained ==> k.scope == ScopeOf(old(appliedEnforcement), old(appliedSources), old(appliedDestinations))
      ensures !retained ==> applied.None?
      ensures policyGeneration == old(policyGeneration) && classifierGeneration == old(classifierGeneration)
    {
      retained := k.ApplyScope(appliedEnforcement, appliedSources, appliedDestinations);
      if !retained { var _ := Neutralize(k); }
    }

    function Report(ok: bool, available: bool, retained: bool): Result
      reads this
    {
      Result(ok, available, retained, retained, retained, policyGeneration, classifierGeneration)
    }

    /** A failure that leaves nothing applied. */
    method GiveUp(k: System, available: bool) returns (r: Result)
      requires k.Valid() && Covered(k)
      modifies this, k`scope, k.maps`config, k.tc`attached
      ensures k.Valid() && Agrees(k) && applied.None?
      ensures !r.ok && !r.enabled && !r.tracking && !r.retained
      ensures policyGeneration == old(policyGeneration) && classifierGeneration == old(classifierGeneration)
      ensures r.generation == policyGeneration && r.classifierGeneration == classifierGeneration
    {
      var _ := Neutralize(k);
      r := Report(false, available, false);
    }

    /** A failure that keeps the previous snapshot if there was one. */
    method KeepPrevious(k: System, previouslyEnabled: bool, neutralizeOtherwise: bool, available: bool) returns (r: Result)
      requires k.Valid() && Agrees(k)
      modifies this, k`scope, k.maps`config, k.tc`attached
      ensures k.Valid() && Agrees(k)
      ensures !r.ok && r.enabled == r.tracking == r.retained && (r.retained ==> previouslyEnabled && applied == old(applied))
      ensures policyGeneration == old(policyGeneration) && classifierGeneration == old(classifierGeneration)
      ensures r.generation == policyGeneration && r.classifierGeneration == classifierGeneration
    {
      if !previouslyEnabled {
        if neutralizeOtherwise {
          r := GiveUp(k, available);
          return;
        }
        return Report(false, available, false);
      }
      var retained := RestoreScope(k);
      r := Report(false, retained || available, retained);
    }

    // ----- Applying -----

    /** missing_interfaces */
    function Missing(target: seq<string>, repair: bool): (r: seq<string>)
      reads this
    {
      if repair then target else NotIn(target, attached)
    }

    /** Attaches where needed; true when every attachment succeeded. */
    method AttachAll(k: System, missing: seq<string>) returns (done: seq<string>, ok: bool)
      modifies k.tc`attached
      ensures ok ==> done == missing && forall i :: i in missing ==> k.Owns(i)
      ensures k.obliging && k.program.Some? && (forall i :: i in missing ==> old(k.Free(i))) ==> ok
      ensures forall i :: old(k.Owns(i)) ==> k.Owns(i)
    {
      hide System.Free, System.Owns;
      done, ok := [], true;
      for i := 0 to |missing|
        invariant ok ==> done == missing[..i] && forall n :: 0 <= n < i ==> k.Owns(missing[n])
        invariant k.obliging && k.program.Some? && (forall i :: i in missing ==> old(k.Free(i))) ==> ok
        invariant forall i :: old(k.Free(i)) ==> k.Free(i)
        invariant forall i :: old(k.Owns(i)) ==> k.Owns(i)
      {
        var attachedNow := k.Attach(missing[i]);
        if attachedNow { done := done + [missing[i]]; } else { ok := false; }
        if ok { assert missing[..i + 1] == missing[..i] + [missing[i]]; }
      }
      if ok { assert missing[..|missing|] == missing; }
    }

    /** Nothing is in the way: no call fails, the desired state is complete, and its interfaces are free or ours. */
    ghost predicate Unobstructed(k: System, d: Desired, plan: Plan)
      reads this`attached, k, k.maps, k.tc
    {
      && k.obliging && k.tool && d.requested && d.compiled && (d.offloadPresent ==> d.offloadActive)
      && !d.projectionErrors && !d.policyErrors && d.sources != [] && d.destinations != []
      && Backend.Distinct(Entries(d.policy, d.classifier))
      && (forall i :: i in d.sources ==> k.Free(i) && (plan.repair || i !in attached || k.Owns(i)))
      && (Due(plan) || (k.program.Some? && k.maps.config.enabled))
    }

    lemma ObligesToEnforce(k: System, d: Desired, plan: Plan)
      ensures Unobstructed(k, d, plan) ==> k.obliging && k.tool && d.requested
    {
    }

    /** The same once everything is attached. */
    ghost predicate Attached(k: System, d: Desired, plan: Plan)
      reads k, k.maps, k.tc
    {
      && k.obliging && k.program.Some? && Backend.Distinct(Entries(d.policy, d.classifier))
      && (Due(plan) || k.maps.config.enabled) && forall i :: i in d.sources ==> k.Owns(i)
    }

    lemma AllAttached(k: System, d: Desired, plan: Plan, missing: seq<string>)
      requires k.obliging && k.program.Some? && Backend.Distinct(Entries(d.policy, d.classifier))
      requires Due(plan) || k.maps.config.enabled
      requires missing == Missing(d.sources, plan.repair) && forall i :: i in missing ==> k.Owns(i)
      requires forall i :: i in d.sources ==> plan.repair || i !in attached || k.Owns(i)
      ensures Attached(k, d, plan)
    {
      hide System.Owns, Backend.Distinct;
    }

    /** Takes back the attachments this attempt added. */
    method DetachNew(k: System, done: seq<string>)
      modifies k.tc`attached
    {
      for i := 0 to |done| {
        if done[i] !in attached { var _ := k.Detach(done[i]); }
      }
    }

    /** The part of apply that publishes, if anything changed or a repair is due. */
    method PublishIfDue(k: System, d: Desired, plan: Plan) returns (ok: bool)
      requires k.Valid() && k.tool && Agrees(k) && PlanOk(plan, d, k)
      modifies this`policyGeneration, this`classifierGeneration, k`log, k`numbered, k.maps
      ensures k.Valid() && Remembers(k)
      ensures !ok ==> Agrees(k) && k.log == old(k.log) && k.numbered == old(k.numbered)
                      && policyGeneration == old(policyGeneration) && classifierGeneration == old(classifierGeneration)
      ensures ok ==> policyGeneration == plan.policyGen && classifierGeneration == plan.classifierGen
      ensures ok ==> k.numbered != [] && Last(k.numbered) == Planned(plan, d)
      ensures k.numbered == old(k.numbered) || k.numbered == old(k.numbered) + [Planned(plan, d)]
      ensures policyGeneration >= old(policyGeneration) && classifierGeneration >= old(classifierGeneration)
      ensures k.obliging && k.program.Some? && Backend.Distinct(Entries(d.policy, d.classifier)) ==> ok
      ensures ok ==> if Due(plan) then k.maps.config.enabled else k.maps.config == old(k.maps.config)
    {
      hide System.Valid, Follows, Covered, Numbered, Backend.Distinct;
      ok := true;
      if plan.repair || plan.changed || plan.classifierChanged {
        ok := k.Publish(Planned(plan, d));
        if !ok { return; }
        if plan.changed { policyGeneration := plan.policyGen; }
        if plan.classifierChanged { classifierGeneration := plan.classifierGen; }
      }
    }

    /** The state claims the desired signatures and interfaces. */
    method Claim(k: System, d: Desired, plan: Plan)
      requires k.numbered != [] && Last(k.numbered) == Planned(plan, d) && Covered(k)
      requires policyGeneration == plan.policyGen && classifierGeneration == plan.classifierGen
      requires !plan.classifierChanged ==> classifier == Some(d.classifier)
      modifies this`applied, this`classifier, this`appliedSources, this`appliedDestinations, this`appliedEnforcement,
               this`attached
      ensures Agrees(k) && applied == Some(d.policy) && classifier == Some(d.classifier) && attached == d.sources
      ensures appliedEnforcement == d.requested
    {
      hide Covered;
      attached, appliedSources, appliedDestinations := d.sources, d.sources, d.destinations;
      appliedEnforcement := d.requested;
      if plan.classifierChanged { classifier := Some(d.classifier); }
      applied := Some(d.policy);
    }

    /** The end of apply: scope, exact interface set, and only then the signatures. */
    method Finish(k: System, d: Desired, plan: Plan) returns (r: Result)
      requires k.Valid() && k.tool && Remembers(k)
      requires policyGeneration == plan.policyGen && classifierGeneration == plan.classifierGen
      requires k.numbered != [] && Last(k.numbered) == Planned(plan, d)
      requires !plan.classifierChanged ==> classifier == Some(d.classifier)
      modifies this, k`scope, k.maps`config, k.tc`attached
      ensures k.Valid() && Agrees(k)
      ensures r.generation == policyGeneration == plan.policyGen
      ensures r.classifierGeneration == classifierGeneration == plan.classifierGen
      ensures r.ok ==> && applied == Some(d.policy) && classifier == Some(d.classifier) && attached == d.sources
                       && k.scope == ScopeOf(d.requested, d.sources, d.destinations)
                       && r.tracking && r.enabled == d.requested && appliedEnforcement == d.requested
      ensures !r.ok ==> applied.None? && !r.enabled && !r.tracking
      ensures !r.retained
      ensures k.obliging && k.program.Some? && (forall i :: i in d.sources ==> old(k.Owns(i))) ==>
                r.ok && InPlace(k, d) && k.maps.config == old(k.maps.config)
    {
      hide System.Valid, Remembers, ScopeOf, Agrees, Planned, InPlace, Attachments.Tc.NothingBeyond, System.Owns;
      SourcesKnown(k, d);
      var scoped := k.ApplyScope(d.requested, d.sources, d.destinations);
      if !scoped {
        r := GiveUp(k, true);
        return;
      }
      var pruned := k.Prune(d.sources);
      if pruned != Some(true) {
        r := GiveUp(k, true);
        return;
      }
      if k.program.Some? && forall i :: i in d.sources ==> k.Owns(i) { OwnedIsInPlace(k, d); }
      Claim(k, d, plan);
      r := Result(true, true, d.requested, true, false, policyGeneration, classifierGeneration);
    }

    /** The outcome of apply as the executor relies on it. */
    ghost predicate AppliedOk(k: System, d: Desired, r: Result)
      reads this, k
    {
      && r.generation == policyGeneration && r.classifierGeneration == classifierGeneration
      && (r.enabled ==> r.tracking)
      && (r.ok && r.tracking ==>
            && applied == Some(d.policy) && classifier == Some(d.classifier) && attached == d.sources
            && k.scope == ScopeOf(d.requested, d.sources, d.destinations) && r.enabled == d.requested
            && appliedEnforcement == d.requested)
      && (r.retained ==> !r.ok)
    }

    /** The publishing part of apply, once everything is attached. */
    method Complete(k: System, d: Desired, plan: Plan, previouslyEnabled: bool, done: seq<string>) returns (r: Result)
      requires k.Valid() && k.tool && Agrees(k) && PlanOk(plan, d, k)
      modifies this, k`scope, k`log, k`numbered, k.maps, k.tc`attached
      ensures k.Valid() && Agrees(k) && AppliedOk(k, d, r) && (r.ok ==> r.tracking)
      ensures r.ok ==> policyGeneration == plan.policyGen && classifierGeneration == plan.classifierGen
      ensures k.numbered == old(k.numbered) || k.numbered == old(k.numbered) + [Planned(plan, d)]
      ensures policyGeneration >= old(policyGeneration) && classifierGeneration >= old(classifierGeneration)
      ensures old(Attached(k, d, plan)) ==> r.ok && InPlace(k, d) && k.maps.config.enabled
    {
      hide Follows, Numbered, System.Valid, Planned, ScopeOf, Backend.Distinct, InPlace, System.Free;
      var published := PublishIfDue(k, d, plan);
      if !published {
        DetachNew(k, done);
        r := KeepPrevious(k, previouslyEnabled, false, true);
        return;
      }
      r := Finish(k, d, plan);
    }

    /** The loading and attaching part of apply. */
    method Bind(k: System, d: Desired, plan: Plan) returns (available: bool, done: seq<string>, attachedAll: bool)
      requires k.Valid() && k.tool && Agrees(k) && PlanOk(plan, d, k)
      modifies k`program, k`log, k.maps, k.tc`attached
      ensures k.Valid() && Agrees(k) && PlanOk(plan, d, k)
      ensures old(Unobstructed(k, d, plan)) ==> available && attachedAll && Attached(k, d, plan)
    {
      hide Follows, Numbered, System.Valid, Planned, NotIn, Backend.Distinct, System.Free, System.Owns;
      var missing := Missing(d.sources, plan.repair);
      available := k.Ensure();
      if !available { return false, [], false; }
      done, attachedAll := AttachAll(k, missing);
      if old(Unobstructed(k, d, plan)) { AllAttached(k, d, plan, missing); }
    }

    /** The loading, attaching and publishing part of apply. */
    method Install(k: System, d: Desired, plan: Plan, previouslyEnabled: bool) returns (r: Result)
      requires k.Valid() && k.tool && Agrees(k) && PlanOk(plan, d, k)
      modifies this, k`scope, k`program, k`log, k`numbered, k.maps, k.tc`attached
      ensures k.Valid() && Agrees(k) && AppliedOk(k, d, r) && (r.ok ==> r.tracking)
      ensures r.ok ==> policyGeneration == plan.policyGen && classifierGeneration == plan.classifierGen
      ensures k.numbered == old(k.numbered) || k.numbered == old(k.numbered) + [Planned(plan, d)]
      ensures policyGeneration >= old(policyGeneration) && classifierGeneration >= old(classifierGeneration)
      ensures old(Unobstructed(k, d, plan)) ==> r.ok && InPlace(k, d) && k.maps.config.enabled
    {
      hide System.Valid, Planned, Unobstructed, Attached, InPlace, PlanOk;
      var available, done, attachedAll := Bind(k, d, plan);
      if !available {
        r := GiveUp(k, false);
        return;
      }
      if !attachedAll {
        DetachNew(k, done);
        r := KeepPrevious(k, previouslyEnabled, false, true);
        return;
      }
      r := Complete(k, d, plan, previouslyEnabled, done);
    }

    /** apply */
    method Apply(k: System, d: Desired, plan: Plan) returns (r: Result)
      requires k.Valid() && Agrees(k) && PlanOk(plan, d, k)
      modifies this, k`scope, k`program, k`log, k`numbered, k.maps, k.tc`attached
      ensures k.Valid() && Agrees(k) && AppliedOk(k, d, r)
      ensures r.ok && r.tracking ==> policyGeneration == plan.policyGen && classifierGeneration == plan.classifierGen
      ensures k.numbered == old(k.numbered) || k.numbered == old(k.numbered) + [Planned(plan, d)]
      ensures policyGeneration >= old(policyGeneration) && classifierGeneration >= old(classifierGeneration)
      ensures !d.requested && !d.trackingRequired ==> !r.tracking && (r.ok ==> Neutral(k))
      ensures r.ok && d.requested ==> r.tracking && r.enabled && d.sources != [] && d.destinations != []
      ensures old(Unobstructed(k, d, plan)) ==> r.ok && InPlace(k, d) && k.maps.config.enabled
    {
      var previouslyEnabled := applied.Some? && attached != [];
      if !d.requested && !d.trackingRequired {
        var neutral := Neutralize(k);
        return Report(neutral, false, false);
      }
      if !k.tool || (d.requested && d.offloadPresent && !d.offloadActive) {
        r := GiveUp(k, k.tool);
        return;
      }
      var errors := d.projectionErrors || (d.requested && d.policyErrors) || d.sources == [] || d.destinations == [];
      if (d.requested && !d.compiled) || errors {
        r := KeepPrevious(k, previouslyEnabled, true, false);
        return;
      }
      r := Install(k, d, plan, previouslyEnabled);
    }
  }

  lemma NoNames()
    ensures Attachments.Names([]) == {}
  {
  }

  function NotIn(target: seq<string>, present: seq<string>): (r: seq<string>)
    ensures forall i :: i in r <==> i in target && i !in present
  {
    if target == [] then []
    else (if target[0] in present then [] else [target[0]]) + NotIn(target[1..], present)
  }
}
