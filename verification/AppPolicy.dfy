/** Application rules, flattened into the table the datapath looks up. */
module AppPolicy {
  import opened Common
  import opened Text
  import opened Schedule
  import opened ClassGraph
  import opened Hints
  import Lease

  const MAX_SUBJECT_ID := 4294967295

  datatype IdentityConfig = IdentityConfig(id: string, subjectId: Option<nat>)

  datatype Identity = Identity(id: string, subjectId: Option<nat>, valid: bool)

  datatype RuleConfig = RuleConfig(identityId: string, classId: Option<nat>, verdict: string, activation: string,
                                   schedule: seq<string>)

  /** What a compiled rule contributes: whether it applies now, and how. */
  datatype Rule = Rule(active: bool, verdict: Verdict)

  datatype Policy = Policy(identityId: string, subjectId: nat, classId: nat, verdict: Verdict)

  // ----- Rules -----

  function ParseVerdict(text: string): Option<Verdict> {
    var t := Lower(Trim(text));
    if t == "allow" then Some(Allow) else if t == "deny" then Some(Deny) else None
  }

  /** The rule cannot be read as written. */
  predicate Broken(rule: RuleConfig, epoch: int) {
    || ParseVerdict(rule.verdict).None?
    || (rule.activation != "inactive" && rule.activation != "always_active"
        && !(rule.activation == "active_during" && Schedulable(rule.schedule, epoch)))
  }

  /** A rule applies when its activation says so; an unreadable activation applies always. */
  predicate Applies(rule: RuleConfig, epoch: int, offset: int) {
    && rule.activation != "inactive"
    && (rule.activation == "active_during" && Schedulable(rule.schedule, epoch) ==>
          InSomeWindow(rule.schedule, WeeklyMinute(epoch, offset)))
  }

  /** The rule as it takes effect: a broken rule denies. */
  function Effect(rule: RuleConfig, epoch: int, offset: int): Rule {
    Rule(Applies(rule, epoch, offset), if Broken(rule, epoch) then Deny else ParseVerdict(rule.verdict).value)
  }

  /** The instant is not before `epoch` and before the announced transition, if there is one. */
  predicate Before(epoch: int, next: Option<int>, t: int) {
    epoch <= t && (next.None? || t < next.value)
  }

  /** The rule takes effect unchanged before the announced transition. */
  ghost predicate HoldsFor(rule: RuleConfig, epoch: int, offset: int, next: Option<int>) {
    forall t :: Before(epoch, next, t) ==> Effect(rule, t, offset) == Effect(rule, epoch, offset)
  }

  /** With a clock that can be trusted, the announced transition of a rule is sound. */
  lemma AnnouncedHolds(rule: RuleConfig, epoch: int, offset: int, next: Option<int>)
    requires epoch >= CLOCK_VALID_AFTER
    requires rule.activation == "active_during" && Schedulable(rule.schedule, epoch) ==> next.Some?
    requires next.Some? ==> forall t :: epoch <= t < next.value ==> Applies(rule, t, offset) == Applies(rule, epoch, offset)
    ensures HoldsFor(rule, epoch, offset, next)
  {
    hide InSomeWindow, AllWindows;
  }

  /** compile_rule */
  method CompileRule(rule: RuleConfig, epoch: int, offset: int) returns (r: Rule, failed: bool, next: Option<int>)
    ensures r == Effect(rule, epoch, offset)
    ensures failed <==> Broken(rule, epoch)
    ensures next.Some? ==> next.value > epoch
    ensures next.Some? ==> forall t :: epoch <= t < next.value ==> Applies(rule, t, offset) == r.active
    ensures epoch >= CLOCK_VALID_AFTER ==> HoldsFor(rule, epoch, offset, next)
  {
    hide HoldsFor;
    var active, errors := false, 0;
    next := None;
    if rule.activation == "inactive" {
      active := false;
    } else if rule.activation == "always_active" {
      active := true;
    } else if rule.activation == "active_during" {
      var evaluation := EvaluateSchedule(rule.schedule, epoch, offset);
      if evaluation.Failed? {
        errors := errors + 1;
        active := true;
      } else {
        active := evaluation.active;
        next := Some(evaluation.nextEpoch);
      }
    } else {
      errors := errors + 1;
      active := true;
    }
    var verdict := ParseVerdict(rule.verdict);
    if verdict.None? { errors := errors + 1; }
    failed := errors > 0;
    r := Rule(active, if failed then Deny else verdict.value);
    if epoch >= CLOCK_VALID_AFTER { AnnouncedHolds(rule, epoch, offset, next); }
  }

  type ByClass = map<nat, seq<Rule>>

  function RulesAt(rules: ByClass, id: nat): seq<Rule> {
    if id in rules then rules[id] else []
  }

  predicate AnyActive(rules: seq<Rule>) {
    exists i :: 0 <= i < |rules| && rules[i].active
  }

  predicate AnyActiveDeny(rules: seq<Rule>) {
    exists i :: 0 <= i < |rules| && rules[i].active && rules[i].verdict == Deny
  }

  function ActiveVerdictOf(rules: seq<Rule>): Verdict {
    if AnyActiveDeny(rules) then Deny else Allow
  }

  /** active_verdict: among the active rules of one class, deny wins. */
  method ActiveVerdict(rules: seq<Rule>) returns (found: bool, verdict: Verdict)
    ensures found <==> AnyActive(rules)
    ensures verdict == ActiveVerdictOf(rules)
  {
    found, verdict := false, Allow;
    for i := 0 to |rules|
      invariant found <==> exists k :: 0 <= k < i && rules[k].active
      invariant verdict == Deny <==> exists k :: 0 <= k < i && rules[k].active && rules[k].verdict == Deny
    {
      if rules[i].active {
        found := true;
        if rules[i].verdict == Deny { verdict := Deny; }
      }
    }
  }

  // ----- The hierarchical meaning -----

  function Decides(rules: ByClass): nat -> bool {
    (x: nat) => AnyActive(RulesAt(rules, x))
  }

  ghost predicate NearestDecider(rules: ByClass, classes: Classes, id: nat, n: nat) {
    Nearest(classes, id, Decides(rules), n)
  }

  /** The nearest class at or above `id` with an active rule decides; without one, the default rules; else allow. */
  ghost predicate Means(rules: ByClass, classes: Classes, id: nat, verdict: Verdict) {
    if exists n: nat :: NearestDecider(rules, classes, id, n) then
      exists n: nat :: NearestDecider(rules, classes, id, n)
        && verdict == ActiveVerdictOf(RulesAt(rules, Nth(classes, id, n).value))
    else verdict == ActiveVerdictOf(RulesAt(rules, CLASS_DEFAULT))
  }

  lemma MeansIsUnique(rules: ByClass, classes: Classes, id: nat, a: Verdict, b: Verdict)
    requires Means(rules, classes, id, a) && Means(rules, classes, id, b)
    ensures a == b
  {
  }

  /** A class without active rules of its own or above it means what the default rules say. */
  lemma UndecidedMeansDefault(rules: ByClass, classes: Classes, id: nat)
    requires id !in rules && id !in classes
    ensures Means(rules, classes, id, ActiveVerdictOf(RulesAt(rules, CLASS_DEFAULT)))
  {
  }

  ghost function Resolved(rules: ByClass, classes: Classes, id: nat): (v: Verdict)
    ensures Means(rules, classes, id, v)
  {
    var at := Walk(classes, Some(id), {}, Decides(rules));
    WalkDecides(rules, classes, id);
    if at.Some? then ActiveVerdictOf(RulesAt(rules, at.value)) else ActiveVerdictOf(RulesAt(rules, CLASS_DEFAULT))
  }

  lemma WalkDecides(rules: ByClass, classes: Classes, id: nat)
    ensures var at := Walk(classes, Some(id), {}, Decides(rules));
            Means(rules, classes, id, if at.Some? then ActiveVerdictOf(RulesAt(rules, at.value))
                                      else ActiveVerdictOf(RulesAt(rules, CLASS_DEFAULT)))
  {
    WalkIsNearest(classes, id, Decides(rules));
    var at := Walk(classes, Some(id), {}, Decides(rules));
    if at.Some? {
      var n: nat :| Nearest(classes, id, Decides(rules), n) && Nth(classes, id, n) == at;
      assert NearestDecider(rules, classes, id, n);
    } else {
      assert forall n: nat :: !NearestDecider(rules, classes, id, n);
    }
  }

  /** resolve_verdict: terminates on every class graph, cyclic ones included. */
  method ResolveVerdict(rules: ByClass, classId: nat, classes: Classes) returns (verdict: Verdict)
    ensures verdict == Resolved(rules, classes, classId)
  {
    ghost var p := Decides(rules);
    var current: Option<nat> := Some(classId);
    var seen: set<nat> := {};
    while current.Some? && current.value !in seen
      invariant Walk(classes, current, seen, p) == Walk(classes, Some(classId), {}, p)
      decreases classes.Keys - seen, current.Some?
    {
      var found, v := ActiveVerdict(RulesAt(rules, current.value));
      if found { return v; }
      seen := seen + {current.value};
      current := if current.value in classes then classes[current.value].parent else None;
    }
    var found, v := ActiveVerdict(RulesAt(rules, CLASS_DEFAULT));
    return if found then v else Allow;
  }

  // ----- Identities -----

  predicate GoodSubject(subjectId: Option<nat>) {
    subjectId.Some? && 1 <= subjectId.value <= MAX_SUBJECT_ID
  }

  predicate IdTaken(configs: seq<IdentityConfig>, id: string) {
    exists i :: 0 <= i < |configs| && configs[i].id == id
  }

  predicate SubjectTaken(configs: seq<IdentityConfig>, subjectId: Option<nat>) {
    exists i :: 0 <= i < |configs| && configs[i].subjectId == subjectId && configs[i].id != ""
  }

  /** An identity is usable when its ID and subject are good and no earlier identity holds either. */
  predicate ValidAt(configs: seq<IdentityConfig>, i: nat)
    requires i < |configs|
  {
    && configs[i].id != "" && GoodSubject(configs[i].subjectId)
    && !IdTaken(configs[..i], configs[i].id) && !SubjectTaken(configs[..i], configs[i].subjectId)
  }

  predicate CompiledFrom(identities: seq<Identity>, configs: seq<IdentityConfig>) {
    && |identities| == |configs|
    && forall i :: 0 <= i < |configs| ==>
         identities[i] == Identity(configs[i].id, configs[i].subjectId, ValidAt(configs, i))
  }

  /** The identity loop of compile. */
  method CompileIdentities(configs: seq<IdentityConfig>) returns (identities: seq<Identity>)
    ensures CompiledFrom(identities, configs)
  {
    identities := [];
    var ids: set<string> := {};
    var owned: set<nat> := {};
    for i := 0 to |configs|
      invariant |identities| == i
      invariant forall k :: 0 <= k < i ==> identities[k] == Identity(configs[k].id, configs[k].subjectId, ValidAt(configs, k))
      invariant forall id :: id in ids <==> id != "" && IdTaken(configs[..i], id)
      invariant forall s :: s in owned <==> GoodSubject(Some(s)) && SubjectTaken(configs[..i], Some(s))
    {
      var c := configs[i];
      var good := GoodSubject(c.subjectId);
      var valid := c.id != "" && c.id !in ids && good && c.subjectId.value !in owned;
      identities := identities + [Identity(c.id, c.subjectId, valid)];
      TakenStep(configs, i);
      if c.id != "" { ids := ids + {c.id}; }
      if good && c.id != "" { owned := owned + {c.subjectId.value}; }
    }
  }

  lemma TakenStep(configs: seq<IdentityConfig>, i: nat)
    requires i < |configs|
    ensures forall id :: IdTaken(configs[..i + 1], id) <==> IdTaken(configs[..i], id) || configs[i].id == id
    ensures forall s :: SubjectTaken(configs[..i + 1], s) <==>
              SubjectTaken(configs[..i], s) || (configs[i].subjectId == s && configs[i].id != "")
  {
    var a, b := configs[..i], configs[..i + 1];
    assert b == a + [configs[i]];
    forall id
      ensures IdTaken(b, id) <==> IdTaken(a, id) || configs[i].id == id
    {
      if IdTaken(a, id) { var k :| 0 <= k < |a| && a[k].id == id; assert b[k].id == id; }
      if configs[i].id == id { assert b[i].id == id; }
    }
    forall s
      ensures SubjectTaken(b, s) <==> SubjectTaken(a, s) || (configs[i].subjectId == s && configs[i].id != "")
    {
      if SubjectTaken(a, s) {
        var k :| 0 <= k < |a| && a[k].subjectId == s && a[k].id != "";
        assert b[k].subjectId == s;
      }
      if configs[i].subjectId == s && configs[i].id != "" { assert b[i].subjectId == s; }
    }
  }

  /** No two usable identities share an ID or a subject. */
  lemma ValidIdentitiesDistinct(identities: seq<Identity>, configs: seq<IdentityConfig>, i: nat, j: nat)
    requires CompiledFrom(identities, configs) && i < j < |identities| && identities[i].valid && identities[j].valid
    ensures identities[i].id != identities[j].id && identities[i].subjectId != identities[j].subjectId
  {
  }

  // ----- Rules by identity -----

  predicate KnownIdentity(identities: seq<Identity>, id: string) {
    id != "" && exists i :: 0 <= i < |identities| && identities[i].id == id
  }

  predicate Placed(rule: RuleConfig, identities: seq<Identity>, classes: Classes) {
    KnownIdentity(identities, rule.identityId) && rule.classId.Some? && rule.classId.value in classes
  }

  /** The effects of the placed rules of one identity on one class, in order. */
  function PlacedRules(rules: seq<RuleConfig>, identities: seq<Identity>, classes: Classes, epoch: int, offset: int,
                       id: string, classId: nat): seq<Rule> {
    if rules == [] then []
    else
      var init := PlacedRules(rules[..|rules| - 1], identities, classes, epoch, offset, id, classId);
      var r := rules[|rules| - 1];
      if Placed(r, identities, classes) && r.identityId == id && r.classId.value == classId
      then init + [Effect(r, epoch, offset)] else init
  }

  /** A deny rule of the identity names no known class, so the identity falls back to deny. */
  predicate FailsClosed(rules: seq<RuleConfig>, identities: seq<Identity>, classes: Classes, epoch: int, offset: int, id: string) {
    exists i :: 0 <= i < |rules| && Misplaced(rules[i], identities, classes, epoch, offset, id)
  }

  predicate Misplaced(r: RuleConfig, identities: seq<Identity>, classes: Classes, epoch: int, offset: int, id: string) {
    && r.identityId == id && KnownIdentity(identities, id) && !Placed(r, identities, classes)
    && Effect(r, epoch, offset).verdict == Deny
  }

  /** All rules that govern one identity on one class, including the implicit deny of a fail-closed identity. */
  function GoverningRules(rules: seq<RuleConfig>, identities: seq<Identity>, classes: Classes, epoch: int, offset: int,
                          id: string, classId: nat): seq<Rule> {
    PlacedRules(rules, identities, classes, epoch, offset, id, classId) +
    if classId == CLASS_DEFAULT && FailsClosed(rules, identities, classes, epoch, offset, id) then [Rule(true, Deny)] else []
  }

  type Index = map<string, ByClass>

  function Lookup(index: Index, id: string, classId: nat): seq<Rule> {
    if id in index then RulesAt(index[id], classId) else []
  }

  function AddRule(index: Index, id: string, classId: nat, rule: Rule): Index {
    var byClass := if id in index then index[id] else map[];
    index[id := byClass[classId := RulesAt(byClass, classId) + [rule]]]
  }

  ghost predicate Indexed(index: Index, closed: set<string>, rules: seq<RuleConfig>, identities: seq<Identity>,
                          classes: Classes, epoch: int, offset: int) {
    && (forall id, c :: Lookup(index, id, c) == PlacedRules(rules, identities, classes, epoch, offset, id, c))
    && (forall id, c :: id in index && c in index[id] ==> c in classes)
    && (forall id :: id in closed <==> FailsClosed(rules, identities, classes, epoch, offset, id))
  }

  lemma FailsClosedStep(rules: seq<RuleConfig>, r: RuleConfig, identities: seq<Identity>, classes: Classes, epoch: int,
                        offset: int, id: string)
    ensures FailsClosed(rules + [r], identities, classes, epoch, offset, id) <==>
            FailsClosed(rules, identities, classes, epoch, offset, id) || Misplaced(r, identities, classes, epoch, offset, id)
  {
    var all := rules + [r];
    if FailsClosed(rules, identities, classes, epoch, offset, id) {
      var i :| 0 <= i < |rules| && Misplaced(rules[i], identities, classes, epoch, offset, id);
      assert all[i] == rules[i];
    }
    if Misplaced(r, identities, classes, epoch, offset, id) { assert all[|rules|] == r; }
  }

  lemma AddRuleLookup(index: Index, id: string, classId: nat, rule: Rule, otherId: string, otherClass: nat)
    ensures Lookup(AddRule(index, id, classId, rule), otherId, otherClass) ==
            Lookup(index, otherId, otherClass) + if otherId == id && otherClass == classId then [rule] else []
  {
  }

  lemma IndexedStep(index: Index, closed: set<string>, rules: seq<RuleConfig>, r: RuleConfig, identities: seq<Identity>,
                    classes: Classes, epoch: int, offset: int)
    requires Indexed(index, closed, rules, identities, classes, epoch, offset)
    ensures var placed := Placed(r, identities, classes);
            var deny := Misplaced(r, identities, classes, epoch, offset, r.identityId);
            Indexed(if placed then AddRule(index, r.identityId, r.classId.value, Effect(r, epoch, offset)) else index,
                    if deny then closed + {r.identityId} else closed,
                    rules + [r], identities, classes, epoch, offset)
  {
    var all := rules + [r];
    assert all[..|all| - 1] == rules && all[|all| - 1] == r;
    var next := if Placed(r, identities, classes)
                then AddRule(index, r.identityId, r.classId.value, Effect(r, epoch, offset)) else index;
    forall id, c
      ensures Lookup(next, id, c) == PlacedRules(all, identities, classes, epoch, offset, id, c)
    {
      if Placed(r, identities, classes) {
        AddRuleLookup(index, r.identityId, r.classId.value, Effect(r, epoch, offset), id, c);
      }
    }
    forall id
      ensures FailsClosed(all, identities, classes, epoch, offset, id) <==>
              FailsClosed(rules, identities, classes, epoch, offset, id) || Misplaced(r, identities, classes, epoch, offset, id)
    {
      FailsClosedStep(rules, r, identities, classes, epoch, offset, id);
    }
  }

  /** Every rule can be read and names a known identity and class. */
  predicate CleanRules(rules: seq<RuleConfig>, identities: seq<Identity>, classes: Classes, epoch: int) {
    forall i :: 0 <= i < |rules| ==> Placed(rules[i], identities, classes) && !Broken(rules[i], epoch)
  }

  ghost predicate RulesHold(rules: seq<RuleConfig>, epoch: int, offset: int, next: Option<int>) {
    forall i :: 0 <= i < |rules| ==> HoldsFor(rules[i], epoch, offset, next)
  }

  lemma RulesHoldStep(rules: seq<RuleConfig>, r: RuleConfig, epoch: int, offset: int, was: Option<int>, own: Option<int>)
    requires RulesHold(rules, epoch, offset, was) && HoldsFor(r, epoch, offset, own)
    ensures RulesHold(rules + [r], epoch, offset, MinInstant(was, own))
  {
    hide Effect;
    var all, next := rules + [r], MinInstant(was, own);
    forall i | 0 <= i < |all|
      ensures HoldsFor(all[i], epoch, offset, next)
    {
      if i < |rules| { assert HoldsFor(rules[i], epoch, offset, was); }
    }
  }

  lemma CleanStep(rules: seq<RuleConfig>, r: RuleConfig, identities: seq<Identity>, classes: Classes, epoch: int)
    ensures CleanRules(rules + [r], identities, classes, epoch) <==>
            CleanRules(rules, identities, classes, epoch) && Placed(r, identities, classes) && !Broken(r, epoch)
  {
    hide Placed, Broken;
    var all := rules + [r];
    assert all[|rules|] == r && forall i :: 0 <= i < |rules| ==> all[i] == rules[i];
  }

  lemma NoRules(identities: seq<Identity>, classes: Classes, epoch: int, offset: int)
    ensures Indexed(map[], {}, [], identities, classes, epoch, offset) && RulesHold([], epoch, offset, None)
  {
  }

  /** The rule loop of compile. */
  method CompileRules(rules: seq<RuleConfig>, identities: seq<Identity>, classes: Classes, epoch: int, offset: int)
    returns (index: Index, closed: set<string>, clean: bool, next: Option<int>)
    ensures Indexed(index, closed, rules, identities, classes, epoch, offset)
    ensures clean <==> CleanRules(rules, identities, classes, epoch)
    ensures next.Some? ==> next.value > epoch
    ensures epoch >= CLOCK_VALID_AFTER ==> RulesHold(rules, epoch, offset, next)
  {
    hide Indexed, Broken, HoldsFor, RulesHold, Effect;
    index, closed, clean, next := map[], {}, true, None;
    NoRules(identities, classes, epoch, offset);
    for i := 0 to |rules|
      invariant Indexed(index, closed, rules[..i], identities, classes, epoch, offset)
      invariant clean <==> CleanRules(rules[..i], identities, classes, epoch)
      invariant next.Some? ==> next.value > epoch
      invariant epoch >= CLOCK_VALID_AFTER ==> RulesHold(rules[..i], epoch, offset, next)
    {
      var r := rules[i];
      var rule, failed, own := CompileRule(r, epoch, offset);
      if epoch >= CLOCK_VALID_AFTER {
        RulesHoldStep(rules[..i], r, epoch, offset, next, own);
      }
      if own.Some? && (next.None? || own.value < next.value) { next := own; }
      CleanStep(rules[..i], r, identities, classes, epoch);
      clean := clean && !failed && KnownIdentity(identities, r.identityId) && r.classId.Some? && r.classId.value in classes;
      IndexedStep(index, closed, rules[..i], r, identities, classes, epoch, offset);
      assert rules[..i + 1] == rules[..i] + [r];
      if !KnownIdentity(identities, r.identityId) || r.classId.None? || r.classId.value !in classes {
        if rule.verdict == Deny && KnownIdentity(identities, r.identityId) {
          closed := closed + {r.identityId};
        }
      } else {
        index := AddRule(index, r.identityId, r.classId.value, rule);
      }
    }
    assert rules[..|rules|] == rules;
  }

  // ----- The flat table -----

  /** One identity's part of the table: one entry for each class. */
  ghost predicate TableOf(part: seq<Policy>, identity: Identity, rules: ByClass, classes: Classes, classIds: seq<nat>)
    requires identity.subjectId.Some?
  {
    && |part| == |classIds|
    && forall i :: 0 <= i < |part| ==>
         part[i] == Policy(identity.id, identity.subjectId.value, classIds[i], Resolved(rules, classes, classIds[i]))
  }

  method FlattenIdentity(identity: Identity, rules: ByClass, classes: Classes, classIds: seq<nat>) returns (part: seq<Policy>)
    requires identity.subjectId.Some?
    ensures TableOf(part, identity, rules, classes, classIds)
  {
    part := [];
    for i := 0 to |classIds|
      invariant TableOf(part, identity, rules, classes, classIds[..i])
    {
      var verdict := ResolveVerdict(rules, classIds[i], classes);
      part := part + [Policy(identity.id, identity.subjectId.value, classIds[i], verdict)];
    }
    assert classIds[..|classIds|] == classIds;
  }

  /** The rules that decide for one identity, with the implicit deny added to the default class. */
  function EffectiveRules(index: Index, closed: set<string>, id: string): ByClass {
    var byClass := if id in index then index[id] else map[];
    if id in closed then byClass[CLASS_DEFAULT := RulesAt(byClass, CLASS_DEFAULT) + [Rule(true, Deny)]] else byClass
  }

  /** The parts of the table, one for each usable identity. */
  ghost predicate Parts(parts: seq<seq<Policy>>, identities: seq<Identity>, index: Index, closed: set<string>,
                        classes: Classes, classIds: seq<nat>) {
    && |parts| == |identities|
    && forall i :: 0 <= i < |identities| ==> PartFor(parts[i], identities[i], index, closed, classes, classIds)
  }

  ghost predicate PartFor(part: seq<Policy>, identity: Identity, index: Index, closed: set<string>, classes: Classes,
                          classIds: seq<nat>) {
    if identity.valid && identity.subjectId.Some?
    then TableOf(part, identity, EffectiveRules(index, closed, identity.id), classes, classIds)
    else part == []
  }

  function Flatten(parts: seq<seq<Policy>>): seq<Policy> {
    if parts == [] then [] else Flatten(parts[..|parts| - 1]) + parts[|parts| - 1]
  }

  /** One identity's share of the table; an unusable identity gets none. */
  method FlattenPart(identity: Identity, index: Index, closed: set<string>, classes: Classes, classIds: seq<nat>)
    returns (part: seq<Policy>)
    ensures PartFor(part, identity, index, closed, classes, classIds)
  {
    if !identity.valid || identity.subjectId.None? { return []; }
    part := FlattenIdentity(identity, EffectiveRules(index, closed, identity.id), classes, classIds);
  }

  method FlattenAll(identities: seq<Identity>, index: Index, closed: set<string>, classes: Classes, classIds: seq<nat>)
    returns (policies: seq<Policy>, ghost parts: seq<seq<Policy>>)
    ensures Parts(parts, identities, index, closed, classes, classIds)
    ensures policies == Flatten(parts)
  {
    hide PartFor;
    policies, parts := [], [];
    for i := 0 to |identities|
      invariant Parts(parts, identities[..i], index, closed, classes, classIds)
      invariant policies == Flatten(parts)
    {
      var part := FlattenPart(identities[i], index, closed, classes, classIds);
      assert (parts + [part])[..i] == parts;
      parts := parts + [part];
      policies := policies + part;
    }
    assert identities[..|identities|] == identities;
  }

  // ----- The datapath lookup -----

  predicate IsEntry(policies: seq<Policy>, i: int, subjectId: nat, classId: nat) {
    0 <= i < |policies| && policies[i].subjectId == subjectId && policies[i].classId == classId
  }

  /** Exactly one entry of the table has the key, and it carries the verdict. */
  ghost predicate Maps(policies: seq<Policy>, subjectId: nat, classId: nat, verdict: Verdict) {
    exists i :: IsEntry(policies, i, subjectId, classId) && policies[i].verdict == verdict
      && forall k :: IsEntry(policies, k, subjectId, classId) ==> k == i
  }

  ghost predicate Absent(policies: seq<Policy>, subjectId: nat, classId: nat) {
    forall i :: !IsEntry(policies, i, subjectId, classId)
  }

  /** ca_policy_verdict on the table: the exact entry, else the subject's default entry, else allow. */
  ghost predicate DatapathAnswers(policies: seq<Policy>, subjectId: nat, classId: nat, verdict: Verdict) {
    || Maps(policies, subjectId, classId, verdict)
    || (Absent(policies, subjectId, classId) && Maps(policies, subjectId, CLASS_DEFAULT, verdict))
    || (Absent(policies, subjectId, classId) && Absent(policies, subjectId, CLASS_DEFAULT) && verdict == Allow)
  }

  predicate DistinctIds(ids: seq<nat>) {
    forall i, j :: 0 <= i < j < |ids| ==> ids[i] != ids[j]
  }

  /** No two usable identities share a subject. */
  predicate DistinctSubjects(identities: seq<Identity>) {
    forall i, j :: 0 <= i < j < |identities| && identities[i].valid && identities[j].valid ==>
      identities[i].subjectId != identities[j].subjectId
  }

  lemma PartMaps(part: seq<Policy>, identity: Identity, rules: ByClass, classes: Classes, classIds: seq<nat>, c: nat)
    requires identity.subjectId.Some? && TableOf(part, identity, rules, classes, classIds) && DistinctIds(classIds)
    ensures c in classIds ==> Maps(part, identity.subjectId.value, c, Resolved(rules, classes, c))
    ensures c !in classIds ==> Absent(part, identity.subjectId.value, c)
  {
  }

  lemma MapsConcat(a: seq<Policy>, b: seq<Policy>, s: nat, c: nat)
    ensures forall v :: Maps(a, s, c, v) && Absent(b, s, c) ==> Maps(a + b, s, c, v)
    ensures forall v :: Absent(a, s, c) && Maps(b, s, c, v) ==> Maps(a + b, s, c, v)
    ensures Absent(a, s, c) && Absent(b, s, c) ==> Absent(a + b, s, c)
  {
    var all := a + b;
    forall i
      ensures IsEntry(all, i, s, c) <==> IsEntry(a, i, s, c) || IsEntry(b, i - |a|, s, c)
    {
    }
    forall v | Maps(a, s, c, v) && Absent(b, s, c)
      ensures Maps(all, s, c, v)
    {
      var i :| IsEntry(a, i, s, c) && a[i].verdict == v && forall k :: IsEntry(a, k, s, c) ==> k == i;
      assert IsEntry(all, i, s, c);
    }
    forall v | Absent(a, s, c) && Maps(b, s, c, v)
      ensures Maps(all, s, c, v)
    {
      var i :| IsEntry(b, i, s, c) && b[i].verdict == v && forall k :: IsEntry(b, k, s, c) ==> k == i;
      assert IsEntry(all, |a| + i, s, c);
    }
  }

  lemma OtherPartAbsent(part: seq<Policy>, identity: Identity, index: Index, closed: set<string>, classes: Classes,
                        classIds: seq<nat>, s: nat, c: nat)
    requires PartFor(part, identity, index, closed, classes, classIds)
    requires identity.valid ==> identity.subjectId != Some(s)
    ensures Absent(part, s, c)
  {
  }

  /** In the whole table a usable identity's subject is found only in that identity's part. */
  lemma {:induction false} FlattenMaps(parts: seq<seq<Policy>>, identities: seq<Identity>, index: Index, closed: set<string>,
                                       classes: Classes, classIds: seq<nat>, i: nat, c: nat)
    requires Parts(parts, identities, index, closed, classes, classIds) && DistinctSubjects(identities) && DistinctIds(classIds)
    requires i < |identities| && identities[i].valid && identities[i].subjectId.Some?
    ensures var s := identities[i].subjectId.value;
            && (c in classIds ==>
                 Maps(Flatten(parts), s, c, Resolved(EffectiveRules(index, closed, identities[i].id), classes, c)))
            && (c !in classIds ==> Absent(Flatten(parts), s, c))
  {
    var init, last := parts[..|parts| - 1], parts[|parts| - 1];
    var s := identities[i].subjectId.value;
    var rules := EffectiveRules(index, closed, identities[i].id);
    if i == |parts| - 1 {
      FlattenAbsent(init, identities[..i], index, closed, classes, classIds, s, c);
      assert PartFor(parts[i], identities[i], index, closed, classes, classIds);
      PartMaps(last, identities[i], rules, classes, classIds, c);
    } else {
      FlattenMaps(init, identities[..|parts| - 1], index, closed, classes, classIds, i, c);
      assert PartFor(last, identities[|parts| - 1], index, closed, classes, classIds);
      OtherPartAbsent(last, identities[|parts| - 1], index, closed, classes, classIds, s, c);
    }
    MapsConcat(Flatten(init), last, s, c);
  }

  lemma {:induction false} FlattenAbsent(parts: seq<seq<Policy>>, identities: seq<Identity>, index: Index,
                                         closed: set<string>, classes: Classes, classIds: seq<nat>, s: nat, c: nat)
    requires Parts(parts, identities, index, closed, classes, classIds)
    requires forall i :: 0 <= i < |identities| && identities[i].valid ==> identities[i].subjectId != Some(s)
    ensures Absent(Flatten(parts), s, c)
  {
    if parts != [] {
      var n := |parts| - 1;
      FlattenAbsent(parts[..n], identities[..n], index, closed, classes, classIds, s, c);
      assert PartFor(parts[n], identities[n], index, closed, classes, classIds);
      OtherPartAbsent(parts[n], identities[n], index, closed, classes, classIds, s, c);
      MapsConcat(Flatten(parts[..n]), parts[n], s, c);
    }
  }

  /** The rules an identity's part is resolved with are exactly its governing rules. */
  lemma EffectiveRulesGovern(index: Index, closed: set<string>, rules: seq<RuleConfig>, identities: seq<Identity>,
                             classes: Classes, epoch: int, offset: int, id: string, c: nat)
    requires Indexed(index, closed, rules, identities, classes, epoch, offset)
    ensures RulesAt(EffectiveRules(index, closed, id), c)
         == GoverningRules(rules, identities, classes, epoch, offset, id, c)
  {
  }

  /** The verdict that the rule hierarchy defines for one identity and class. */
  ghost predicate HierarchyMeans(rules: seq<RuleConfig>, identities: seq<Identity>, classes: Classes, epoch: int,
                                 offset: int, id: string, classId: nat, verdict: Verdict) {
    exists byClass: ByClass ::
      && (forall c :: RulesAt(byClass, c) == GoverningRules(rules, identities, classes, epoch, offset, id, c))
      && Means(byClass, classes, classId, verdict)
  }

  /** The table answers, for one identity and class, what the hierarchy means. */
  ghost predicate AnswersHierarchy(policies: seq<Policy>, rules: seq<RuleConfig>, identities: seq<Identity>,
                                   classes: Classes, epoch: int, offset: int, identity: Identity, c: nat) {
    identity.subjectId.Some? &&
    exists v :: DatapathAnswers(policies, identity.subjectId.value, c, v)
      && HierarchyMeans(rules, identities, classes, epoch, offset, identity.id, c, v)
  }

  ghost predicate ClassList(classIds: seq<nat>, classes: Classes) {
    DistinctIds(classIds) && CLASS_DEFAULT in classIds && forall c :: c in classIds <==> c in classes
  }

  lemma SubjectsDistinct(identities: seq<Identity>, configs: seq<IdentityConfig>)
    requires CompiledFrom(identities, configs)
    ensures DistinctSubjects(identities)
    ensures forall i :: 0 <= i < |identities| && identities[i].valid ==> GoodSubject(identities[i].subjectId)
  {
    forall j, k | 0 <= j < k < |identities| && identities[j].valid && identities[k].valid
      ensures identities[j].subjectId != identities[k].subjectId
    {
      ValidIdentitiesDistinct(identities, configs, j, k);
    }
  }

  lemma TableAnswersHierarchy(parts: seq<seq<Policy>>, configs: seq<IdentityConfig>, identities: seq<Identity>,
                              rules: seq<RuleConfig>, index: Index, closed: set<string>, classes: Classes,
                              classIds: seq<nat>, epoch: int, offset: int, i: nat, c: nat)
    requires CompiledFrom(identities, configs) && Indexed(index, closed, rules, identities, classes, epoch, offset)
    requires Parts(parts, identities, index, closed, classes, classIds) && ClassList(classIds, classes)
    requires CLASS_DEFAULT in classes && classes[CLASS_DEFAULT].parent.None?
    requires i < |identities| && identities[i].valid
    ensures AnswersHierarchy(Flatten(parts), rules, identities, classes, epoch, offset, identities[i], c)
  {
    assert GoodSubject(identities[i].subjectId);
    SubjectsDistinct(identities, configs);
    var s, byClass := identities[i].subjectId.value, EffectiveRules(index, closed, identities[i].id);
    FlattenMaps(parts, identities, index, closed, classes, classIds, i, c);
    FlattenMaps(parts, identities, index, closed, classes, classIds, i, CLASS_DEFAULT);
    forall k
      ensures RulesAt(byClass, k) == GoverningRules(rules, identities, classes, epoch, offset, identities[i].id, k)
    {
      EffectiveRulesGovern(index, closed, rules, identities, classes, epoch, offset, identities[i].id, k);
    }
    if c in classIds {
      assert DatapathAnswers(Flatten(parts), s, c, Resolved(byClass, classes, c));
    } else {
      var v := Resolved(byClass, classes, CLASS_DEFAULT);
      DefaultResolved(byClass, classes);
      UndecidedMeansDefault(byClass, classes, c);
      assert DatapathAnswers(Flatten(parts), s, c, v);
    }
  }

  lemma DefaultResolved(rules: ByClass, classes: Classes)
    requires CLASS_DEFAULT in classes && classes[CLASS_DEFAULT].parent.None?
    ensures Resolved(rules, classes, CLASS_DEFAULT) == ActiveVerdictOf(RulesAt(rules, CLASS_DEFAULT))
  {
  }

  /** Every entry of the identity's subject is the identity's. */
  predicate OwnsSubject(policies: seq<Policy>, identity: Identity) {
    forall i :: 0 <= i < |policies| && Some(policies[i].subjectId) == identity.subjectId ==>
      policies[i].identityId == identity.id
  }

  /** The list answers for one usable identity: for every class number, and with entries for exactly the classes. */
  ghost predicate CompiledFor(policies: seq<Policy>, rules: seq<RuleConfig>, identities: seq<Identity>, classes: Classes,
                              epoch: int, offset: int, identity: Identity) {
    && identity.subjectId.Some? && OwnsSubject(policies, identity)
    && forall c: nat :: AnswersHierarchy(policies, rules, identities, classes, epoch, offset, identity, c)
                     && (c in classes <==> !Absent(policies, identity.subjectId.value, c))
  }

  lemma PartOwner(part: seq<Policy>, identity: Identity, index: Index, closed: set<string>, classes: Classes,
                  classIds: seq<nat>, owner: Identity)
    requires PartFor(part, identity, index, closed, classes, classIds)
    requires identity.valid && identity.subjectId == owner.subjectId ==> identity.id == owner.id
    ensures OwnsSubject(part, owner)
  {
  }

  lemma {:induction false} FlattenOwner(parts: seq<seq<Policy>>, identities: seq<Identity>, index: Index,
                                        closed: set<string>, classes: Classes, classIds: seq<nat>, owner: Identity)
    requires Parts(parts, identities, index, closed, classes, classIds)
    requires forall i :: 0 <= i < |identities| && identities[i].valid && identities[i].subjectId == owner.subjectId ==>
               identities[i].id == owner.id
    ensures OwnsSubject(Flatten(parts), owner)
  {
    hide PartFor;
    if parts != [] {
      var n := |parts| - 1;
      FlattenOwner(parts[..n], identities[..n], index, closed, classes, classIds, owner);
      assert PartFor(parts[n], identities[n], index, closed, classes, classIds);
      PartOwner(parts[n], identities[n], index, closed, classes, classIds, owner);
    }
  }

  lemma FlattenCompiled(parts: seq<seq<Policy>>, configs: seq<IdentityConfig>, identities: seq<Identity>,
                        rules: seq<RuleConfig>, index: Index, closed: set<string>, classes: Classes, classIds: seq<nat>,
                        epoch: int, offset: int, i: nat)
    requires CompiledFrom(identities, configs) && Indexed(index, closed, rules, identities, classes, epoch, offset)
    requires Parts(parts, identities, index, closed, classes, classIds) && ClassList(classIds, classes)
    requires CLASS_DEFAULT in classes && classes[CLASS_DEFAULT].parent.None?
    requires i < |identities| && identities[i].valid
    ensures CompiledFor(Flatten(parts), rules, identities, classes, epoch, offset, identities[i])
  {
    hide Indexed, Parts, AnswersHierarchy, Resolved;
    SubjectsDistinct(identities, configs);
    var owner := identities[i];
    forall j | 0 <= j < |identities| && identities[j].valid && identities[j].subjectId == owner.subjectId
      ensures identities[j].id == owner.id
    {
      assert j == i;
    }
    FlattenOwner(parts, identities, index, closed, classes, classIds, owner);
    forall c: nat
      ensures AnswersHierarchy(Flatten(parts), rules, identities, classes, epoch, offset, owner, c)
      ensures c in classes <==> !Absent(Flatten(parts), owner.subjectId.value, c)
    {
      TableAnswersHierarchy(parts, configs, identities, rules, index, closed, classes, classIds, epoch, offset, i, c);
      FlattenMaps(parts, identities, index, closed, classes, classIds, i, c);
    }
  }

  // ----- How long a compilation holds -----

  lemma {:induction false} PlacedRulesHold(rules: seq<RuleConfig>, identities: seq<Identity>, classes: Classes, epoch: int,
                                           offset: int, t: int, id: string, classId: nat)
    requires forall i :: 0 <= i < |rules| ==> Effect(rules[i], t, offset) == Effect(rules[i], epoch, offset)
    ensures PlacedRules(rules, identities, classes, t, offset, id, classId)
         == PlacedRules(rules, identities, classes, epoch, offset, id, classId)
  {
    hide Effect;
    if rules != [] {
      PlacedRulesHold(rules[..|rules| - 1], identities, classes, epoch, offset, t, id, classId);
    }
  }

  /** The index of the rules is that of every instant at which they take effect alike. */
  lemma IndexedHolds(index: Index, closed: set<string>, rules: seq<RuleConfig>, identities: seq<Identity>,
                     classes: Classes, epoch: int, offset: int, t: int)
    requires Indexed(index, closed, rules, identities, classes, epoch, offset)
    requires forall i :: 0 <= i < |rules| ==> Effect(rules[i], t, offset) == Effect(rules[i], epoch, offset)
    ensures Indexed(index, closed, rules, identities, classes, t, offset)
  {
    hide Effect, Placed, KnownIdentity, PlacedRules;
    forall id, c
      ensures Lookup(index, id, c) == PlacedRules(rules, identities, classes, t, offset, id, c)
    {
      PlacedRulesHold(rules, identities, classes, epoch, offset, t, id, c);
    }
    forall id
      ensures FailsClosed(rules, identities, classes, t, offset, id) <==>
              FailsClosed(rules, identities, classes, epoch, offset, id)
    {
      forall i | 0 <= i < |rules|
        ensures Misplaced(rules[i], identities, classes, t, offset, id) <==>
                Misplaced(rules[i], identities, classes, epoch, offset, id)
      {
      }
    }
  }

  /** An instant for which a compilation at `epoch` is still right. */
  predicate InForce(epoch: int, next: Option<int>, t: int) {
    t == epoch || (epoch >= CLOCK_VALID_AFTER && Before(epoch, next, t))
  }

  predicate AllValid(identities: seq<Identity>) {
    forall i :: 0 <= i < |identities| ==> identities[i].valid
  }

  /**
   * compile: at every instant before the announced transition, for every usable identity and every class number,
   * configured or not, the datapath's lookup on the flat table returns what the rule hierarchy defines. The
   * configuration is without errors exactly when every identity is usable and every rule readable and placed.
   */
  method Compile(configs: seq<IdentityConfig>, rules: seq<RuleConfig>, classes: Classes, classIds: seq<nat>,
                 epoch: int, offset: int)
    returns (identities: seq<Identity>, policies: seq<Policy>, clean: bool, next: Option<int>)
    requires ClassList(classIds, classes)
    requires CLASS_DEFAULT in classes && classes[CLASS_DEFAULT].parent.None?
    ensures CompiledFrom(identities, configs)
    ensures clean <==> AllValid(identities) && CleanRules(rules, identities, classes, epoch)
    ensures next.Some? ==> next.value > epoch
    ensures forall t, i :: InForce(epoch, next, t) && 0 <= i < |identities| && identities[i].valid ==>
              CompiledFor(policies, rules, identities, classes, t, offset, identities[i])
  {
    hide Indexed, Parts, CompiledFor, RulesHold, HoldsFor, CleanRules, CompiledFrom, ClassList;
    identities := CompileIdentities(configs);
    var index, closed;
    index, closed, clean, next := CompileRules(rules, identities, classes, epoch, offset);
    for i := 0 to |identities|
      invariant clean <==> AllValid(identities[..i]) && CleanRules(rules, identities, classes, epoch)
    {
      assert identities[..i + 1] == identities[..i] + [identities[i]];
      clean := clean && identities[i].valid;
    }
    assert identities[..|identities|] == identities;
    ghost var parts;
    policies, parts := FlattenAll(identities, index, closed, classes, classIds);
    forall t, i | InForce(epoch, next, t) && 0 <= i < |identities| && identities[i].valid
      ensures CompiledFor(policies, rules, identities, classes, t, offset, identities[i])
    {
      if t != epoch {
        EffectsHold(rules, epoch, offset, next, t);
        IndexedHolds(index, closed, rules, identities, classes, epoch, offset, t);
      }
      FlattenCompiled(parts, configs, identities, rules, index, closed, classes, classIds, t, offset, i);
    }
  }

  lemma EffectsHold(rules: seq<RuleConfig>, epoch: int, offset: int, next: Option<int>, t: int)
    requires RulesHold(rules, epoch, offset, next) && Before(epoch, next, t)
    ensures forall i :: 0 <= i < |rules| ==> Effect(rules[i], t, offset) == Effect(rules[i], epoch, offset)
  {
    hide Effect;
    forall i | 0 <= i < |rules|
      ensures Effect(rules[i], t, offset) == Effect(rules[i], epoch, offset)
    {
      assert HoldsFor(rules[i], epoch, offset, next);
    }
  }

  // ----- Approvals -----

  /** lease_matches_class */
  ghost predicate LeaseMatches(l: Lease.Lease, classId: nat, classes: Classes) {
    l.classId.Some? && (l.classId.value == classId || AncestorCategory(classes, l.classId.value, classId))
  }

  /** Some approval of the identity covers the class. */
  ghost predicate Approved(leases: seq<Lease.Lease>, id: string, classId: nat, classes: Classes) {
    exists i :: 0 <= i < |leases| && leases[i].scope == "application" && leases[i].identityId == id
      && LeaseMatches(leases[i], classId, classes)
  }

  ghost function Overlaid(p: Policy, leases: seq<Lease.Lease>, classes: Classes): Policy {
    if p.classId > CLASS_UNCLASSIFIED && Approved(leases, p.identityId, p.classId, classes) then p.(verdict := Allow) else p
  }

  /** The whole list with the approvals laid over it. */
  ghost function OverlaidAll(policies: seq<Policy>, leases: seq<Lease.Lease>, classes: Classes): seq<Policy> {
    seq(|policies|, i requires 0 <= i < |policies| => Overlaid(policies[i], leases, classes))
  }

  /** overlay_application: an approval allows its class and everything below it, never the reserved classes. */
  method OverlayApplication(policies: seq<Policy>, announced: Option<int>, leases: seq<Lease.Lease>, classes: Classes)
    returns (r: seq<Policy>, next: Option<int>)
    ensures r == OverlaidAll(policies, leases, classes)
    ensures next == MinInstant(announced, Lease.NextExpiry(leases))
  {
    next := MinInstant(announced, Lease.NextExpiry(leases));
    r := [];
    for i := 0 to |policies|
      invariant |r| == i
      invariant forall k :: 0 <= k < i ==> r[k] == Overlaid(policies[k], leases, classes)
    {
      var p := policies[i];
      var matching := false;
      if p.classId > CLASS_UNCLASSIFIED {
        matching := FindApproval(p, leases, classes);
      }
      r := r + [if matching then p.(verdict := Allow) else p];
    }
  }

  method FindApproval(p: Policy, leases: seq<Lease.Lease>, classes: Classes) returns (matching: bool)
    ensures matching <==> Approved(leases, p.identityId, p.classId, classes)
  {
    for i := 0 to |leases|
      invariant forall k :: 0 <= k < i ==> !(leases[k].scope == "application" && leases[k].identityId == p.identityId
                                             && LeaseMatches(leases[k], p.classId, classes))
    {
      var l := leases[i];
      if l.scope == "application" && l.identityId == p.identityId && l.classId.Some? {
        var above := CategoryIsAncestor(classes, l.classId.value, p.classId);
        if l.classId.value == p.classId || above { return true; }
      }
    }
    return false;
  }

  /** What is in force for a class: allow while approved, else what the hierarchy defines. */
  ghost predicate InForceMeans(rules: seq<RuleConfig>, identities: seq<Identity>, classes: Classes, epoch: int,
                               offset: int, leases: seq<Lease.Lease>, id: string, classId: nat, verdict: Verdict) {
    if classId > CLASS_UNCLASSIFIED && classId in classes && Approved(leases, id, classId, classes) then verdict == Allow
    else HierarchyMeans(rules, identities, classes, epoch, offset, id, classId, verdict)
  }

  lemma OverlaidEntries(policies: seq<Policy>, leases: seq<Lease.Lease>, classes: Classes, identity: Identity, c: nat)
    requires identity.subjectId.Some? && OwnsSubject(policies, identity)
    ensures var s, all := identity.subjectId.value, OverlaidAll(policies, leases, classes);
            var approved := c > CLASS_UNCLASSIFIED && Approved(leases, identity.id, c, classes);
            && (forall i :: IsEntry(all, i, s, c) <==> IsEntry(policies, i, s, c))
            && (Absent(policies, s, c) ==> Absent(all, s, c))
            && (forall v :: Maps(policies, s, c, v) ==> Maps(all, s, c, if approved then Allow else v))
  {
    hide Approved;
    var s, all := identity.subjectId.value, OverlaidAll(policies, leases, classes);
    var approved := c > CLASS_UNCLASSIFIED && Approved(leases, identity.id, c, classes);
    assert forall i :: IsEntry(all, i, s, c) <==> IsEntry(policies, i, s, c);
    forall v | Maps(policies, s, c, v)
      ensures Maps(all, s, c, if approved then Allow else v)
    {
      var i :| IsEntry(policies, i, s, c) && policies[i].verdict == v && forall k :: IsEntry(policies, k, s, c) ==> k == i;
      assert IsEntry(all, i, s, c) && all[i] == Overlaid(policies[i], leases, classes);
    }
  }

  lemma MapsOrAbsent(policies: seq<Policy>, s: nat, c: nat)
    ensures forall v :: Maps(policies, s, c, v) ==> !Absent(policies, s, c)
  {
  }

  /** The overlaid list answers, for every class number, what is in force. */
  lemma OverlaidAnswers(policies: seq<Policy>, rules: seq<RuleConfig>, identities: seq<Identity>, classes: Classes,
                        epoch: int, offset: int, leases: seq<Lease.Lease>, identity: Identity, c: nat)
    returns (verdict: Verdict)
    requires CompiledFor(policies, rules, identities, classes, epoch, offset, identity)
    ensures DatapathAnswers(OverlaidAll(policies, leases, classes), identity.subjectId.value, c, verdict)
    ensures InForceMeans(rules, identities, classes, epoch, offset, leases, identity.id, c, verdict)
  {
    hide HierarchyMeans, Approved, OverlaidAll, Maps, Absent;
    var s := identity.subjectId.value;
    assert AnswersHierarchy(policies, rules, identities, classes, epoch, offset, identity, c);
    var v :| DatapathAnswers(policies, s, c, v) && HierarchyMeans(rules, identities, classes, epoch, offset, identity.id, c, v);
    OverlaidEntries(policies, leases, classes, identity, c);
    OverlaidEntries(policies, leases, classes, identity, CLASS_DEFAULT);
    MapsOrAbsent(policies, s, c);
    assert c in classes <==> !Absent(policies, s, c);
    verdict := if c > CLASS_UNCLASSIFIED && c in classes && Approved(leases, identity.id, c, classes) then Allow else v;
  }
}
