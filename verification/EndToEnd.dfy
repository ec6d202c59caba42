/**
 * From the configured rules to the mark of a packet: what the controller compiled and reported as published is what
 * the packet program enforces.
 */
module EndToEnd {
  import opened Common
  import opened Hints
  import opened Tables
  import opened Datapath
  import opened Kernel
  import ApplicationPlane
  import AppPolicy
  import Backend
  import ClassGraph
  import Controller
  import DatapathSafety
  import Discipline
  import Lease

  /** The compiled policies as the policy signature lists them. */
  function Listed(policies: seq<AppPolicy.Policy>): seq<(nat, nat, Verdict)> {
    seq(|policies|, i requires 0 <= i < |policies| => (policies[i].subjectId, policies[i].classId, policies[i].verdict))
  }

  function Entry(p: AppPolicy.Policy): (Key, Val) {
    (PolicyKey(p.subjectId, p.classId), Policy(p.verdict))
  }

  lemma {:induction false} NoPolicyWithoutKey(entries: seq<(Key, Val)>, k: Key)
    requires forall i :: 0 <= i < |entries| ==> entries[i].0 != k
    ensures k !in Contents(entries)
  {
    if entries != [] { NoPolicyWithoutKey(entries[..|entries| - 1], k); }
  }

  /** A key that occurs once is mapped to its only value. */
  lemma {:induction false} OnlyEntryCounts(entries: seq<(Key, Val)>, k: Key, i: nat)
    requires i < |entries| && entries[i].0 == k
    requires forall j :: 0 <= j < |entries| && j != i ==> entries[j].0 != k
    ensures k in Contents(entries) && Contents(entries)[k] == entries[i].1
  {
    var n := |entries| - 1;
    if i < n { OnlyEntryCounts(entries[..n], k, i); }
  }

  /** The published table has a policy entry exactly where the compiled list has one. */
  lemma PolicyAtPublished(policies: seq<AppPolicy.Policy>, selectors: seq<(string, nat)>, subject: nat, classId: nat)
    ensures var t := Contents(SubjectEntries(selectors) + PolicyEntries(Listed(policies)));
            && (AppPolicy.Absent(policies, subject, classId) ==> PolicyAt(t, subject, classId).None?)
            && (forall v :: AppPolicy.Maps(policies, subject, classId, v) ==> PolicyAt(t, subject, classId) == Some(v))
  {
    var a := SubjectEntries(selectors);
    var entries := a + PolicyEntries(Listed(policies));
    var k := PolicyKey(subject, classId);
    assert forall i :: 0 <= i < |a| ==> entries[i].0 != k;
    assert forall j :: 0 <= j < |policies| ==> entries[|a| + j] == Entry(policies[j]);
    forall j | |a| <= j < |entries|
      ensures entries[j].0 == k <==> AppPolicy.IsEntry(policies, j - |a|, subject, classId)
    {
      assert entries[|a| + (j - |a|)] == Entry(policies[j - |a|]);
    }
    if AppPolicy.Absent(policies, subject, classId) { NoPolicyWithoutKey(entries, k); }
    forall v | AppPolicy.Maps(policies, subject, classId, v)
      ensures PolicyAt(Contents(entries), subject, classId) == Some(v)
    {
      var i :| AppPolicy.IsEntry(policies, i, subject, classId) && policies[i].verdict == v
            && forall n :: AppPolicy.IsEntry(policies, n, subject, classId) ==> n == i;
      OnlyEntryCounts(entries, k, |a| + i);
    }
  }

  /** The datapath's lookup in a published table is the lookup the compiled list was proved to answer. */
  lemma PublishedTableAnswers(policies: seq<AppPolicy.Policy>, u: Publication, subject: nat, classId: nat, verdict: Verdict)
    requires u.policy.policies == Listed(policies)
    requires AppPolicy.DatapathAnswers(policies, subject, classId, verdict)
    ensures VerdictOf(Contents(Entries(u.policy, u.classifier)), subject, classId) == verdict
  {
    var a := SubjectEntries(u.policy.selectors) + PolicyEntries(u.policy.policies);
    var b := PortEntries(u.classifier.ports) + PrefixEntries(u.classifier.prefixes);
    assert Entries(u.policy, u.classifier) == a + b;
    ClassifierEntriesAddNoPolicies(a, b);
    VerdictDependsOnPolicies(Contents(a + b), Contents(a), subject, classId);
    PolicyAtPublished(policies, u.policy.selectors, subject, classId);
    PolicyAtPublished(policies, u.policy.selectors, subject, CLASS_DEFAULT);
  }

  /**
   * When an attempt's success evidence holds for a policy compiled from rules and overlaid with approvals, the active
   * tables give every usable identity, for every class number, what is in force: allow at and below an approved class,
   * and the verdict the rule hierarchy defines everywhere else.
   */
  lemma HierarchyIsPublished(k: System, d: ApplicationPlane.Desired, policyGen: nat, classifierGen: nat,
                             policies: seq<AppPolicy.Policy>, rules: seq<AppPolicy.RuleConfig>,
                             identities: seq<AppPolicy.Identity>, classes: ClassGraph.Classes, epoch: int, offset: int,
                             leases: seq<Lease.Lease>, identity: AppPolicy.Identity, classId: nat)
    requires ApplicationPlane.Realizes(k, d, policyGen, classifierGen)
    requires d.policy.policies == Listed(AppPolicy.OverlaidAll(policies, leases, classes))
    requires AppPolicy.CompiledFor(policies, rules, identities, classes, epoch, offset, identity)
    ensures AppPolicy.InForceMeans(rules, identities, classes, epoch, offset, leases, identity.id, classId,
                                   VerdictOf(k.maps.Active(), identity.subjectId.value, classId))
  {
    assert identity.subjectId.Some?;
    hide AppPolicy.CompiledFor, AppPolicy.InForceMeans, AppPolicy.OverlaidAll, AppPolicy.DatapathAnswers, VerdictOf, Contents;
    var v := AppPolicy.OverlaidAnswers(policies, rules, identities, classes, epoch, offset, leases, identity, classId);
    PublishedTableAnswers(AppPolicy.OverlaidAll(policies, leases, classes),
                          Publication(policyGen, d.policy, classifierGen, d.classifier), identity.subjectId.value, classId, v);
  }

  lemma RealizedEnforces(k: System, d: ApplicationPlane.Desired, policyGen: nat, classifierGen: nat)
    requires ApplicationPlane.Realizes(k, d, policyGen, classifierGen) && ApplicationPlane.Consistent(d) && d.requested
    ensures k.maps.config.enabled && k.maps.config.enforcement
  {
  }

  /**
   * A packet of a classified flow, sent by a device of a usable identity after a truthful success, is marked with the
   * verdict in force for the flow's class.
   */
  method MarkOfClassifiedFlow(k: System, d: ApplicationPlane.Desired, ghost policyGen: nat, ghost classifierGen: nat,
                              ghost policies: seq<AppPolicy.Policy>, ghost rules: seq<AppPolicy.RuleConfig>,
                              ghost identities: seq<AppPolicy.Identity>, ghost classes: ClassGraph.Classes,
                              ghost epoch: int, ghost offset: int, ghost leases: seq<Lease.Lease>,
                              ghost identity: AppPolicy.Identity, packet: Packet, nowNs: nat, bytes: nat)
    returns (mark: Option<Verdict>)
    requires k.maps.Valid() && k.maps.limits.pending < 0x1_0000_0000
    requires ApplicationPlane.Realizes(k, d, policyGen, classifierGen) && ApplicationPlane.Consistent(d) && d.requested
    requires d.policy.policies == Listed(AppPolicy.OverlaidAll(policies, leases, classes))
    requires AppPolicy.CompiledFor(policies, rules, identities, classes, epoch, offset, identity)
    requires packet.parse == ParseOk && SubjectOf(k.maps.Active(), packet.mac) == identity.subjectId
    requires var key := FlowKey(identity.subjectId.value, packet.tuple);
             key in k.maps.flows && Backend.Usable(k.maps.flows[key])
    modifies k.maps
    ensures mark.Some? && AppPolicy.InForceMeans(rules, identities, classes, epoch, offset, leases, identity.id,
              old(k.maps.flows)[FlowKey(identity.subjectId.value, packet.tuple)].classId, mark.value)
  {
    assert identity.subjectId.Some?;
    hide AppPolicy.InForceMeans, AppPolicy.CompiledFor, AppPolicy.OverlaidAll, Listed, ApplicationPlane.Realizes;
    hide Backend.Maps.Valid, VerdictOf, SubjectOf;
    RealizedEnforces(k, d, policyGen, classifierGen);
    ghost var subject := identity.subjectId.value;
    HierarchyIsPublished(k, d, policyGen, classifierGen, policies, rules, identities, classes, epoch, offset, leases,
                         identity, k.maps.flows[FlowKey(subject, packet.tuple)].classId);
    mark := k.maps.MarkUsable(packet, nowNs, bytes, subject);
  }

  /**
   * The publications of a daemon keep the datapath disciplined: whatever packets do while the daemon's log is published
   * step by step, no generation changes its meaning, provided every sync waits out the grace period.
   */
  lemma DaemonKeepsDiscipline(daemon: Controller.Daemon, cpus: nat, events: seq<Event>)
    requires daemon.Valid() && Discipline.GraceRespected(cpus, events)
    requires Discipline.Carries(Discipline.Published(cpus, events), daemon.k.log)
    ensures Assumed(cpus, events) && Inv(Run(cpus, events))
  {
    hide Run, Assumed, Monotone, Inv;
    Discipline.LoggedRunIsDisciplined(cpus, events, daemon.k.log);
    DatapathSafety.RunKeepsInv(cpus, events);
  }
}
