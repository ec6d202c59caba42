/** The authorization snapshot: what it holds, which changes become transitions, and how evidence advances it. */
module Authorization {
  import opened Common
  import opened Acceleration

  /** `None` stands for the default access entry and for the unknown-subject application entry. */
  datatype Key = AccessKey(identity: Option<string>) | ApplicationKey(identity: Option<string>, classId: nat)

  datatype Entry = Entry(subject: Option<nat>, verdict: Verdict)

  type Snapshot = map<Key, Entry>

  function ScopeOfKey(k: Key): Scope {
    if k.AccessKey? then Access else Application
  }

  // ----- effective_snapshot -----

  datatype AccessIdentity = AccessIdentity(id: string, verdict: Verdict)

  datatype Policy = Policy(identity: string, subject: nat, classId: nat, verdict: Verdict)

  /** The last subject id an application identity of this name has. */
  function ApplicationSubject(subjects: seq<(string, Option<nat>)>, id: string): Option<nat> {
    if subjects == [] then None
    else
      var n := |subjects| - 1;
      if subjects[n].0 == id then subjects[n].1 else ApplicationSubject(subjects[..n], id)
  }

  function AccessEntries(identities: seq<AccessIdentity>, subjects: seq<(string, Option<nat>)>, base: Snapshot): Snapshot {
    if identities == [] then base
    else
      var n := |identities| - 1;
      AccessEntries(identities[..n], subjects, base)
      [AccessKey(Some(identities[n].id)) := Entry(ApplicationSubject(subjects, identities[n].id), identities[n].verdict)]
  }

  function ApplicationEntries(policies: seq<Policy>, enabled: bool, base: Snapshot): Snapshot {
    if policies == [] then base
    else
      var n := |policies| - 1;
      ApplicationEntries(policies[..n], enabled, base)
      [ApplicationKey(Some(policies[n].identity), policies[n].classId) :=
        Entry(Some(policies[n].subject), if enabled then policies[n].verdict else Allow)]
  }

  /** Where both planes of a compilation answer for a key, the snapshot holds that answer. */
  function SnapshotOf(accessEnabled: bool, defaultVerdict: Verdict, identities: seq<AccessIdentity>,
                      subjects: seq<(string, Option<nat>)>, applicationEnabled: bool, unknownVerdict: Verdict,
                      policies: seq<Policy>): Snapshot
  {
    var base: Snapshot := map[AccessKey(None) := Entry(None, if accessEnabled then defaultVerdict else Allow)];
    var access := AccessEntries(identities, subjects, base);
    var unknown := access[ApplicationKey(None, 0) := Entry(None, if applicationEnabled then unknownVerdict else Allow)];
    ApplicationEntries(policies, applicationEnabled, unknown)
  }

  /** effective_snapshot */
  method EffectiveSnapshot(accessEnabled: bool, defaultVerdict: Verdict, identities: seq<AccessIdentity>,
                           subjects: seq<(string, Option<nat>)>, applicationEnabled: bool, unknownVerdict: Verdict,
                           policies: seq<Policy>) returns (entries: Snapshot)
    ensures entries == SnapshotOf(accessEnabled, defaultVerdict, identities, subjects, applicationEnabled, unknownVerdict, policies)
  {
    entries := map[AccessKey(None) := Entry(None, if accessEnabled then defaultVerdict else Allow)];
    ghost var base := entries;
    for i := 0 to |identities|
      invariant entries == AccessEntries(identities[..i], subjects, base)
    {
      assert identities[..i + 1][..i] == identities[..i];
      var subject := FindSubject(subjects, identities[i].id);
      entries := entries[AccessKey(Some(identities[i].id)) := Entry(subject, identities[i].verdict)];
    }
    assert identities[..|identities|] == identities;
    entries := entries[ApplicationKey(None, 0) := Entry(None, if applicationEnabled then unknownVerdict else Allow)];
    ghost var unknown := entries;
    for i := 0 to |policies|
      invariant entries == ApplicationEntries(policies[..i], applicationEnabled, unknown)
    {
      assert policies[..i + 1][..i] == policies[..i];
      var p := policies[i];
      entries := entries[ApplicationKey(Some(p.identity), p.classId) :=
                           Entry(Some(p.subject), if applicationEnabled then p.verdict else Allow)];
    }
    assert policies[..|policies|] == policies;
  }

  method FindSubject(subjects: seq<(string, Option<nat>)>, id: string) returns (subject: Option<nat>)
    ensures subject == ApplicationSubject(subjects, id)
  {
    subject := None;
    for i := 0 to |subjects|
      invariant subject == ApplicationSubject(subjects[..i], id)
    {
      assert subjects[..i + 1][..i] == subjects[..i];
      if subjects[i].0 == id { subject := subjects[i].1; }
    }
    assert subjects[..|subjects|] == subjects;
  }

  /** With one policy per identity and class, each policy's verdict is in force in the snapshot. */
  lemma {:induction false} PolicyInForce(policies: seq<Policy>, enabled: bool, base: Snapshot, i: nat)
    requires i < |policies|
    requires forall j :: i < j < |policies| ==>
               policies[j].identity != policies[i].identity || policies[j].classId != policies[i].classId
    ensures var k := ApplicationKey(Some(policies[i].identity), policies[i].classId);
            var m := ApplicationEntries(policies, enabled, base);
            k in m && m[k] == Entry(Some(policies[i].subject), if enabled then policies[i].verdict else Allow)
  {
    var n := |policies| - 1;
    if i < n { PolicyInForce(policies[..n], enabled, base, i); }
  }

  /** With one identity per id, each identity's verdict is in force in the snapshot, under its application subject. */
  lemma {:induction false} AccessInForce(identities: seq<AccessIdentity>, subjects: seq<(string, Option<nat>)>,
                                         base: Snapshot, i: nat)
    requires i < |identities| && forall j :: i < j < |identities| ==> identities[j].id != identities[i].id
    ensures var k := AccessKey(Some(identities[i].id));
            var m := AccessEntries(identities, subjects, base);
            k in m && m[k] == Entry(ApplicationSubject(subjects, identities[i].id), identities[i].verdict)
  {
    var n := |identities| - 1;
    if i < n { AccessInForce(identities[..n], subjects, base, i); }
  }

  lemma {:induction false} OtherKeysStay(identities: seq<AccessIdentity>, subjects: seq<(string, Option<nat>)>,
                                         base: Snapshot, k: Key)
    requires forall i :: 0 <= i < |identities| ==> k != AccessKey(Some(identities[i].id))
    ensures var m := AccessEntries(identities, subjects, base); (k in m <==> k in base) && (k in m ==> m[k] == base[k])
  {
    if identities != [] { OtherKeysStay(identities[..|identities| - 1], subjects, base, k); }
  }

  lemma {:induction false} UnlistedKeysStay(policies: seq<Policy>, enabled: bool, base: Snapshot, k: Key)
    requires forall i :: 0 <= i < |policies| ==> k != ApplicationKey(Some(policies[i].identity), policies[i].classId)
    ensures var m := ApplicationEntries(policies, enabled, base); (k in m <==> k in base) && (k in m ==> m[k] == base[k])
  {
    if policies != [] { UnlistedKeysStay(policies[..|policies| - 1], enabled, base, k); }
  }

  /** No two access identities share an id, and no two policies an identity and class. */
  predicate Unambiguous(identities: seq<AccessIdentity>, policies: seq<Policy>) {
    && (forall i, j :: 0 <= i < j < |identities| ==> identities[i].id != identities[j].id)
    && (forall i, j :: 0 <= i < j < |policies| ==>
          policies[i].identity != policies[j].identity || policies[i].classId != policies[j].classId)
  }

  /**
   * The snapshot answers for every key: the default and unknown-subject entries with the verdict in force for them,
   * each identity and each policy with its own, and nothing else has an entry.
   */
  lemma SnapshotMeaning(accessEnabled: bool, defaultVerdict: Verdict, identities: seq<AccessIdentity>,
                        subjects: seq<(string, Option<nat>)>, applicationEnabled: bool, unknownVerdict: Verdict,
                        policies: seq<Policy>, k: Key)
    requires Unambiguous(identities, policies)
    ensures var m := SnapshotOf(accessEnabled, defaultVerdict, identities, subjects, applicationEnabled, unknownVerdict, policies);
            && (k == AccessKey(None) ==> k in m && m[k] == Entry(None, if accessEnabled then defaultVerdict else Allow))
            && (k == ApplicationKey(None, 0) ==> k in m && m[k] == Entry(None, if applicationEnabled then unknownVerdict else Allow))
            && (forall i :: 0 <= i < |identities| && k == AccessKey(Some(identities[i].id)) ==>
                  k in m && m[k] == Entry(ApplicationSubject(subjects, identities[i].id), identities[i].verdict))
            && (forall i :: 0 <= i < |policies| && k == ApplicationKey(Some(policies[i].identity), policies[i].classId) ==>
                  k in m && m[k] == Entry(Some(policies[i].subject), if applicationEnabled then policies[i].verdict else Allow))
            && (k in m ==>
                  || k == AccessKey(None) || k == ApplicationKey(None, 0)
                  || (exists i :: 0 <= i < |identities| && k == AccessKey(Some(identities[i].id)))
                  || (exists i :: 0 <= i < |policies| && k == ApplicationKey(Some(policies[i].identity), policies[i].classId)))
  {
    hide AccessEntries, ApplicationEntries, ApplicationSubject;
    var base: Snapshot := map[AccessKey(None) := Entry(None, if accessEnabled then defaultVerdict else Allow)];
    var unknown := AccessEntries(identities, subjects, base)
                   [ApplicationKey(None, 0) := Entry(None, if applicationEnabled then unknownVerdict else Allow)];
    if i :| 0 <= i < |policies| && k == ApplicationKey(Some(policies[i].identity), policies[i].classId) {
      PolicyInForce(policies, applicationEnabled, unknown, i);
    } else {
      UnlistedKeysStay(policies, applicationEnabled, unknown, k);
      if i :| 0 <= i < |identities| && k == AccessKey(Some(identities[i].id)) {
        AccessInForce(identities, subjects, base, i);
      } else {
        OtherKeysStay(identities, subjects, base, k);
      }
    }
  }

  // ----- plan_transitions -----

  ghost predicate Changed(previous: Snapshot, current: Snapshot, k: Key) {
    k in previous && k in current && previous[k].verdict != current[k].verdict
  }

  function TransitionFor(current: Snapshot, k: Key): Transition
    requires k in current
  {
    Transition(ScopeOfKey(k), match k.identity { case Some(id) => id case None => "__default__" }, current[k].subject,
               if k.ApplicationKey? then Some(k.classId) else None, current[k].verdict == Deny, false)
  }

  /** The transitions are those of exactly the changed keys, once each. */
  ghost predicate PlansExactly(ts: seq<Transition>, keys: seq<Key>, previous: Snapshot, current: Snapshot) {
    && |ts| == |keys| && (forall i, j :: 0 <= i < j < |keys| ==> keys[i] != keys[j])
    && (forall k :: k in keys <==> Changed(previous, current, k))
    && (forall i :: 0 <= i < |keys| ==> keys[i] in current && ts[i] == TransitionFor(current, keys[i]))
  }

  /** plan_transitions, in any order of the keys. */
  method PlanTransitions(previous: Snapshot, current: Snapshot) returns (ts: seq<Transition>, ghost keys: seq<Key>)
    ensures PlansExactly(ts, keys, previous, current)
  {
    ts, keys := [], [];
    var left := current.Keys;
    while left != {}
      invariant left <= current.Keys && |ts| == |keys|
      invariant forall i, j :: 0 <= i < j < |keys| ==> keys[i] != keys[j]
      invariant forall k :: k in keys <==> k !in left && Changed(previous, current, k)
      invariant forall i :: 0 <= i < |keys| ==> keys[i] in current && ts[i] == TransitionFor(current, keys[i])
      decreases |left|
    {
      var k :| k in left;
      left := left - {k};
      if k in previous && previous[k].verdict != current[k].verdict {
        ts := ts + [TransitionFor(current, k)];
        keys := keys + [k];
      }
    }
  }

  // ----- advance_authorization -----

  predicate PlaneOk(k: Key, accessOk: bool, applicationOk: bool) {
    if k.AccessKey? then accessOk else applicationOk
  }

  /** The desired entries outside `left` whose plane succeeded. */
  function Taken(desired: Snapshot, left: set<Key>, accessOk: bool, applicationOk: bool): Snapshot {
    map k | k in desired && k !in left && PlaneOk(k, accessOk, applicationOk) :: desired[k]
  }

  /** The committed snapshot after an attempt. */
  function Advanced(previous: Snapshot, desired: Snapshot, accessOk: bool, applicationOk: bool): Snapshot {
    previous + Taken(desired, {}, accessOk, applicationOk)
  }

  lemma TakenStep(desired: Snapshot, left: set<Key>, k: Key, accessOk: bool, applicationOk: bool)
    requires k in left && k in desired
    ensures Taken(desired, left - {k}, accessOk, applicationOk) ==
            if PlaneOk(k, accessOk, applicationOk) then Taken(desired, left, accessOk, applicationOk)[k := desired[k]]
            else Taken(desired, left, accessOk, applicationOk)
  {
  }

  /** advance_authorization */
  method Advance(previous: Option<Snapshot>, desired: Snapshot, accessOk: bool, applicationOk: bool)
    returns (next: Snapshot)
    ensures next == Advanced(if previous.Some? then previous.value else map[], desired, accessOk, applicationOk)
  {
    hide Taken;
    next := if previous.Some? then previous.value else map[];
    ghost var base := next;
    var left := desired.Keys;
    NothingTaken(desired, accessOk, applicationOk);
    while left != {}
      invariant left <= desired.Keys
      invariant next == base + Taken(desired, left, accessOk, applicationOk)
      decreases |left|
    {
      var k :| k in left;
      TakenStep(desired, left, k, accessOk, applicationOk);
      left := left - {k};
      if (k.AccessKey? && accessOk) || (k.ApplicationKey? && applicationOk) { next := next[k := desired[k]]; }
    }
  }

  lemma NothingTaken(desired: Snapshot, accessOk: bool, applicationOk: bool)
    ensures Taken(desired, desired.Keys, accessOk, applicationOk) == map[]
  {
  }

  // ----- Whole runs -----

  /** What one attempt wanted and which planes succeeded. */
  datatype Record = Record(desired: Snapshot, accessOk: bool, applicationOk: bool)

  function Committed(records: seq<Record>): Snapshot {
    if records == [] then map[]
    else
      var r := records[|records| - 1];
      Advanced(Committed(records[..|records| - 1]), r.desired, r.accessOk, r.applicationOk)
  }

  lemma CommittedStep(records: seq<Record>, r: Record)
    ensures Committed(records + [r]) == Advanced(Committed(records), r.desired, r.accessOk, r.applicationOk)
  {
  }

  lemma NothingCommitted()
    ensures Committed([]) == map[]
  {
  }

  /** The attempt published the key's plane with an opinion on the key. */
  predicate Publishes(r: Record, k: Key) {
    k in r.desired && PlaneOk(k, r.accessOk, r.applicationOk)
  }

  predicate LatestPublishing(records: seq<Record>, k: Key, j: nat) {
    j < |records| && Publishes(records[j], k) && forall i :: j < i < |records| ==> !Publishes(records[i], k)
  }

  /** One more attempt that does not publish the key's plane leaves the latest publishing one as it was. */
  lemma LatestStays(records: seq<Record>, k: Key, j: nat)
    requires records != [] && !Publishes(records[|records| - 1], k) && j < |records| - 1
    ensures LatestPublishing(records, k, j) <==> LatestPublishing(records[..|records| - 1], k, j)
  {
    hide Publishes;
    var init := records[..|records| - 1];
    assert forall i :: 0 <= i < |init| ==> records[i] == init[i];
  }

  /** Per key the committed snapshot holds what the latest attempt that published the key's plane wanted. */
  lemma {:induction false} CommittedIsLatestPublished(records: seq<Record>, k: Key)
    ensures k in Committed(records) <==> exists j :: 0 <= j < |records| && LatestPublishing(records, k, j)
    ensures forall j :: 0 <= j < |records| && LatestPublishing(records, k, j) ==>
              k in Committed(records) && Committed(records)[k] == records[j].desired[k]
  {
    if records != [] {
      var n := |records| - 1;
      CommittedIsLatestPublished(records[..n], k);
      if Publishes(records[n], k) {
        assert LatestPublishing(records, k, n);
      } else {
        forall j | 0 <= j < n
          ensures LatestPublishing(records, k, j) <==> LatestPublishing(records[..n], k, j)
        {
          LatestStays(records, k, j);
        }
      }
    }
  }

  /**
   * No restrictive change is lost: as long as no attempt publishes the key's plane, the committed verdict stays, so a
   * committed allow that is to become a deny is planned as a restrictive transition in every further attempt.
   */
  lemma {:induction false} RestrictionStaysPlanned(records: seq<Record>, more: seq<Record>, current: Snapshot, k: Key)
    requires k in Committed(records) && Committed(records)[k].verdict == Allow
    requires forall i :: 0 <= i < |more| ==> !Publishes(more[i], k)
    requires k in current && current[k].verdict == Deny
    ensures k in Committed(records + more) && Committed(records + more)[k].verdict == Allow
    ensures Changed(Committed(records + more), current, k) && TransitionFor(current, k).restrictive
  {
    if more == [] {
      assert records + more == records;
    } else {
      var n := |more| - 1;
      RestrictionStaysPlanned(records, more[..n], current, k);
      var all := records + more;
      assert all[..|all| - 1] == records + more[..n] && all[|all| - 1] == more[n];
    }
  }

  /** Once the key's plane publishes the deny, it is committed and plans no transition while it stays desired. */
  lemma PublishedRestrictionIsCommitted(records: seq<Record>, r: Record, current: Snapshot, k: Key)
    requires Publishes(r, k) && k in current && current[k].verdict == r.desired[k].verdict
    ensures k in Committed(records + [r]) && Committed(records + [r])[k] == r.desired[k]
    ensures !Changed(Committed(records + [r]), current, k)
  {
  }

  /**
   * A key without a committed entry plans nothing: a new identity that starts out denied takes effect without a
   * transition and so without a revocation.
   */
  lemma NewKeyPlansNothing(records: seq<Record>, current: Snapshot, k: Key)
    requires forall j :: 0 <= j < |records| ==> !Publishes(records[j], k)
    ensures !Changed(Committed(records), current, k)
  {
  }
}
