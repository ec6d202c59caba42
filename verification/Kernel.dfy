/**
 * The kernel as the control plane reaches it: the command-line tools over the datapath maps, the TC attachments and
 * the nftables scope. `log` records every publication since the maps were created, `numbered` every publication since
 * generations were last counted from the beginning.
 */
module Kernel {
  import opened Common
  import opened Hints
  import opened Tables
  import opened Datapath
  import opened Backend
  import opened Attachments

  /** What the policy signature of the controller spells out. */
  datatype PolicySignature = PolicySignature(
    unknownVerdict: Verdict, provisionalVerdict: Verdict, selectors: seq<(string, nat)>,
    policies: seq<(nat, nat, Verdict)>, limits: Limits, sources: seq<string>, destinations: seq<string>,
    tracking: bool, enforcement: bool)

  /** What the classifier signature spells out. */
  datatype ClassifierSignature = ClassifierSignature(ports: seq<(nat, nat, Hint)>, prefixes: seq<(bool, seq<bool>, Hint)>)

  datatype Publication = Publication(policyGen: nat, policy: PolicySignature, classifierGen: nat,
                                     classifier: ClassifierSignature)

  // ----- The snapshot a publication serializes -----

  function SubjectEntries(selectors: seq<(string, nat)>): seq<(Key, Val)> {
    seq(|selectors|, i requires 0 <= i < |selectors| => (SubjectKey(selectors[i].0), Subject(selectors[i].1)))
  }

  function PolicyEntries(policies: seq<(nat, nat, Verdict)>): seq<(Key, Val)> {
    seq(|policies|, i requires 0 <= i < |policies| => (PolicyKey(policies[i].0, policies[i].1), Policy(policies[i].2)))
  }

  function PortEntries(ports: seq<(nat, nat, Hint)>): (r: seq<(Key, Val)>)
    ensures NoPolicies(r)
  {
    seq(|ports|, i requires 0 <= i < |ports| => (PortKey(ports[i].0, ports[i].1), Class(ports[i].2)))
  }

  function PrefixEntries(prefixes: seq<(bool, seq<bool>, Hint)>): (r: seq<(Key, Val)>)
    ensures NoPolicies(r)
  {
    seq(|prefixes|, i requires 0 <= i < |prefixes| => (PrefixKey(prefixes[i].0, prefixes[i].1), Class(prefixes[i].2)))
  }

  predicate NoPolicies(entries: seq<(Key, Val)>) {
    forall i :: 0 <= i < |entries| ==> !entries[i].0.PolicyKey?
  }

  function Entries(p: PolicySignature, c: ClassifierSignature): seq<(Key, Val)> {
    SubjectEntries(p.selectors) + PolicyEntries(p.policies) + PortEntries(c.ports) + PrefixEntries(c.prefixes)
  }

  function SnapshotOf(u: Publication): Snapshot {
    Snapshot(Config(true, u.policy.enforcement, false, u.policyGen, u.classifierGen, u.policy.unknownVerdict,
                    u.policy.provisionalVerdict),
             Entries(u.policy, u.classifier))
  }

  /** What the policy signature alone makes its generation mean. */
  ghost function Meaning(p: PolicySignature): Era {
    Era(Policies(Contents(SubjectEntries(p.selectors) + PolicyEntries(p.policies))), p.enforcement)
  }

  lemma {:induction false} ClassifierEntriesAddNoPolicies(a: seq<(Key, Val)>, b: seq<(Key, Val)>)
    requires NoPolicies(b)
    ensures Policies(Contents(a + b)) == Policies(Contents(a))
  {
    if b == [] {
      assert a + b == a;
    } else {
      var n := |b| - 1;
      ClassifierEntriesAddNoPolicies(a, b[..n]);
      assert (a + b)[..|a + b| - 1] == a + b[..n];
      OtherKeyAddsNoPolicy(Contents(a + b[..n]), b[n].0, b[n].1);
    }
  }

  lemma OtherKeyAddsNoPolicy(t: Table, k: Key, v: Val)
    requires !k.PolicyKey?
    ensures Policies(t[k := v]) == Policies(t)
  {
  }

  /** A published generation means what its policy signature says, whatever classifier it is published with. */
  lemma MeaningOfSnapshot(u: Publication)
    ensures EraOf(SnapshotOf(u)) == Meaning(u.policy)
  {
    hide Policies, Contents;
    var a := SubjectEntries(u.policy.selectors) + PolicyEntries(u.policy.policies);
    var b := PortEntries(u.classifier.ports) + PrefixEntries(u.classifier.prefixes);
    assert Entries(u.policy, u.classifier) == a + b;
    ClassifierEntriesAddNoPolicies(a, b);
  }

  // ----- The publication log -----

  /** The later publication does not go back, and reuses a generation only for what it already meant. */
  predicate Follows(a: Publication, b: Publication) {
    && a.policyGen <= b.policyGen && a.classifierGen <= b.classifierGen
    && (a.policyGen == b.policyGen ==> a.policy == b.policy)
    && (a.classifierGen == b.classifierGen ==> a.classifier == b.classifier)
  }

  /** Generations never decrease and never change meaning. */
  predicate Monotone(log: seq<Publication>) {
    forall i, j :: 0 <= i < j < |log| ==> Follows(log[i], log[j])
  }

  /** Generation zero is that of maps nothing was ever published to. */
  predicate Numbered(u: Publication) {
    u.policyGen >= 1 && u.classifierGen >= 1
  }

  function Last(log: seq<Publication>): Publication
    requires log != []
  {
    log[|log| - 1]
  }

  lemma LogExtends(log: seq<Publication>, u: Publication)
    requires Monotone(log) && (log != [] ==> Follows(Last(log), u))
    ensures Monotone(log + [u])
  {
  }

  /** Every generation of the log means what was published under it. */
  ghost predicate HistoryOk(history: map<nat, Era>, log: seq<Publication>) {
    forall g :: g in history ==> exists i :: 0 <= i < |log| && log[i].policyGen == g && history[g] == Meaning(log[i].policy)
  }

  lemma NextKeepsMeaning(history: map<nat, Era>, log: seq<Publication>, u: Publication)
    requires Monotone(log) && HistoryOk(history, log) && (log != [] ==> Follows(Last(log), u))
    ensures KeepsEra(history, SnapshotOf(u))
    ensures HistoryOk(history[u.policyGen := EraOf(SnapshotOf(u))], log + [u])
  {
    hide Meaning, EraOf;
    MeaningOfSnapshot(u);
    LogExtends(log, u);
    var all, after := log + [u], history[u.policyGen := EraOf(SnapshotOf(u))];
    if u.policyGen in history {
      var i :| 0 <= i < |log| && log[i].policyGen == u.policyGen && history[u.policyGen] == Meaning(log[i].policy);
      assert Follows(all[i], all[|log|]);
    }
    forall g | g in after
      ensures exists i :: 0 <= i < |all| && all[i].policyGen == g && after[g] == Meaning(all[i].policy)
    {
      if g == u.policyGen {
        assert all[|log|] == u;
      } else {
        var i :| 0 <= i < |log| && log[i].policyGen == g && history[g] == Meaning(log[i].policy);
        assert all[i] == log[i];
      }
    }
  }

  /** The interfaces whose traffic the nftables scope sends through the application filter. */
  datatype Scope = Scope(sources: seq<string>, destinations: seq<string>)

  function ScopeOf(enabled: bool, sources: seq<string>, destinations: seq<string>): Scope {
    if enabled then Scope(sources, destinations) else Scope([], [])
  }

  class System {
    const maps: Maps
    const tc: Tc
    var tool: bool
    /** No call fails that could succeed. */
    var obliging: bool
    var program: Option<nat>
    var scope: Scope
    ghost var log: seq<Publication>
    ghost var numbered: seq<Publication>

    constructor ()
      ensures Valid() && log == numbered == [] && program.None? && fresh(maps) && fresh(tc)
    {
      maps := new Maps();
      tc := new Tc();
      tool, obliging := false, false;
      program, scope, log, numbered := None, Scope([], []), [], [];
    }

    /** The config record carries the last publication's generations, and while enabled all of its content. */
    ghost predicate Describes()
      reads this, maps
    {
      if log == [] then !maps.config.enabled && maps.config.policyGen == 0 && maps.config.classifierGen == 0
      else
        var u := Last(log);
        && maps.config.policyGen == u.policyGen && maps.config.classifierGen == u.classifierGen
        && (maps.config.enabled ==> Live(u))
    }

    /** The datapath runs on exactly this publication. */
    ghost predicate Live(u: Publication)
      reads this, maps
    {
      && maps.config == SnapshotOf(u).config.(slot := maps.config.slot)
      && maps.Active() == Contents(Entries(u.policy, u.classifier)) && maps.limits == u.policy.limits
    }

    ghost predicate Valid()
      reads this, maps
    {
      && maps.Valid() && Monotone(log) && HistoryOk(maps.history, log) && Describes()
      && (program.None? ==> log == []) && NumberedOk()
    }

    /** Maps that were replaced did not end the numbering: it goes on with what is published to the new ones. */
    ghost predicate NumberedOk()
      reads this
    {
      && Monotone(numbered) && (numbered != [] ==> Numbered(Last(numbered)))
      && (log != [] ==> numbered != [] && Last(numbered) == Last(log))
    }

    /** Neither the maps nor the daemon hold the generations any more. */
    ghost method Forget()
      requires Valid() && log == []
      modifies this`numbered
      ensures Valid() && numbered == []
    {
      numbered := [];
    }

    // ----- The environment -----

    /** A reboot, or someone removing the pins: maps and program are gone. */
    method LosePins()
      requires Valid()
      modifies this`program, this`log, maps
      ensures Valid() && log == [] && program.None?
    {
      maps.Reset();
      program, log := None, [];
    }

    /** A reboot leaves nothing attached either. */
    method Reboot()
      requires Valid()
      modifies this`program, this`log, maps, tc`attached
      ensures Valid() && log == [] && program.None? && tc.attached == map[]
    {
      LosePins();
      tc.attached := map[];
    }

    /** Attachments, interfaces and the scope change outside the controller; the tool is installed or removed. */
    method Disturb()
      requires Valid()
      modifies this`tool, this`obliging, this`scope, tc
      ensures Valid()
    {
      tool := *;
      obliging := *;
      scope := *;
      tc.attached := *;
      tc.interfaces := *;
    }

    // ----- The tools -----

    /** The generation floors; they are readable whenever the maps exist. */
    function Floors(): Option<(nat, nat)>
      reads this, maps
    {
      if !tool then Some((0, 0)) else if program.None? then None
      else Some((maps.config.policyGen, maps.config.classifierGen))
    }

    method Generations() returns (floors: Option<(nat, nat)>)
      ensures floors == Floors()
    {
      if !tool { return Some((0, 0)); }
      return if program.None? then None else Some((maps.config.policyGen, maps.config.classifierGen));
    }

    /** Nothing of another program is in the way at the interface's own coordinate. */
    predicate Free(iface: string)
      reads this`program, tc
    {
      && iface in tc.interfaces
      && (Place(iface, false) in tc.attached ==> program.Some? && tc.OwnedBy(program.value, Place(iface, false)))
    }

    predicate Owns(iface: string)
      reads this`program, tc
    {
      iface in tc.interfaces && program.Some? && tc.OwnedBy(program.value, Place(iface, false))
    }

    /** `ensure`: keeps a usable object, replaces an unusable one, or fails. */
    method Ensure() returns (ok: bool)
      requires Valid()
      modifies this`program, this`log, maps, tc`attached
      ensures Valid()
      ensures (program == old(program) && log == old(log) && maps.config == old(maps.config)) || log == []
      ensures ok ==> program.Some?
      ensures obliging ==> ok && forall i :: (old(Free(i)) ==> Free(i)) && (old(Owns(i)) ==> Owns(i))
      ensures obliging && old(program).Some? ==> program == old(program) && log == old(log) && maps.config == old(maps.config)
    {
      var usable: bool := *;
      if program.Some? && (usable || obliging) { return true; }
      var u: set<Place> := *;
      if obliging { u := {}; }
      ok := tc.Prune(program, {}, u, obliging);
      if !ok { return; }
      maps.Reset();
      log := [];
      var id: nat := *;
      var loaded: bool := *;
      program := if loaded || obliging then Some(id) else None;
      ok := program.Some?;
    }

    method Attach(iface: string) returns (ok: bool)
      modifies tc`attached
      ensures ok ==> Owns(iface)
      ensures obliging && program.Some? && old(Free(iface)) ==> ok
      ensures forall i :: old(Free(i)) ==> Free(i)
      ensures forall i :: old(Owns(i)) ==> Owns(i)
    {
      var u: set<Place> := *;
      if obliging { u := {}; }
      ok := tc.Attach(program, iface, u, obliging);
    }

    method Detach(iface: string) returns (ok: bool)
      modifies tc`attached
    {
      var u: set<Place> := *;
      ok := tc.Detach(program, iface, u, obliging);
    }

    /** `prune`; absent tools report no exit code. */
    method Prune(keep: seq<string>) returns (code: Option<bool>)
      modifies tc`attached
      ensures code.None? <==> !tool
      ensures code == Some(true) && program.Some? ==> tc.NothingBeyond(program.value, Names(keep))
      ensures obliging && tool && (forall i :: i in keep ==> i in tc.interfaces) ==> code == Some(true)
      ensures forall i :: i in keep && old(Owns(i)) ==> Owns(i)
    {
      if !tool { return None; }
      var u: set<Place> := *;
      if obliging { u := {}; }
      var ok := tc.Prune(program, Names(keep), u, obliging);
      code := Some(ok);
    }

    method Disable() returns (code: Option<bool>)
      requires Valid()
      modifies maps`config
      ensures Valid() && maps.config.(enabled := old(maps.config.enabled)) == old(maps.config)
      ensures maps.config.enabled ==> old(maps.config.enabled)
      ensures code.None? <==> !tool
      ensures code == Some(true) ==> !maps.config.enabled
    {
      if !tool { return None; }
      if program.None? { return Some(true); }
      var ok := maps.Disable();
      code := Some(ok);
    }

    /** The nftables scope transaction. */
    method ApplyScope(enabled: bool, sources: seq<string>, destinations: seq<string>) returns (ok: bool)
      requires Valid()
      modifies this`scope
      ensures Valid()
      ensures scope == if ok then ScopeOf(enabled, sources, destinations) else old(scope)
      ensures obliging ==> ok
    {
      ok := *;
      ok := ok || obliging;
      if ok { scope := ScopeOf(enabled, sources, destinations); }
    }

    /** `sync` of one publication, which has to follow the last one numbered. */
    method Publish(u: Publication) returns (ok: bool)
      requires Valid() && Numbered(u) && (numbered != [] ==> Follows(Last(numbered), u))
      modifies this`log, this`numbered, maps
      ensures Valid()
      ensures ok ==> log == old(log) + [u] && numbered == old(numbered) + [u] && maps.config.enabled
      ensures !ok ==> log == old(log) && numbered == old(numbered) && maps.config == old(maps.config)
      ensures obliging && program.Some? && Distinct(Entries(u.policy, u.classifier)) ==> ok
    {
      hide CacheOk, Policies, Contents, Meaning, EraOf, Monotone, HistoryOk, Follows, Distinct;
      if program.None? { return false; }
      NextKeepsMeaning(maps.history, log, u);
      ok := maps.Sync(Some((SnapshotOf(u), u.policy.limits)), obliging);
      if ok {
        LogExtends(log, u);
        LogExtends(numbered, u);
        log, numbered := log + [u], numbered + [u];
      }
    }

    /**
     * `health`: succeeds exactly when the backend can be inspected, is enabled with these generations, and every
     * coordinate it reads confirms that the program is attached at exactly these interfaces.
     */
    method Health(policyGen: nat, classifierGen: nat, expected: seq<string>)
      returns (ok: bool, ghost inspected: bool, ghost unreadable: set<Place>)
      ensures ok <==> inspected && program.Some? && maps.config.enabled && maps.config.policyGen == policyGen
                      && maps.config.classifierGen == classifierGen && tc.Verified(program.value, expected, unreadable)
      ensures ok ==> tc.ExactlyAt(program.value, Names(expected))
      ensures obliging ==> inspected && unreadable == {}
    {
      var available: bool := *;
      var u: set<Place> := *;
      if obliging { available, u := true, {}; }
      inspected, unreadable := available, u;
      if !available || program.None? || !maps.config.enabled { return false, inspected, unreadable; }
      if maps.config.policyGen != policyGen || maps.config.classifierGen != classifierGen {
        return false, inspected, unreadable;
      }
      ok := tc.VerifyAttachments(program.value, expected, u);
    }
  }
}
