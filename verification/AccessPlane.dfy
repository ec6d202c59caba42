/**
 * The Internet-access plane: identity policy, approvals, MAC projection and the nft dispatch.
 */
module AccessPlane {
  import opened Common
  import opened Text
  import opened Sorting
  import opened Schedule
  import Lease

  /** `id` is the trimmed id, or the section name of an identity without one. */
  datatype IdentityConfig = IdentityConfig(id: string, activation: string, schedule: seq<string>)

  datatype Binding = Binding(kind: string, identity: string, value: string)

  datatype Config = Config(
    schemaSupported: bool,
    requestedEnabled: bool,
    mode: string,
    identities: seq<IdentityConfig>,
    bindings: seq<Binding>)

  datatype CompiledIdentity = CompiledIdentity(id: string, verdict: Verdict)

  datatype Compiled = Compiled(
    enabled: bool,
    whitelist: bool,
    identities: seq<CompiledIdentity>,
    nextTransition: Option<int>)

  function DefaultVerdict(whitelist: bool): Verdict {
    if whitelist then Deny else Allow
  }

  function ExceptionVerdict(whitelist: bool): Verdict {
    if whitelist then Allow else Deny
  }

  // ----- What the policy means -----

  /** The verdict an identity's activation and schedule give at one instant; anything unreadable denies. */
  function BaseVerdict(identity: IdentityConfig, whitelist: bool, epoch: int, offset: int): Verdict {
    if identity.activation == "inactive" then DefaultVerdict(whitelist)
    else if identity.activation == "always_active" then ExceptionVerdict(whitelist)
    else if identity.activation == "active_during" && Schedulable(identity.schedule, epoch) then
      if InSomeWindow(identity.schedule, WeeklyMinute(epoch, offset)) then ExceptionVerdict(whitelist)
      else DefaultVerdict(whitelist)
    else Deny
  }

  predicate Approved(leases: seq<Lease.Lease>, id: string) {
    exists i :: 0 <= i < |leases| && leases[i].scope == "access" && leases[i].identityId == id
  }

  function EffectiveVerdict(identity: IdentityConfig, leases: seq<Lease.Lease>, whitelist: bool, epoch: int,
                            offset: int): Verdict {
    if Approved(leases, identity.id) then Allow else BaseVerdict(identity, whitelist, epoch, offset)
  }

  /** The identity IDs bound to a MAC, in configuration order. */
  function Owners(bindings: seq<Binding>, mac: string): seq<string> {
    if bindings == [] then []
    else
      var init := Owners(bindings[..|bindings| - 1], mac);
      var b := bindings[|bindings| - 1];
      if b.kind == "mac" && NormalizeMac(b.value) == Some(mac) then init + [Trim(b.identity)] else init
  }

  predicate Names(identities: seq<CompiledIdentity>, i: int, id: string) {
    0 <= i < |identities| && identities[i].id == id
  }

  /** Exactly one identity has the ID, and it is at position `i`. */
  ghost predicate NamesOnly(identities: seq<CompiledIdentity>, i: int, id: string) {
    Names(identities, i, id) && forall k :: Names(identities, k, id) ==> k == i
  }

  /** The verdict a MAC gets: denied when ambiguous or dangling, else its identity's, else the mode's default. */
  ghost function MacVerdict(identities: seq<CompiledIdentity>, whitelist: bool, owners: seq<string>): Verdict {
    if owners == [] then DefaultVerdict(whitelist)
    else if |owners| > 1 || owners[0] == "" then Deny
    else if exists i :: NamesOnly(identities, i, owners[0]) then
      var i :| NamesOnly(identities, i, owners[0]);
      identities[i].verdict
    else Deny
  }

  // ----- MAC text -----

  predicate IsHex(c: char) {
    '0' <= c <= '9' || 'a' <= c <= 'f'
  }

  /** Six lower-case hexadecimal pairs separated by colons. */
  predicate MacShape(s: string) {
    |s| == 17 && forall i :: 0 <= i < 17 ==> if i % 3 == 2 then s[i] == ':' else IsHex(s[i])
  }

  function NormalizeMac(value: string): (r: Option<string>)
    ensures r.Some? ==> MacShape(r.value)
  {
    var mac := Lower(Trim(value));
    if MacShape(mac) then Some(mac) else None
  }

  // ----- Compilation -----

  /** The identity's verdict does not change before the announced transition. */
  ghost predicate HoldsFor(identity: IdentityConfig, whitelist: bool, offset: int, epoch: int, next: Option<int>) {
    forall t :: epoch <= t && (next.None? || t < next.value) ==>
      BaseVerdict(identity, whitelist, t, offset) == BaseVerdict(identity, whitelist, epoch, offset)
  }

  /** A scheduled identity announces an instant until which its schedule's state lasts. */
  ghost predicate Announces(identity: IdentityConfig, offset: int, epoch: int, next: Option<int>) {
    identity.activation == "active_during" && Schedulable(identity.schedule, epoch) ==>
      next.Some? && HoldsUntil(identity.schedule, offset, epoch, next.value,
                               InSomeWindow(identity.schedule, WeeklyMinute(epoch, offset)))
  }

  /** Until the announced instant the verdict does not change. */
  lemma AnnouncedHolds(identity: IdentityConfig, whitelist: bool, offset: int, epoch: int, next: Option<int>)
    requires epoch >= CLOCK_VALID_AFTER && Announces(identity, offset, epoch, next)
    ensures HoldsFor(identity, whitelist, offset, epoch, next)
  {
    hide InSomeWindow, AllWindows;
  }

  /** compile_identity */
  method CompileIdentity(identity: IdentityConfig, whitelist: bool, epoch: int, offset: int)
    returns (verdict: Verdict, nextEpoch: Option<int>)
    ensures verdict == BaseVerdict(identity, whitelist, epoch, offset)
    ensures nextEpoch.Some? ==> nextEpoch.value > epoch
    ensures Announces(identity, offset, epoch, nextEpoch)
  {
    if identity.activation == "inactive" { return DefaultVerdict(whitelist), None; }
    if identity.activation == "always_active" { return ExceptionVerdict(whitelist), None; }
    if identity.activation != "active_during" { return Deny, None; }
    var evaluation := EvaluateSchedule(identity.schedule, epoch, offset);
    if evaluation.Failed? { return Deny, None; }
    return if evaluation.active then ExceptionVerdict(whitelist) else DefaultVerdict(whitelist),
           Some(evaluation.nextEpoch);
  }

  /** An earlier announced instant is just as sound. */
  lemma HoldsForLess(identity: IdentityConfig, whitelist: bool, offset: int, epoch: int, a: Option<int>, b: Option<int>)
    requires HoldsFor(identity, whitelist, offset, epoch, a)
    requires a.Some? ==> b.Some? && b.value <= a.value
    ensures HoldsFor(identity, whitelist, offset, epoch, b)
  {
  }

  function BaseIdentity(identity: IdentityConfig, whitelist: bool, epoch: int, offset: int): CompiledIdentity {
    CompiledIdentity(identity.id, BaseVerdict(identity, whitelist, epoch, offset))
  }

  /** compile: one verdict per identity and the earliest instant at which any of them may change. */
  method Compile(config: Config, epoch: int, offset: int) returns (c: Compiled)
    ensures c.whitelist == (config.mode == "whitelist")
    ensures c.enabled <==> config.requestedEnabled && config.schemaSupported
                           && (config.mode == "blacklist" || config.mode == "whitelist")
    ensures |c.identities| == |config.identities|
    ensures forall i :: 0 <= i < |c.identities| ==>
              c.identities[i] == BaseIdentity(config.identities[i], c.whitelist, epoch, offset)
    ensures c.nextTransition.Some? ==> c.nextTransition.value > epoch
    ensures epoch >= CLOCK_VALID_AFTER ==> forall i :: 0 <= i < |config.identities| ==>
              HoldsFor(config.identities[i], c.whitelist, offset, epoch, c.nextTransition)
  {
    hide HoldsFor, BaseVerdict;
    var modeValid := config.mode == "blacklist" || config.mode == "whitelist";
    var whitelist := config.mode == "whitelist";
    var identities: seq<CompiledIdentity> := [];
    var next: Option<int> := None;
    for i := 0 to |config.identities|
      invariant |identities| == i
      invariant forall k :: 0 <= k < i ==> identities[k] == BaseIdentity(config.identities[k], whitelist, epoch, offset)
      invariant next.Some? ==> next.value > epoch
      invariant epoch >= CLOCK_VALID_AFTER ==> forall k :: 0 <= k < i ==>
                  HoldsFor(config.identities[k], whitelist, offset, epoch, next)
    {
      var verdict, nextEpoch := CompileIdentity(config.identities[i], whitelist, epoch, offset);
      ghost var was := next;
      if nextEpoch.Some? && (next.None? || nextEpoch.value < next.value) {
        next := nextEpoch;
      }
      identities := identities + [CompiledIdentity(config.identities[i].id, verdict)];
      if epoch >= CLOCK_VALID_AFTER {
        AnnouncedHolds(config.identities[i], whitelist, offset, epoch, nextEpoch);
        forall k | 0 <= k <= i
          ensures HoldsFor(config.identities[k], whitelist, offset, epoch, next)
        {
          HoldsForLess(config.identities[k], whitelist, offset, epoch, if k < i then was else nextEpoch, next);
        }
      }
    }
    return Compiled(config.requestedEnabled && config.schemaSupported && modeValid, whitelist, identities, next);
  }

  function Overlaid(identity: CompiledIdentity, leases: seq<Lease.Lease>): CompiledIdentity {
    identity.(verdict := if Approved(leases, identity.id) then Allow else identity.verdict)
  }

  /** overlay_access: approvals turn an identity's verdict into allow and never into deny. */
  method OverlayAccess(compiled: Compiled, leases: seq<Lease.Lease>) returns (c: Compiled)
    ensures c.enabled == compiled.enabled && c.whitelist == compiled.whitelist
    ensures |c.identities| == |compiled.identities|
    ensures forall i :: 0 <= i < |c.identities| ==> c.identities[i] == Overlaid(compiled.identities[i], leases)
    ensures c.nextTransition == MinInstant(compiled.nextTransition, Lease.NextExpiry(leases))
  {
    var approved: set<string> := {};
    for i := 0 to |leases|
      invariant forall id :: id in approved <==> Approved(leases[..i], id)
    {
      if leases[i].scope == "access" {
        approved := approved + {leases[i].identityId};
      }
      ApprovedStep(leases, i);
    }
    assert leases[..|leases|] == leases;
    var identities: seq<CompiledIdentity> := [];
    for i := 0 to |compiled.identities|
      invariant |identities| == i
      invariant forall k :: 0 <= k < i ==> identities[k] == Overlaid(compiled.identities[k], leases)
    {
      var identity := compiled.identities[i];
      identities := identities + [identity.(verdict := if identity.id in approved then Allow else identity.verdict)];
    }
    return compiled.(identities := identities,
                     nextTransition := MinInstant(compiled.nextTransition, Lease.NextExpiry(leases)));
  }

  lemma ApprovedStep(leases: seq<Lease.Lease>, i: nat)
    requires i < |leases|
    ensures forall id :: Approved(leases[..i + 1], id) <==>
              Approved(leases[..i], id) || (leases[i].scope == "access" && leases[i].identityId == id)
  {
    forall id
      ensures Approved(leases[..i + 1], id) <==>
              Approved(leases[..i], id) || (leases[i].scope == "access" && leases[i].identityId == id)
    {
      if Approved(leases[..i], id) {
        var k :| 0 <= k < i && leases[..i][k].scope == "access" && leases[..i][k].identityId == id;
        assert leases[..i + 1][k] == leases[..i][k];
      }
      if leases[i].scope == "access" && leases[i].identityId == id {
        assert leases[..i + 1][i] == leases[i];
      }
      if Approved(leases[..i + 1], id) {
        var k :| 0 <= k < i + 1 && leases[..i + 1][k].scope == "access" && leases[..i + 1][k].identityId == id;
        if k < i { assert leases[..i][k] == leases[..i + 1][k]; }
      }
    }
  }

  // ----- Projection -----

  /** The verdict of the only identity with this ID; denies when there is none or more than one. */
  method UniqueVerdict(identities: seq<CompiledIdentity>, whitelist: bool, owner: string) returns (verdict: Verdict)
    requires owner != ""
    ensures verdict == MacVerdict(identities, whitelist, [owner])
  {
    var count, found := 0, 0;
    for i := 0 to |identities|
      invariant count == 0 ==> forall k :: k < i ==> !Names(identities, k, owner)
      invariant count == 1 ==> 0 <= found < i && Names(identities, found, owner)
      invariant count == 1 ==> forall k :: k < i && Names(identities, k, owner) ==> k == found
      invariant count >= 2 ==> exists j, k :: j < k < i && Names(identities, j, owner) && Names(identities, k, owner)
      invariant count >= 0
    {
      if identities[i].id == owner {
        assert Names(identities, i, owner);
        count := count + 1;
        found := if count == 1 then i else found;
      }
    }
    if count == 1 {
      assert NamesOnly(identities, found, owner);
      return identities[found].verdict;
    }
    assert forall i :: !NamesOnly(identities, i, owner);
    return Deny;
  }

  /** The MACs bound so far in first-seen order, with their owners. */
  ghost predicate Grouped(order: seq<string>, byMac: map<string, seq<string>>, bindings: seq<Binding>) {
    && (forall mac :: mac in order <==> mac in byMac)
    && (forall mac :: mac in byMac ==> byMac[mac] == Owners(bindings, mac) && byMac[mac] != [])
  }

  method GroupBindings(bindings: seq<Binding>) returns (order: seq<string>, byMac: map<string, seq<string>>)
    ensures Grouped(order, byMac, bindings)
    ensures forall mac :: mac !in byMac ==> Owners(bindings, mac) == []
  {
    order, byMac := [], map[];
    for i := 0 to |bindings|
      invariant Grouped(order, byMac, bindings[..i])
      invariant forall mac :: mac !in byMac ==> Owners(bindings[..i], mac) == []
    {
      assert bindings[..i + 1][..i] == bindings[..i];
      if bindings[i].kind == "mac" {
        var mac := NormalizeMac(bindings[i].value);
        if mac.Some? {
          if mac.value !in byMac {
            order := order + [mac.value];
          }
          byMac := byMac[mac.value := (if mac.value in byMac then byMac[mac.value] else []) + [Trim(bindings[i].identity)]];
        }
      }
    }
    assert bindings[..|bindings|] == bindings;
  }

  /** The MAC must be listed: its verdict is not what unlisted MACs get. */
  ghost predicate Exceptional(compiled: Compiled, bindings: seq<Binding>, mac: string) {
    MacVerdict(compiled.identities, compiled.whitelist, Owners(bindings, mac)) != DefaultVerdict(compiled.whitelist)
  }

  /** The verdict project assigns to one bound MAC. */
  method OwnerVerdict(compiled: Compiled, owners: seq<string>) returns (verdict: Verdict)
    requires owners != []
    ensures verdict == MacVerdict(compiled.identities, compiled.whitelist, owners)
  {
    if |owners| > 1 || owners[0] == "" { return Deny; }
    assert owners == [owners[0]];
    verdict := UniqueVerdict(compiled.identities, compiled.whitelist, owners[0]);
  }

  /** project: the MACs whose verdict differs from the default. */
  method Project(compiled: Compiled, bindings: seq<Binding>) returns (exceptions: seq<string>)
    ensures forall mac :: mac in exceptions <==> compiled.enabled && Exceptional(compiled, bindings, mac)
  {
    var order, byMac := GroupBindings(bindings);
    exceptions := [];
    for i := 0 to |order|
      invariant forall mac :: mac in exceptions <==> mac in order[..i] && Exceptional(compiled, bindings, mac)
    {
      var mac := order[i];
      assert mac in byMac;
      var verdict := OwnerVerdict(compiled, byMac[mac]);
      assert order[..i + 1] == order[..i] + [mac];
      if verdict != DefaultVerdict(compiled.whitelist) && mac !in exceptions {
        exceptions := exceptions + [mac];
      }
    }
    assert order[..|order|] == order;
    SortedMembers(exceptions);
    exceptions := if compiled.enabled then Sort(Self, exceptions) else [];
  }

  lemma SortedMembers(s: seq<string>)
    ensures forall x :: x in Sort(Self, s) <==> x in s
  {
    SortElements(Self, s);
    forall x
      ensures x in Sort(Self, s) <==> x in s
    {
      assert x in multiset(Sort(Self, s)) <==> x in multiset(s);
    }
  }

  // ----- nftables -----

  /** The sets the ruleset consults. */
  datatype NftSets = NftSets(exceptions: set<string>, sources: set<string>, destinations: set<string>, whitelistMode: bool)

  /** apply_access: everything is emptied while enforcement is off. */
  function ApplyAccess(compiled: Compiled, exceptions: seq<string>, sources: set<string>, destinations: set<string>): NftSets {
    if compiled.enabled then NftSets((set m | m in exceptions), sources, destinations, compiled.whitelist)
    else NftSets({}, {}, {}, false)
  }

  /** client_access_dispatch */
  function Dispatch(sets: NftSets, mac: string): Verdict {
    if sets.whitelistMode then
      if mac in sets.exceptions then Allow else Deny
    else
      if mac in sets.exceptions then Deny else Allow
  }

  /** The forward hook: only traffic from a source to a destination interface is dispatched. */
  function Forward(sets: NftSets, iif: string, oif: string, mac: string): Verdict {
    if iif in sets.sources && oif in sets.destinations then Dispatch(sets, mac) else Allow
  }

  // ----- End to end -----

  predicate Enforced(config: Config) {
    config.requestedEnabled && config.schemaSupported && (config.mode == "blacklist" || config.mode == "whitelist")
  }

  function EffectiveIdentities(config: Config, leases: seq<Lease.Lease>, epoch: int, offset: int): (r: seq<CompiledIdentity>)
    ensures |r| == |config.identities|
    ensures forall i :: 0 <= i < |r| ==> r[i].id == config.identities[i].id
    ensures forall i :: 0 <= i < |r| ==>
      r[i].verdict == EffectiveVerdict(config.identities[i], leases, config.mode == "whitelist", epoch, offset)
  {
    seq(|config.identities|, i requires 0 <= i < |config.identities| =>
      CompiledIdentity(config.identities[i].id,
                       EffectiveVerdict(config.identities[i], leases, config.mode == "whitelist", epoch, offset)))
  }

  /** What the configuration says about one MAC, straight from bindings, schedules and approvals. */
  ghost function IntendedVerdict(config: Config, leases: seq<Lease.Lease>, epoch: int, offset: int, mac: string): Verdict {
    MacVerdict(EffectiveIdentities(config, leases, epoch, offset), config.mode == "whitelist", Owners(config.bindings, mac))
  }

  /** From configuration to ruleset: every packet gets the verdict the configuration intends for its MAC. */
  method PublishAccess(config: Config, leases: seq<Lease.Lease>, sources: set<string>, destinations: set<string>,
                       epoch: int, offset: int)
    returns (sets: NftSets)
    ensures forall iif, oif, mac :: Forward(sets, iif, oif, mac) ==
              if Enforced(config) && iif in sources && oif in destinations
              then IntendedVerdict(config, leases, epoch, offset, mac) else Allow
  {
    var base := Compile(config, epoch, offset);
    var compiled := OverlayAccess(base, leases);
    assert compiled.identities == EffectiveIdentities(config, leases, epoch, offset);
    var exceptions := Project(compiled, config.bindings);
    sets := ApplyAccess(compiled, exceptions, sources, destinations);
  }
}
