/** Resolution of static expressions and live DNS observations into one hint per runtime key. */
module Observations {
  import opened Common
  import opened Sorting
  import opened ClassGraph
  import opened Hints
  import opened Fusion

  datatype Primitive = DomainExact | DomainSuffix | TcpPort | UdpPort | Ipv4Prefix | Ipv6Prefix

  /** One compiled expression of a profile. */
  datatype Entry = Entry(primitive: Primitive, value: string, profile: string, hint: Hint)

  /** An address learnt for a domain, in one observation generation, until an instant. */
  datatype Observation = Observation(dns: bool, domain: string, ipv4: bool, address: string, generation: int, expiresAt: int)

  datatype Key = Key(primitive: Primitive, value: string)

  datatype Model = Model(classes: Classes, ir: seq<Entry>)

  ghost predicate ValidModel(m: Model) {
    WellFormed(m.classes) && forall i :: 0 <= i < |m.ir| ==> ValidHint(m.classes, m.ir[i].hint)
  }

  predicate IsDomain(p: Primitive) {
    p == DomainExact || p == DomainSuffix
  }

  // ----- Domain evidence -----

  /** How specifically an expression matches a domain; negative when it does not match. */
  function Score(e: Entry, domain: string): int {
    if e.primitive == DomainExact && domain == e.value then 100000 + |e.value|
    else if e.primitive == DomainSuffix && |domain| > |e.value|
         && domain[|domain| - |e.value| - 1..] == "." + e.value then |e.value|
    else -1
  }

  datatype Scored = Scored(selected: seq<Entry>, score: int)

  function ScoreStep(s: Scored, e: Entry, domain: string): Scored {
    var current := Score(e, domain);
    if current > s.score then Scored([e], current)
    else if current >= 0 && current == s.score then s.(selected := s.selected + [e])
    else s
  }

  function ScoreFold(ir: seq<Entry>, domain: string): Scored {
    if ir == [] then Scored([], -1) else ScoreStep(ScoreFold(ir[..|ir| - 1], domain), ir[|ir| - 1], domain)
  }

  function DomainEntries(ir: seq<Entry>, domain: string): seq<Entry> {
    ScoreFold(ir, domain).selected
  }

  /** Only the most specific matching expressions are evidence for a domain, and all of them are. */
  lemma {:induction false} DomainEntriesAreMostSpecific(ir: seq<Entry>, domain: string)
    ensures var s := ScoreFold(ir, domain);
            && s.score >= -1
            && (forall e :: e in ir ==> Score(e, domain) <= s.score)
            && (forall e :: e in s.selected <==> e in ir && Score(e, domain) >= 0 && Score(e, domain) == s.score)
  {
    if ir != [] {
      var init := ir[..|ir| - 1];
      DomainEntriesAreMostSpecific(init, domain);
      assert ir == init + [ir[|ir| - 1]];
    }
  }

  /** domain_claims */
  method DomainClaims(model: Model, domain: string) returns (selected: seq<Entry>)
    ensures selected == DomainEntries(model.ir, domain)
  {
    var score := -1;
    selected := [];
    for i := 0 to |model.ir|
      invariant Scored(selected, score) == ScoreFold(model.ir[..i], domain)
    {
      assert model.ir[..i + 1][..i] == model.ir[..i];
      var entry := model.ir[i];
      var current := -1;
      if entry.primitive == DomainExact && domain == entry.value {
        current := 100000 + |entry.value|;
      } else if entry.primitive == DomainSuffix && |domain| > |entry.value|
        && domain[|domain| - |entry.value| - 1..] == "." + entry.value {
        current := |entry.value|;
      }
      if current > score {
        selected, score := [entry], current;
      } else if current >= 0 && current == score {
        selected := selected + [entry];
      }
    }
    assert model.ir[..|model.ir|] == model.ir;
  }

  function EntryClaim(e: Entry): Claim {
    Claim(Some(e.hint), e.profile)
  }

  function EntryClaims(entries: seq<Entry>): (r: seq<Claim>)
    ensures |r| == |entries|
    ensures forall i :: 0 <= i < |r| ==> r[i] == EntryClaim(entries[i])
  {
    seq(|entries|, i requires 0 <= i < |entries| => EntryClaim(entries[i]))
  }

  // ----- Profiles of a merge -----

  function Unique(values: seq<string>): (r: seq<string>)
    ensures values != [] ==> r != []
  {
    if values == [] then []
    else
      var init := Unique(values[..|values| - 1]);
      var last := values[|values| - 1];
      if last in init then init else init + [last]
  }

  function ProfilesOf(claims: seq<Claim>): (r: seq<string>)
    ensures claims != [] ==> r != []
  {
    Sort(Self, Unique(seq(|claims|, i requires 0 <= i < |claims| => claims[i].profile)))
  }

  function Spread(hint: Hint, profiles: seq<string>): (r: seq<Claim>)
    ensures |r| == |profiles|
    ensures forall i :: 0 <= i < |r| ==> r[i].hint == Some(hint)
  {
    seq(|profiles|, i requires 0 <= i < |profiles| => Claim(Some(hint), profiles[i]))
  }

  // ----- Which claims concern a key -----

  function StaticClaims(ir: seq<Entry>, k: Key): seq<Claim> {
    if ir == [] then []
    else
      var init := StaticClaims(ir[..|ir| - 1], k);
      var e := ir[|ir| - 1];
      if !IsDomain(e.primitive) && Key(e.primitive, e.value) == k then init + [EntryClaim(e)] else init
  }

  predicate Live(o: Observation, epoch: int, generation: int) {
    o.generation == generation && o.expiresAt > epoch && o.dns
  }

  function ObservationKey(o: Observation): Key {
    if o.ipv4 then Key(Ipv4Prefix, o.address + "/32") else Key(Ipv6Prefix, o.address + "/128")
  }

  /** What one observation says, claim by claim. */
  function RawClaims(model: Model, o: Observation, epoch: int, generation: int, k: Key): seq<Claim> {
    if Live(o, epoch, generation) && ObservationKey(o) == k then EntryClaims(DomainEntries(model.ir, o.domain)) else []
  }

  /** What resolution adds for one observation: its merge, once per profile. */
  ghost function Summaries(model: Model, o: Observation, epoch: int, generation: int, k: Key): seq<Claim> {
    var raw := RawClaims(model, o, epoch, generation, k);
    if raw == [] then [] else Spread(Merge(model.classes, raw).hint, ProfilesOf(raw))
  }

  function AllRaw(model: Model, os: seq<Observation>, epoch: int, generation: int, k: Key): seq<Claim> {
    if os == [] then StaticClaims(model.ir, k)
    else AllRaw(model, os[..|os| - 1], epoch, generation, k) + RawClaims(model, os[|os| - 1], epoch, generation, k)
  }

  ghost function AllSummaries(model: Model, os: seq<Observation>, epoch: int, generation: int, k: Key): seq<Claim> {
    if os == [] then StaticClaims(model.ir, k)
    else AllSummaries(model, os[..|os| - 1], epoch, generation, k) + Summaries(model, os[|os| - 1], epoch, generation, k)
  }

  // ----- resolve -----

  /** The group table holds exactly the claims collected so far for each key. */
  ghost predicate Holds(order: seq<Key>, groups: map<Key, seq<Claim>>, model: Model, os: seq<Observation>, epoch: int,
                        generation: int) {
    && (forall k :: k in order <==> k in groups)
    && (forall k :: GroupOf(groups, k) == AllSummaries(model, os, epoch, generation, k))
    && (forall k :: k in groups ==> groups[k] != [])
  }

  function GroupOf(groups: map<Key, seq<Claim>>, k: Key): seq<Claim> {
    if k in groups then groups[k] else []
  }

  /** add_group_claim */
  function AddClaim(groups: map<Key, seq<Claim>>, k: Key, claim: Claim): map<Key, seq<Claim>> {
    groups[k := GroupOf(groups, k) + [claim]]
  }

  method AddStatic(model: Model, epoch: int, generation: int) returns (order: seq<Key>, groups: map<Key, seq<Claim>>)
    ensures Holds(order, groups, model, [], epoch, generation)
  {
    order, groups := [], map[];
    for i := 0 to |model.ir|
      invariant forall k :: k in order <==> k in groups
      invariant forall k :: GroupOf(groups, k) == StaticClaims(model.ir[..i], k)
      invariant forall k :: k in groups ==> groups[k] != []
    {
      assert model.ir[..i + 1][..i] == model.ir[..i];
      var e := model.ir[i];
      if !IsDomain(e.primitive) {
        var k := Key(e.primitive, e.value);
        if k !in groups { order := order + [k]; }
        groups := AddClaim(groups, k, EntryClaim(e));
      }
    }
    assert model.ir[..|model.ir|] == model.ir;
  }

  method AddSpread(order0: seq<Key>, groups0: map<Key, seq<Claim>>, k: Key, hint: Hint, profiles: seq<string>)
    returns (order: seq<Key>, groups: map<Key, seq<Claim>>)
    requires forall q :: q in order0 <==> q in groups0
    requires profiles != []
    ensures forall q :: q in order <==> q in groups
    ensures groups == groups0[k := GroupOf(groups0, k) + Spread(hint, profiles)]
  {
    order := if k in groups0 then order0 else order0 + [k];
    groups := groups0;
    for i := 0 to |profiles|
      invariant i == 0 ==> groups == groups0
      invariant i > 0 ==> groups == groups0[k := GroupOf(groups0, k) + Spread(hint, profiles[..i])]
    {
      var base := GroupOf(groups0, k);
      assert Spread(hint, profiles[..i + 1]) == Spread(hint, profiles[..i]) + [Claim(Some(hint), profiles[i])];
      assert base + Spread(hint, profiles[..i + 1]) == base + Spread(hint, profiles[..i]) + [Claim(Some(hint), profiles[i])];
      assert i == 0 ==> base + Spread(hint, profiles[..i + 1]) == base + [Claim(Some(hint), profiles[i])];
      groups := AddClaim(groups, k, Claim(Some(hint), profiles[i]));
    }
    assert profiles[..|profiles|] == profiles;
  }

  /** Adding one observation's summaries keeps the group table exact. */
  lemma GroupStep(model: Model, os: seq<Observation>, o: Observation, epoch: int, generation: int,
                  order0: seq<Key>, groups0: map<Key, seq<Claim>>, order: seq<Key>, groups: map<Key, seq<Claim>>, key: Key)
    requires Holds(order0, groups0, model, os, epoch, generation)
    requires forall q :: q in order <==> q in groups
    requires forall k :: k != key ==> Summaries(model, o, epoch, generation, k) == []
    requires var more := Summaries(model, o, epoch, generation, key);
             groups == if more == [] then groups0 else groups0[key := GroupOf(groups0, key) + more]
    ensures Holds(order, groups, model, os + [o], epoch, generation)
  {
    hide Summaries, AllSummaries;
    var all := os + [o];
    var more := Summaries(model, o, epoch, generation, key);
    forall k
      ensures GroupOf(groups, k) == AllSummaries(model, all, epoch, generation, k)
    {
      AllSummariesStep(model, os, o, epoch, generation, k);
    }
  }

  lemma AllSummariesStep(model: Model, os: seq<Observation>, o: Observation, epoch: int, generation: int, k: Key)
    ensures AllSummaries(model, os + [o], epoch, generation, k) ==
            AllSummaries(model, os, epoch, generation, k) + Summaries(model, o, epoch, generation, k)
  {
  }

  method AddObservation(model: Model, ghost os: seq<Observation>, o: Observation, epoch: int, generation: int,
                        order0: seq<Key>, groups0: map<Key, seq<Claim>>)
    returns (order: seq<Key>, groups: map<Key, seq<Claim>>)
    requires Holds(order0, groups0, model, os, epoch, generation)
    ensures Holds(order, groups, model, os + [o], epoch, generation)
  {
    order, groups := order0, groups0;
    var key := ObservationKey(o);
    if o.generation == generation && o.expiresAt > epoch && o.dns {
      var entries := DomainClaims(model, o.domain);
      if entries != [] {
        var claims := EntryClaims(entries);
        var result := MergeClaims(model.classes, claims);
        order, groups := AddSpread(order0, groups0, key, result.hint, ProfilesOf(claims));
      }
    }
    GroupStep(model, os, o, epoch, generation, order0, groups0, order, groups, key);
  }

  method Group(model: Model, os: seq<Observation>, epoch: int, generation: int)
    returns (order: seq<Key>, groups: map<Key, seq<Claim>>)
    ensures Holds(order, groups, model, os, epoch, generation)
  {
    order, groups := AddStatic(model, epoch, generation);
    for i := 0 to |os|
      invariant Holds(order, groups, model, os[..i], epoch, generation)
    {
      assert os[..i + 1] == os[..i] + [os[i]];
      order, groups := AddObservation(model, os[..i], os[i], epoch, generation, order, groups);
    }
    assert os[..|os|] == os;
  }

  /** resolve: one merged result per key that has any evidence. */
  method Resolve(model: Model, os: seq<Observation>, epoch: int, generation: int) returns (semantic: map<Key, Merged>)
    ensures forall k :: k in semantic <==> AllSummaries(model, os, epoch, generation, k) != []
    ensures forall k :: k in semantic ==>
              semantic[k] == Merge(model.classes, AllSummaries(model, os, epoch, generation, k))
  {
    var order, groups := Group(model, os, epoch, generation);
    semantic := map[];
    for i := 0 to |order|
      invariant forall k :: k in semantic <==> k in order[..i]
      invariant forall k :: k in semantic ==> k in groups && semantic[k] == Merge(model.classes, groups[k])
    {
      assert order[i] in groups;
      assert order[..i + 1] == order[..i] + [order[i]];
      var result := MergeClaims(model.classes, groups[order[i]]);
      semantic := semantic[order[i] := result];
    }
    assert order[..|order|] == order;
  }

  // ----- Two-level fusion equals one-level fusion -----

  lemma {:induction false} StaticClaimsValid(model: Model, ir: seq<Entry>, k: Key)
    requires forall i :: 0 <= i < |ir| ==> ValidHint(model.classes, ir[i].hint)
    ensures ValidClaims(model.classes, StaticClaims(ir, k))
  {
    if ir != [] {
      StaticClaimsValid(model, ir[..|ir| - 1], k);
    }
  }

  lemma RawClaimsValid(model: Model, o: Observation, epoch: int, generation: int, k: Key)
    requires ValidModel(model)
    ensures ValidClaims(model.classes, RawClaims(model, o, epoch, generation, k))
  {
    var entries := DomainEntries(model.ir, o.domain);
    DomainEntriesAreMostSpecific(model.ir, o.domain);
    forall i | 0 <= i < |entries|
      ensures ValidHint(model.classes, entries[i].hint)
    {
      assert entries[i] in entries;
      var j :| 0 <= j < |model.ir| && model.ir[j] == entries[i];
    }
  }

  lemma {:induction false} AllRawValid(model: Model, os: seq<Observation>, epoch: int, generation: int, k: Key)
    requires ValidModel(model)
    ensures ValidClaims(model.classes, AllRaw(model, os, epoch, generation, k))
  {
    if os == [] {
      StaticClaimsValid(model, model.ir, k);
    } else {
      AllRawValid(model, os[..|os| - 1], epoch, generation, k);
      RawClaimsValid(model, os[|os| - 1], epoch, generation, k);
    }
  }

  /** One observation's summaries refine its raw claims, within any larger pool of claims. */
  lemma SummariesRefine(model: Model, raw: seq<Claim>, fine: seq<Claim>)
    requires raw != [] && forall c :: c in raw ==> c in fine
    ensures var s := Spread(Merge(model.classes, raw).hint, ProfilesOf(raw));
            && (forall i :: 0 <= i < |raw| ==> CoveredBy(model.classes, fine, raw[i], s))
            && (forall j :: 0 <= j < |s| ==> DrawnFrom(model.classes, s[j], fine))
  {
    var s := Spread(Merge(model.classes, raw).hint, ProfilesOf(raw));
    forall j | 0 <= j < |s|
      ensures Summarises(model.classes, s[j], raw)
    {
    }
    forall i | 0 <= i < |raw|
      ensures CoveredBy(model.classes, fine, raw[i], s)
    {
      assert raw[i] in raw && Summarises(model.classes, s[0], raw);
      assert StandsFor(model.classes, s[0], raw[i], fine);
    }
    forall j | 0 <= j < |s|
      ensures DrawnFrom(model.classes, s[j], fine)
    {
      assert raw[0] in raw && Summarises(model.classes, s[j], raw);
      assert StandsFor(model.classes, s[j], raw[0], fine);
    }
  }

  lemma StandsForMore(classes: Classes, coarse: Claim, claim: Claim, fine: seq<Claim>, more: seq<Claim>)
    requires StandsFor(classes, coarse, claim, fine) && forall c :: c in fine ==> c in more
    ensures StandsFor(classes, coarse, claim, more)
  {
  }

  /** Cover and draw only improve when the claims on either side grow. */
  lemma CoverMore(classes: Classes, fine: seq<Claim>, more: seq<Claim>, claim: Claim, coarse: seq<Claim>, all: seq<Claim>)
    requires CoveredBy(classes, fine, claim, coarse)
    requires (forall c :: c in fine ==> c in more) && (forall c :: c in coarse ==> c in all)
    ensures CoveredBy(classes, more, claim, all)
  {
    var j :| 0 <= j < |coarse| && StandsFor(classes, coarse[j], claim, fine);
    StandsForMore(classes, coarse[j], claim, fine, more);
    assert coarse[j] in all;
    var k :| 0 <= k < |all| && all[k] == coarse[j];
  }

  lemma DrawMore(classes: Classes, coarse: Claim, fine: seq<Claim>, more: seq<Claim>)
    requires DrawnFrom(classes, coarse, fine) && forall c :: c in fine ==> c in more
    ensures DrawnFrom(classes, coarse, more)
  {
  }

  lemma RefinesConcat(classes: Classes, a: seq<Claim>, sa: seq<Claim>, b: seq<Claim>, sb: seq<Claim>)
    requires Refines(classes, a, sa) && Refines(classes, b, sb)
    ensures Refines(classes, a + b, sa + sb)
  {
    var fine, coarse := a + b, sa + sb;
    forall i | 0 <= i < |fine|
      ensures CoveredBy(classes, fine, fine[i], coarse)
    {
      if i < |a| { CoverMore(classes, a, fine, a[i], sa, coarse); }
      else { CoverMore(classes, b, fine, b[i - |a|], sb, coarse); }
    }
    forall j | 0 <= j < |coarse|
      ensures DrawnFrom(classes, coarse[j], fine)
    {
      if j < |sa| { DrawMore(classes, sa[j], a, fine); } else { DrawMore(classes, sb[j - |sa|], b, fine); }
    }
  }

  lemma RefinesSelf(classes: Classes, a: seq<Claim>)
    ensures Refines(classes, a, a)
  {
    CoverHints(classes, a, a);
    DrawHints(classes, a, a);
  }

  lemma {:induction false} AllRefine(model: Model, os: seq<Observation>, epoch: int, generation: int, k: Key)
    ensures Refines(model.classes, AllRaw(model, os, epoch, generation, k), AllSummaries(model, os, epoch, generation, k))
  {
    if os == [] {
      RefinesSelf(model.classes, StaticClaims(model.ir, k));
    } else {
      var init, o := os[..|os| - 1], os[|os| - 1];
      AllRefine(model, init, epoch, generation, k);
      var raw := RawClaims(model, o, epoch, generation, k);
      if raw != [] { SummariesRefine(model, raw, raw); }
      RefinesConcat(model.classes, AllRaw(model, init, epoch, generation, k), AllSummaries(model, init, epoch, generation, k),
                    raw, Summaries(model, o, epoch, generation, k));
    }
  }

  /** Fusing per observation first and per key afterwards equals fusing every raw claim of the key at once. */
  lemma TwoLevelFusion(model: Model, os: seq<Observation>, epoch: int, generation: int, k: Key)
    requires ValidModel(model)
    ensures Merge(model.classes, AllSummaries(model, os, epoch, generation, k))
         == Merge(model.classes, AllRaw(model, os, epoch, generation, k))
    ensures AllSummaries(model, os, epoch, generation, k) == [] <==> AllRaw(model, os, epoch, generation, k) == []
  {
    AllRawValid(model, os, epoch, generation, k);
    AllRefine(model, os, epoch, generation, k);
    EmptyTogether(model.classes, AllRaw(model, os, epoch, generation, k), AllSummaries(model, os, epoch, generation, k));
    MergeOfSummaries(model.classes, AllRaw(model, os, epoch, generation, k), AllSummaries(model, os, epoch, generation, k));
  }
}
