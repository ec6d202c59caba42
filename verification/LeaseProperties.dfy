/** What the approval database keeps over every run, and what a refresh does to it. */
module LeaseProperties {
  import opened Common
  import opened Decimal
  import opened Sorting
  import opened Lease

  // ----- Lease IDs -----

  /** An ID is decided by its epoch and sequence, and decides them. */
  lemma LeaseIdInjective(e1: nat, s1: nat, e2: nat, s2: nat)
    requires LeaseId(e1, s1) == LeaseId(e2, s2)
    ensures e1 == e2 && s1 == s2
  {
    var a, b := LeaseId(e1, s1), LeaseId(e2, s2);
    var k1, k2 := 6 + |Dec(e1)|, 6 + |Dec(e2)|;
    assert a[6..k1] == Dec(e1) && b[6..k2] == Dec(e2);
    assert a[k1] == '-' && b[k2] == '-';
    assert a[k1 + 1..] == Dec(s1) && b[k2 + 1..] == Dec(s2);
    NoDashBefore(e1, s1);
    NoDashBefore(e2, s2);
    assert k1 == k2;
    DecInjective(e1, e2);
    DecInjective(s1, s2);
  }

  /** The second dash comes right after the epoch. */
  lemma NoDashBefore(epoch: nat, sequence: nat)
    ensures forall i :: 6 <= i < 6 + |Dec(epoch)| ==> LeaseId(epoch, sequence)[i] != '-'
  {
  }

  lemma LeaseIdShape(epoch: nat, sequence: nat)
    ensures IsLeaseId(LeaseId(epoch, sequence))
  {
    var id := LeaseId(epoch, sequence);
    var k := 6 + |Dec(epoch)|;
    assert id[..6] == "lease-" && id[6..k] == Dec(epoch) && id[k] == '-' && id[k + 1..] == Dec(sequence);
  }

  // ----- What filters keep -----

  lemma {:induction false} WithoutTargetElements(leases: seq<Lease>, key: string)
    ensures forall l :: l in WithoutTarget(leases, key) <==> l in leases && l.targetKey != key
    ensures |WithoutTarget(leases, key)| == |leases| <==> forall l :: l in leases ==> l.targetKey != key
  {
    if leases != [] {
      WithoutTargetElements(leases[..|leases| - 1], key);
      assert leases == leases[..|leases| - 1] + [leases[|leases| - 1]];
    }
  }

  lemma {:induction false} WithoutIdElements(leases: seq<Lease>, id: string)
    ensures forall l :: l in WithoutId(leases, id) <==> l in leases && l.id != id
    ensures |WithoutId(leases, id)| == |leases| <==> forall l :: l in leases ==> l.id != id
  {
    if leases != [] {
      WithoutIdElements(leases[..|leases| - 1], id);
      assert leases == leases[..|leases| - 1] + [leases[|leases| - 1]];
    }
  }

  predicate AllKeyed(leases: seq<Lease>) {
    forall l :: l in leases ==> l == Keyed(l)
  }

  lemma {:induction false} CandidatesElements(leases: seq<Lease>, context: Context, clock: Clock)
    requires AllKeyed(leases)
    ensures forall l :: l in Candidates(leases, context, clock) <==>
              l in leases && LeaseStatus(l, context, clock) == Active
  {
    if leases != [] {
      CandidatesElements(leases[..|leases| - 1], context, clock);
      assert leases == leases[..|leases| - 1] + [leases[|leases| - 1]];
    }
  }

  /** Appending keeps order and distinctness when the new element is above all others. */
  lemma AppendOrdered(key: Lease -> string, s: seq<Lease>, x: Lease)
    ensures Ascending(key, s) && (forall y :: y in s ==> Below(key(y), key(x))) ==> Ascending(key, s + [x])
    ensures DistinctKeys(key, s) && (forall y :: y in s ==> key(y) != key(x)) ==> DistinctKeys(key, s + [x])
  {
  }

  /** Every element before the last is below it, or has a different key. */
  lemma LastOrdered(key: Lease -> string, s: seq<Lease>, y: Lease)
    requires s != [] && y in s[..|s| - 1]
    ensures Ascending(key, s) ==> Below(key(y), key(s[|s| - 1]))
    ensures DistinctKeys(key, s) ==> key(y) != key(s[|s| - 1])
  {
  }

  lemma {:induction false} CandidatesOrdered(leases: seq<Lease>, context: Context, clock: Clock)
    requires AllKeyed(leases) && Ascending(KeyOf, leases) && DistinctKeys(IdOf, leases)
    ensures Ascending(KeyOf, Candidates(leases, context, clock))
    ensures DistinctKeys(IdOf, Candidates(leases, context, clock))
  {
    if leases != [] {
      var init, last := leases[..|leases| - 1], leases[|leases| - 1];
      CandidatesOrdered(init, context, clock);
      CandidatesElements(init, context, clock);
      var kept := Candidates(init, context, clock);
      forall y | y in kept
        ensures Below(y.targetKey, last.targetKey) && y.id != last.id
      {
        LastOrdered(KeyOf, leases, y);
        LastOrdered(IdOf, leases, y);
      }
      AppendOrdered(KeyOf, kept, last);
      AppendOrdered(IdOf, kept, last);
    }
  }

  lemma {:induction false} WithoutTargetOrdered(leases: seq<Lease>, key: string)
    requires Ascending(KeyOf, leases) && DistinctKeys(IdOf, leases)
    ensures Ascending(KeyOf, WithoutTarget(leases, key)) && DistinctKeys(IdOf, WithoutTarget(leases, key))
  {
    if leases != [] {
      var init, last := leases[..|leases| - 1], leases[|leases| - 1];
      WithoutTargetOrdered(init, key);
      WithoutTargetElements(init, key);
      var kept := WithoutTarget(init, key);
      forall y | y in kept
        ensures Below(y.targetKey, last.targetKey) && y.id != last.id
      {
        LastOrdered(KeyOf, leases, y);
        LastOrdered(IdOf, leases, y);
      }
      AppendOrdered(KeyOf, kept, last);
      AppendOrdered(IdOf, kept, last);
    }
  }

  lemma {:induction false} WithoutIdOrdered(leases: seq<Lease>, id: string)
    requires Ascending(KeyOf, leases) && DistinctKeys(IdOf, leases)
    ensures Ascending(KeyOf, WithoutId(leases, id)) && DistinctKeys(IdOf, WithoutId(leases, id))
  {
    if leases != [] {
      var init, last := leases[..|leases| - 1], leases[|leases| - 1];
      WithoutIdOrdered(init, id);
      WithoutIdElements(init, id);
      var kept := WithoutId(init, id);
      forall y | y in kept
        ensures Below(y.targetKey, last.targetKey) && y.id != last.id
      {
        LastOrdered(KeyOf, leases, y);
        LastOrdered(IdOf, leases, y);
      }
      AppendOrdered(KeyOf, kept, last);
      AppendOrdered(IdOf, kept, last);
    }
  }

  lemma {:induction false} CountAbsent(key: Lease -> string, leases: seq<Lease>, k: string)
    requires forall l :: l in leases ==> key(l) != k
    ensures KeyCount(key, leases, k) == 0
  {
    if leases != [] {
      CountAbsent(key, leases[..|leases| - 1], k);
    }
  }

  lemma {:induction false} CountOfDistinct(key: Lease -> string, leases: seq<Lease>, l: Lease)
    requires DistinctKeys(key, leases) && l in leases
    ensures KeyCount(key, leases, key(l)) == 1
  {
    var init, last := leases[..|leases| - 1], leases[|leases| - 1];
    if l == last {
      forall y | y in init
        ensures key(y) != key(l)
      {
        LastOrdered(key, leases, y);
      }
      CountAbsent(key, init, key(l));
    } else {
      assert leases == init + [last];
      LastOrdered(key, leases, l);
      CountOfDistinct(key, init, l);
    }
  }

  lemma {:induction false} UnsharedAll(leases: seq<Lease>, all: seq<Lease>)
    requires forall l :: l in leases ==> Unduplicated(l, all)
    ensures Unshared(leases, all) == leases
  {
    if leases != [] {
      UnsharedAll(leases[..|leases| - 1], all);
      assert leases == leases[..|leases| - 1] + [leases[|leases| - 1]];
    }
  }

  lemma {:induction false} UnsharedElements(leases: seq<Lease>, all: seq<Lease>)
    ensures forall l :: l in Unshared(leases, all) <==> l in leases && Unduplicated(l, all)
  {
    if leases != [] {
      UnsharedElements(leases[..|leases| - 1], all);
      assert leases == leases[..|leases| - 1] + [leases[|leases| - 1]];
    }
  }

  // ----- Refresh -----

  /** Ordered and unambiguous: the shape every stored lease list has. */
  predicate Clean(leases: seq<Lease>) {
    && |leases| <= MAX_ACTIVE_LEASES
    && AllKeyed(leases)
    && Ascending(KeyOf, leases)
    && DistinctKeys(IdOf, leases)
  }

  /** On a clean list a refresh is exactly the filter by status. */
  lemma RefreshIsFilter(db: Database, context: Context, clock: Clock)
    requires db.schemaVersion == SCHEMA_VERSION && Clean(db.leases)
    ensures Refresh(db, context, clock).leases == Candidates(db.leases, context, clock)
    ensures Clean(Refresh(db, context, clock).leases)
  {
    var kept := Candidates(db.leases, context, clock);
    CandidatesOrdered(db.leases, context, clock);
    AscendingDistinct(KeyOf, kept);
    forall l | l in kept
      ensures Unduplicated(l, kept)
    {
      CountOfDistinct(IdOf, kept, l);
      CountOfDistinct(KeyOf, kept, l);
    }
    UnsharedAll(kept, kept);
    SortOfAscending(KeyOf, kept);
  }

  /** A refresh drops exactly the leases that are expired or invalid in this context. */
  lemma RefreshDropsExactly(db: Database, context: Context, clock: Clock, l: Lease)
    requires db.schemaVersion == SCHEMA_VERSION && Clean(db.leases)
    ensures l in Refresh(db, context, clock).leases <==> l in db.leases && LeaseStatus(l, context, clock) == Active
  {
    RefreshIsFilter(db, context, clock);
    CandidatesElements(db.leases, context, clock);
  }

  lemma {:induction false} CountOnce(key: Lease -> string, s: seq<Lease>, i: nat)
    requires i < |s|
    ensures KeyCount(key, s, key(s[i])) >= 1
  {
    if i < |s| - 1 {
      CountOnce(key, s[..|s| - 1], i);
    }
  }

  lemma {:induction false} CountTwice(key: Lease -> string, s: seq<Lease>, i: nat, j: nat)
    requires i < j < |s| && key(s[i]) == key(s[j])
    ensures KeyCount(key, s, key(s[i])) >= 2
  {
    var init := s[..|s| - 1];
    if j == |s| - 1 {
      CountOnce(key, init, i);
    } else {
      CountTwice(key, init, i, j);
    }
  }

  /** Whatever the journal held, the result of a refresh is clean. */
  lemma RefreshIsClean(db: Database, context: Context, clock: Clock)
    ensures Clean(Refresh(db, context, clock).leases)
    ensures Refresh(db, context, clock).schemaVersion == SCHEMA_VERSION
    ensures forall l :: l in Refresh(db, context, clock).leases ==> LeaseStatus(l, context, clock) == Active
  {
    if db.schemaVersion == SCHEMA_VERSION && |db.leases| <= MAX_ACTIVE_LEASES {
      var all := Candidates(db.leases, context, clock);
      var kept := Unshared(all, all);
      UnsharedElements(all, all);
      UnsharedDistinct(all, all);
      SortAscending(KeyOf, kept);
      SortMembers(kept);
      SortDistinctIds(kept);
    }
  }

  lemma SortMembers(s: seq<Lease>)
    ensures forall l :: l in Sort(KeyOf, s) <==> l in s
  {
    SortElements(KeyOf, s);
    forall l
      ensures l in Sort(KeyOf, s) <==> l in s
    {
      assert l in multiset(Sort(KeyOf, s)) <==> l in multiset(s);
    }
  }

  /** Unshared candidates have pairwise different IDs and targets. */
  lemma {:induction false} UnsharedDistinct(leases: seq<Lease>, all: seq<Lease>)
    requires leases <= all
    ensures DistinctKeys(IdOf, Unshared(leases, all)) && DistinctKeys(KeyOf, Unshared(leases, all))
  {
    if leases != [] {
      var init, last := leases[..|leases| - 1], leases[|leases| - 1];
      assert init <= all;
      UnsharedDistinct(init, all);
      UnsharedElements(init, all);
      var kept := Unshared(init, all);
      if Unduplicated(last, all) {
        forall y | y in kept
          ensures y.id != last.id && y.targetKey != last.targetKey
        {
          var i :| 0 <= i < |init| && init[i] == y;
          assert all[i] == y && all[|leases| - 1] == last;
          if y.id == last.id { CountTwice(IdOf, all, i, |leases| - 1); }
          if y.targetKey == last.targetKey { CountTwice(KeyOf, all, i, |leases| - 1); }
        }
        AppendOrdered(IdOf, kept, last);
        AppendOrdered(KeyOf, kept, last);
      }
    }
  }

  lemma DistinctByMultiset(key: Lease -> string, s: seq<Lease>, t: seq<Lease>)
    requires DistinctKeys(key, s) && multiset(s) == multiset(t)
    ensures DistinctKeys(key, t)
  {
    forall i, j | 0 <= i < j < |t|
      ensures key(t[i]) != key(t[j])
    {
      assert t == t[..i] + [t[i]] + t[i + 1..j] + [t[j]] + t[j + 1..];
      assert t[i] in multiset(s) && t[j] in multiset(s);
      var p :| 0 <= p < |s| && s[p] == t[i];
      var q :| 0 <= q < |s| && s[q] == t[j];
      if t[i] == t[j] {
        assert multiset(t)[t[i]] >= 2;
        DistinctMultiplicity(key, s, p);
      } else {
        assert p != q;
      }
    }
  }

  lemma {:induction false} DistinctMultiplicity(key: Lease -> string, s: seq<Lease>, p: nat)
    requires DistinctKeys(key, s) && p < |s|
    ensures multiset(s)[s[p]] == 1
  {
    assert s == s[..p] + [s[p]] + s[p + 1..];
    forall y | y in s[..p] || y in s[p + 1..]
      ensures y != s[p]
    {
      var i :| 0 <= i < |s| && i != p && s[i] == y;
    }
    assert s[p] !in multiset(s[..p]) && s[p] !in multiset(s[p + 1..]);
    assert multiset(s) == multiset(s[..p]) + multiset{s[p]} + multiset(s[p + 1..]);
  }

  lemma SortDistinctIds(s: seq<Lease>)
    requires DistinctKeys(IdOf, s)
    ensures DistinctKeys(IdOf, Sort(KeyOf, s))
  {
    SortElements(KeyOf, s);
    DistinctByMultiset(IdOf, s, Sort(KeyOf, s));
  }

  /** Refreshing twice at one instant is refreshing once, for every journal content. */
  lemma RefreshIdempotent(db: Database, context: Context, clock: Clock)
    ensures Refresh(Refresh(db, context, clock), context, clock) == Refresh(db, context, clock)
  {
    var once := Refresh(db, context, clock);
    RefreshIsClean(db, context, clock);
    RefreshIsFilter(once, context, clock);
    CandidatesKeepAll(once.leases, context, clock);
  }

  lemma {:induction false} CandidatesKeepAll(leases: seq<Lease>, context: Context, clock: Clock)
    requires forall l :: l in leases ==> l == Keyed(l) && LeaseStatus(l, context, clock) == Active
    ensures Candidates(leases, context, clock) == leases
  {
    hide LeaseStatus, Keyed;
    if leases != [] {
      CandidatesKeepAll(leases[..|leases| - 1], context, clock);
      assert leases == leases[..|leases| - 1] + [leases[|leases| - 1]];
    }
  }

  // ----- Runs -----

  datatype Op =
    | OpCreate(request: Request, context: Context, clock: Clock)
    | OpRevoke(id: string)
    | OpRefresh(context: Context, clock: Clock)

  /** One operation; a refused one leaves the database as it was. */
  function Step(db: Database, op: Op): Database {
    match op
    case OpCreate(request, context, clock) =>
      var r := Created(db, request, context, clock);
      if r.Some? then r.value else db
    case OpRevoke(id) =>
      var r := Revoked(db, id);
      if r.Some? then r.value else db
    case OpRefresh(context, clock) => Refresh(db, context, clock)
  }

  function Grants(db: Database, op: Op): nat {
    if op.OpCreate? && Created(db, op.request, op.context, op.clock).Some? then 1 else 0
  }

  function Run(db: Database, ops: seq<Op>): Database {
    if ops == [] then db else Step(Run(db, ops[..|ops| - 1]), ops[|ops| - 1])
  }

  function TotalGrants(db: Database, ops: seq<Op>): nat {
    if ops == [] then 0
    else TotalGrants(db, ops[..|ops| - 1]) + Grants(Run(db, ops[..|ops| - 1]), ops[|ops| - 1])
  }

  /** The ID was issued by one of the first `grants` creations. */
  ghost predicate Issued(id: string, grants: nat) {
    exists e: nat, s: nat :: 1 <= s <= grants && id == LeaseId(e, s)
  }

  /** What every reachable database satisfies after `grants` successful creations. */
  ghost predicate Inv(db: Database, grants: nat) {
    && db.schemaVersion == SCHEMA_VERSION
    && Clean(db.leases)
    && db.nextId == NextSequence(grants)
    && forall l :: l in db.leases ==> Issued(l.id, grants)
  }

  lemma IssuedLater(id: string, grants: nat, more: nat)
    requires Issued(id, grants) && grants <= more
    ensures Issued(id, more)
  {
  }

  lemma FreshId(id: string, grants: nat, epoch: nat)
    requires Issued(id, grants)
    ensures id != LeaseId(epoch, grants + 1)
  {
    var e: nat, s: nat :| 1 <= s <= grants && id == LeaseId(e, s);
    if id == LeaseId(epoch, grants + 1) {
      LeaseIdInjective(e, s, epoch, grants + 1);
    }
  }

  lemma AppendedElements(s: seq<Lease>, x: Lease)
    ensures forall l :: l in Sort(KeyOf, s + [x]) <==> l in s || l == x
  {
    SortMembers(s + [x]);
  }

  /** A granted approval joins the list in order; only its own target's older lease goes. */
  lemma CreateKeepsInv(db: Database, request: Request, context: Context, clock: Clock, grants: nat)
    requires Inv(db, grants) && grants < MAX_UINT32
    requires Created(db, request, context, clock).Some?
    ensures Inv(Created(db, request, context, clock).value, grants + 1)
    ensures forall l :: l in Created(db, request, context, clock).value.leases <==>
              l == NewLease(db, request, context, clock) || (l in db.leases && l.targetKey != RequestKey(request))
  {
    var x := NewLease(db, request, context, clock);
    var kept := WithoutTarget(db.leases, x.targetKey);
    WithoutTargetElements(db.leases, x.targetKey);
    WithoutTargetOrdered(db.leases, x.targetKey);
    AscendingDistinct(KeyOf, kept);
    forall l | l in kept
      ensures l.id != x.id && Issued(l.id, grants + 1)
    {
      FreshId(l.id, grants, clock.epoch);
      IssuedLater(l.id, grants, grants + 1);
    }
    assert Issued(x.id, grants + 1) by { assert x.id == LeaseId(clock.epoch, grants + 1); }
    AppendOrdered(KeyOf, kept, x);
    AppendOrdered(IdOf, kept, x);
    SortAscending(KeyOf, kept + [x]);
    SortDistinctIds(kept + [x]);
    AppendedElements(kept, x);
  }

  lemma RevokeKeepsInv(db: Database, id: string, grants: nat)
    requires Inv(db, grants)
    ensures Inv(db.(leases := WithoutId(db.leases, id)), grants)
  {
    WithoutIdElements(db.leases, id);
    WithoutIdOrdered(db.leases, id);
  }

  /** Revoking succeeds exactly for a known ID and removes exactly that lease. */
  lemma RevokeRemovesExactly(db: Database, id: string, l: Lease)
    ensures Revoked(db, id).Some? <==> exists k :: k in db.leases && k.id == id
    ensures Revoked(db, id).Some? ==> (l in Revoked(db, id).value.leases <==> l in db.leases && l.id != id)
  {
    WithoutIdElements(db.leases, id);
  }

  lemma StepKeepsInv(db: Database, op: Op, grants: nat)
    requires Inv(db, grants) && grants + Grants(db, op) <= MAX_UINT32
    ensures Inv(Step(db, op), grants + Grants(db, op))
  {
    hide Inv;
    match op
    case OpCreate(request, context, clock) =>
      if Created(db, request, context, clock).Some? {
        CreateKeepsInv(db, request, context, clock, grants);
      }
    case OpRevoke(id) =>
      RevokeKeepsInv(db, id, grants);
    case OpRefresh(context, clock) =>
      RefreshKeepsInv(db, context, clock, grants);
  }

  /** The stored sequence number is one that a refresh keeps. */
  lemma NextStays(grants: nat)
    requires grants <= MAX_UINT32
    ensures ParsedNextId(NextSequence(grants)) == NextSequence(grants)
  {
  }

  /** A refresh only drops leases. */
  lemma RefreshKeepsInv(db: Database, context: Context, clock: Clock, grants: nat)
    requires Inv(db, grants) && grants <= MAX_UINT32
    ensures Inv(Step(db, OpRefresh(context, clock)), grants)
  {
    assert AllKeyed(db.leases) && |db.leases| <= MAX_ACTIVE_LEASES;
    NextStays(grants);
    hide Clean, Issued, Candidates, LeaseStatus, NextSequence, Unshared;
    RefreshIsFilter(db, context, clock);
    CandidatesElements(db.leases, context, clock);
  }

  /** Over every run with fewer than 2^32 creations the database stays bounded, sorted and unambiguous. */
  lemma {:induction false} RunKeepsInv(ops: seq<Op>)
    requires TotalGrants(EmptyDatabase(), ops) <= MAX_UINT32
    ensures Inv(Run(EmptyDatabase(), ops), TotalGrants(EmptyDatabase(), ops))
    ensures |Run(EmptyDatabase(), ops).leases| <= MAX_ACTIVE_LEASES
  {
    if ops == [] {
    } else {
      var init := ops[..|ops| - 1];
      RunKeepsInv(init);
      StepKeepsInv(Run(EmptyDatabase(), init), ops[|ops| - 1], TotalGrants(EmptyDatabase(), init));
    }
  }

  /** The stored numbers of a lease fit the journal's unsigned 32-bit fields. */
  predicate Representable(l: Lease) {
    InRange(l.createdAt) && InRange(l.expiresAt) && l.monotonicDeadline.Some? && InRange(l.monotonicDeadline.value)
  }

  /** A lease just created survives a refresh exactly while its clocks are in range and it has not run out. */
  lemma CreatedLeaseSurvives(db: Database, request: Request, context: Context, clock: Clock, later: Clock, grants: nat)
    requires Inv(db, grants) && grants < MAX_UINT32
    requires Created(db, request, context, clock).Some?
    requires later.endOfDay == clock.endOfDay
    ensures var x := NewLease(db, request, context, clock);
            x in Refresh(Created(db, request, context, clock).value, context, later).leases <==>
              Representable(x) && later.epoch >= CLOCK_VALID_AFTER && later.epoch < x.expiresAt
              && later.monotonic.Some? && later.monotonic.value < x.monotonicDeadline.value
  {
    var x := NewLease(db, request, context, clock);
    var next := Created(db, request, context, clock).value;
    CreateKeepsInv(db, request, context, clock, grants);
    RefreshDropsExactly(next, context, later, x);
    LeaseIdShape(clock.epoch, ParsedNextId(db.nextId));
    assert WellFormed(x, context, later.endOfDay) <==> Representable(x);
  }
}
