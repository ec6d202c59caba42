/** The bounded Temporary Approval database: status, creation, revocation and refresh. */
module Lease {
  import opened Common
  import opened Text
  import opened Decimal
  import opened Hints
  import opened Sorting

  const MAX_ACTIVE_LEASES := 256
  const MAX_UINT32: int := 4294967295
  const SCHEMA_VERSION := 1

  datatype Lease = Lease(
    id: string,
    scope: string,
    identityId: string,
    subjectId: nat,
    classId: Option<nat>,
    targetKey: string,
    createdAt: int,
    expiresAt: int,
    monotonicDeadline: Option<int>,
    duration: string)

  datatype Database = Database(schemaVersion: int, nextId: int, leases: seq<Lease>)

  datatype Identity = Identity(id: string, subjectId: Option<nat>)

  datatype ClassKind = Application | Category | Reserved

  /** What leases are checked against: the compiled identities and application classes. */
  datatype Context = Context(identities: seq<Identity>, classes: map<nat, ClassKind>)

  /** Wall clock, monotonic clock when available, and the local end of the day an instant lies in. */
  datatype Clock = Clock(epoch: int, monotonic: Option<int>, endOfDay: int -> int)

  datatype Status = Invalid | Expired | Active

  datatype Request = Request(scope: string, identityId: string, classId: Option<nat>, duration: string)

  function EmptyDatabase(): Database {
    Database(SCHEMA_VERSION, 1, [])
  }

  function ClassText(classId: Option<nat>): string {
    if classId.Some? then Dec(classId.value) else ""
  }

  function TargetKey(scope: string, identityId: string, classId: Option<nat>): string {
    if scope == "access" then "access/" + identityId
    else "application/" + identityId + "/" + ClassText(classId)
  }

  function KeyOf(l: Lease): string {
    l.targetKey
  }

  function IdOf(l: Lease): string {
    l.id
  }

  /** The identity an ID names; of several with one ID the last one counts. */
  function FindIdentity(identities: seq<Identity>, id: string): (r: Option<Identity>)
  {
    if identities == [] then None
    else if identities[|identities| - 1].id == id then Some(identities[|identities| - 1])
    else FindIdentity(identities[..|identities| - 1], id)
  }

  predicate InRange(x: int) {
    0 <= x <= MAX_UINT32
  }

  predicate LeasableClass(classId: Option<nat>, context: Context) {
    && classId.Some?
    && CLASS_UNCLASSIFIED < classId.value <= 65535
    && classId.value in context.classes
    && context.classes[classId.value] != Reserved
  }

  /** `lease-EPOCH-SEQUENCE` */
  predicate IsLeaseId(id: string) {
    && |id| > 6
    && id[..6] == "lease-"
    && exists k :: 7 <= k < |id| - 1 && id[k] == '-' && AllDigits(id[6..k]) && AllDigits(id[k + 1..])
  }

  /** Everything about a lease that does not depend on the present instant. */
  predicate WellFormed(l: Lease, context: Context, endOfDay: int -> int) {
    && IsLeaseId(l.id)
    && (l.scope == "access" || l.scope == "application")
    && FindIdentity(context.identities, l.identityId).Some?
    && FindIdentity(context.identities, l.identityId).value.subjectId == Some(l.subjectId)
    && (l.scope == "application" ==> LeasableClass(l.classId, context))
    && InRange(l.createdAt) && InRange(l.expiresAt) && l.createdAt < l.expiresAt
    && ((l.duration == "one_hour" && l.expiresAt - l.createdAt == 3600)
        || (l.duration == "today" && l.expiresAt == endOfDay(l.createdAt)))
    && l.monotonicDeadline.Some? && InRange(l.monotonicDeadline.value)
  }

  /** lease_status, branch by branch. */
  function LeaseStatus(l: Lease, context: Context, clock: Clock): (s: Status)
    ensures s == Active <==>
            WellFormed(l, context, clock.endOfDay) && clock.epoch >= CLOCK_VALID_AFTER && clock.monotonic.Some?
            && clock.epoch < l.expiresAt && clock.monotonic.value < l.monotonicDeadline.value
    ensures s == Expired <==>
            WellFormed(l, context, clock.endOfDay) && clock.epoch >= CLOCK_VALID_AFTER && clock.monotonic.Some?
            && (l.expiresAt <= clock.epoch || l.monotonicDeadline.value <= clock.monotonic.value)
  {
    if !IsLeaseId(l.id) then Invalid
    else if l.scope != "access" && l.scope != "application" then Invalid
    else
      var identity := FindIdentity(context.identities, l.identityId);
      if identity.None? || identity.value.subjectId.None? then Invalid
      else if Some(l.subjectId) != identity.value.subjectId then Invalid
      else if l.scope == "application" && !LeasableClass(l.classId, context) then Invalid
      else if !InRange(l.createdAt) || !InRange(l.expiresAt) || l.expiresAt <= l.createdAt then Invalid
      else if l.duration == "one_hour" && l.expiresAt - l.createdAt != 3600 then Invalid
      else if l.duration == "today" && l.expiresAt != clock.endOfDay(l.createdAt) then Invalid
      else if l.duration != "one_hour" && l.duration != "today" then Invalid
      else if l.monotonicDeadline.None? || !InRange(l.monotonicDeadline.value) then Invalid
      else if clock.epoch < CLOCK_VALID_AFTER then Invalid
      else if clock.monotonic.None? then Invalid
      else if l.expiresAt <= clock.epoch || l.monotonicDeadline.value <= clock.monotonic.value then Expired
      else Active
  }

  // ----- Refresh -----

  function Keyed(l: Lease): Lease {
    l.(targetKey := TargetKey(l.scope, l.identityId, l.classId))
  }

  /** The leases that are active now, under their recomputed target keys. */
  function Candidates(leases: seq<Lease>, context: Context, clock: Clock): (r: seq<Lease>)
    ensures |r| <= |leases|
    ensures forall l :: l in r ==> LeaseStatus(l, context, clock) == Active && l == Keyed(l)
  {
    if leases == [] then []
    else
      var init := Candidates(leases[..|leases| - 1], context, clock);
      var last := leases[|leases| - 1];
      if LeaseStatus(last, context, clock) == Active then init + [Keyed(last)] else init
  }

  /** How many leases have this key. */
  function KeyCount(key: Lease -> string, leases: seq<Lease>, k: string): nat {
    if leases == [] then 0
    else KeyCount(key, leases[..|leases| - 1], k) + if key(leases[|leases| - 1]) == k then 1 else 0
  }

  predicate Unduplicated(l: Lease, all: seq<Lease>) {
    KeyCount(IdOf, all, l.id) == 1 && KeyCount(KeyOf, all, l.targetKey) == 1
  }

  /** The candidates whose ID and target nobody shares. */
  function Unshared(leases: seq<Lease>, all: seq<Lease>): (r: seq<Lease>)
    ensures |r| <= |leases|
  {
    if leases == [] then []
    else
      var init := Unshared(leases[..|leases| - 1], all);
      var last := leases[|leases| - 1];
      if Unduplicated(last, all) then init + [last] else init
  }

  function ParsedNextId(nextId: int): (n: int)
    ensures InRange(n)
    ensures InRange(nextId) ==> n == nextId
  {
    if InRange(nextId) then nextId else 1
  }

  function Refresh(db: Database, context: Context, clock: Clock): Database {
    if db.schemaVersion != SCHEMA_VERSION || |db.leases| > MAX_ACTIVE_LEASES then EmptyDatabase()
    else
      var candidates := Candidates(db.leases, context, clock);
      Database(SCHEMA_VERSION, ParsedNextId(db.nextId), Sort(KeyOf, Unshared(candidates, candidates)))
  }

  function Tally(counts: map<string, nat>, key: string): nat {
    if key in counts then counts[key] else 0
  }

  ghost predicate CountsAll(key: Lease -> string, counts: map<string, nat>, leases: seq<Lease>) {
    forall k :: Tally(counts, k) == KeyCount(key, leases, k)
  }

  lemma CountStep(key: Lease -> string, counts: map<string, nat>, leases: seq<Lease>, l: Lease)
    requires CountsAll(key, counts, leases)
    ensures CountsAll(key, counts[key(l) := Tally(counts, key(l)) + 1], leases + [l])
  {
    var more := leases + [l];
    assert more[..|more| - 1] == leases && more[|more| - 1] == l;
    forall k
      ensures Tally(counts[key(l) := Tally(counts, key(l)) + 1], k) == KeyCount(key, more, k)
    {
    }
  }

  /** The first pass: keep the active leases and count their IDs and targets. */
  method CollectCandidates(leases: seq<Lease>, context: Context, clock: Clock)
    returns (candidates: seq<Lease>, ids: map<string, nat>, targets: map<string, nat>,
             expiredCount: nat, invalidCount: nat)
    ensures candidates == Candidates(leases, context, clock)
    ensures CountsAll(IdOf, ids, candidates) && CountsAll(KeyOf, targets, candidates)
    ensures expiredCount + invalidCount + |candidates| == |leases|
  {
    candidates, ids, targets := [], map[], map[];
    expiredCount, invalidCount := 0, 0;
    for i := 0 to |leases|
      invariant candidates == Candidates(leases[..i], context, clock)
      invariant CountsAll(IdOf, ids, candidates) && CountsAll(KeyOf, targets, candidates)
      invariant expiredCount + invalidCount + |candidates| == i
    {
      assert leases[..i + 1][..i] == leases[..i];
      var status := LeaseStatus(leases[i], context, clock);
      if status == Active {
        var keyed := Keyed(leases[i]);
        CountStep(IdOf, ids, candidates, keyed);
        CountStep(KeyOf, targets, candidates, keyed);
        ids := ids[keyed.id := Tally(ids, keyed.id) + 1];
        targets := targets[keyed.targetKey := Tally(targets, keyed.targetKey) + 1];
        candidates := candidates + [keyed];
      } else if status == Expired {
        expiredCount := expiredCount + 1;
      } else {
        invalidCount := invalidCount + 1;
      }
    }
    assert leases[..|leases|] == leases;
  }

  /** The second pass: drop every candidate that shares its ID or target. */
  method DropShared(candidates: seq<Lease>, ids: map<string, nat>, targets: map<string, nat>)
    returns (leases: seq<Lease>)
    requires CountsAll(IdOf, ids, candidates) && CountsAll(KeyOf, targets, candidates)
    ensures leases == Unshared(candidates, candidates)
  {
    leases := [];
    for i := 0 to |candidates|
      invariant leases == Unshared(candidates[..i], candidates)
    {
      assert candidates[..i + 1][..i] == candidates[..i];
      var lease := candidates[i];
      if Tally(ids, lease.id) == 1 && Tally(targets, lease.targetKey) == 1 {
        leases := leases + [lease];
      }
    }
    assert candidates[..|candidates|] == candidates;
  }

  /** parse_database: drops what is invalid, expired or ambiguous, and sorts the rest by target. */
  method ParseDatabase(value: Database, context: Context, clock: Clock)
    returns (database: Database, valid: bool, expiredCount: nat, invalidCount: nat)
    ensures database == Refresh(value, context, clock)
    ensures value.schemaVersion == SCHEMA_VERSION && |value.leases| <= MAX_ACTIVE_LEASES ==>
              expiredCount + invalidCount + |Candidates(value.leases, context, clock)| == |value.leases|
    ensures valid ==> invalidCount == 0 && |database.leases| + expiredCount == |value.leases|
  {
    if value.schemaVersion != SCHEMA_VERSION {
      return EmptyDatabase(), false, 0, 1;
    }
    if |value.leases| > MAX_ACTIVE_LEASES {
      return EmptyDatabase(), false, 0, |value.leases|;
    }
    var candidates, ids, targets, expired, invalid := CollectCandidates(value.leases, context, clock);
    var leases := DropShared(candidates, ids, targets);
    database := Database(SCHEMA_VERSION, ParsedNextId(value.nextId), Sort(KeyOf, leases));
    valid := invalid == 0 && |leases| == |candidates|;
    expiredCount, invalidCount := expired, invalid;
  }

  // ----- Creation and revocation -----

  function WithoutTarget(leases: seq<Lease>, key: string): (r: seq<Lease>)
    ensures |r| <= |leases|
  {
    if leases == [] then []
    else
      var init := WithoutTarget(leases[..|leases| - 1], key);
      var last := leases[|leases| - 1];
      if last.targetKey == key then init else init + [last]
  }

  function WithoutId(leases: seq<Lease>, id: string): (r: seq<Lease>)
    ensures |r| <= |leases|
  {
    if leases == [] then []
    else
      var init := WithoutId(leases[..|leases| - 1], id);
      var last := leases[|leases| - 1];
      if last.id == id then init else init + [last]
  }

  function LeaseId(epoch: nat, sequence: nat): string {
    "lease-" + Dec(epoch) + "-" + Dec(sequence)
  }

  function Expiry(duration: string, clock: Clock): Option<int> {
    if duration == "one_hour" then Some(clock.epoch + 3600)
    else if duration == "today" then Some(clock.endOfDay(clock.epoch))
    else None
  }

  function RequestClass(request: Request): Option<nat> {
    if request.scope == "application" then request.classId else None
  }

  function RequestKey(request: Request): string {
    TargetKey(request.scope, Trim(request.identityId), RequestClass(request))
  }

  /** The request names a known target and duration, and the clocks can time it. */
  predicate Grantable(request: Request, context: Context, clock: Clock) {
    && clock.epoch >= CLOCK_VALID_AFTER
    && (request.scope == "access" || request.scope == "application")
    && FindIdentity(context.identities, Trim(request.identityId)).Some?
    && FindIdentity(context.identities, Trim(request.identityId)).value.subjectId.Some?
    && (request.scope == "application" ==> LeasableClass(request.classId, context))
    && Expiry(request.duration, clock).Some?
    && clock.epoch < Expiry(request.duration, clock).value
    && clock.monotonic.Some?
  }

  /** There is room: the target is already leased or a slot is free. */
  predicate HasRoom(db: Database, key: string) {
    var retained := WithoutTarget(db.leases, key);
    |retained| < |db.leases| || |retained| < MAX_ACTIVE_LEASES
  }

  function NewLease(db: Database, request: Request, context: Context, clock: Clock): (l: Lease)
    requires Grantable(request, context, clock)
    ensures l.targetKey == RequestKey(request)
  {
    var expiresAt := Expiry(request.duration, clock).value;
    Lease(
      LeaseId(clock.epoch, ParsedNextId(db.nextId)),
      request.scope,
      Trim(request.identityId),
      FindIdentity(context.identities, Trim(request.identityId)).value.subjectId.value,
      RequestClass(request),
      RequestKey(request),
      clock.epoch,
      expiresAt,
      Some(clock.monotonic.value + (expiresAt - clock.epoch)),
      request.duration)
  }

  function NextSequence(sequence: int): int {
    if sequence == MAX_UINT32 then 1 else sequence + 1
  }

  function Created(db: Database, request: Request, context: Context, clock: Clock): Option<Database> {
    if Grantable(request, context, clock) && HasRoom(db, RequestKey(request)) then
      var lease := NewLease(db, request, context, clock);
      Some(Database(SCHEMA_VERSION, NextSequence(ParsedNextId(db.nextId)),
                    Sort(KeyOf, WithoutTarget(db.leases, lease.targetKey) + [lease])))
    else None
  }

  /** The request checks of create, each adding one error. */
  method CheckRequest(request: Request, context: Context, clock: Clock) returns (errors: nat)
    ensures errors == 0 <==> Grantable(request, context, clock)
  {
    errors := 0;
    if clock.epoch < CLOCK_VALID_AFTER { errors := errors + 1; }
    if request.scope != "access" && request.scope != "application" { errors := errors + 1; }
    var identity := FindIdentity(context.identities, Trim(request.identityId));
    if identity.None? || identity.value.subjectId.None? { errors := errors + 1; }
    if request.scope == "application" && !LeasableClass(request.classId, context) { errors := errors + 1; }
    var expiresAt := Expiry(request.duration, clock);
    if expiresAt.None? { errors := errors + 1; }
    if expiresAt.None? || expiresAt.value <= clock.epoch { errors := errors + 1; }
    if clock.monotonic.None? { errors := errors + 1; }
  }

  method RetainOthers(leases: seq<Lease>, key: string) returns (retained: seq<Lease>, replacing: bool)
    ensures retained == WithoutTarget(leases, key)
    ensures replacing <==> |retained| < |leases|
  {
    retained, replacing := [], false;
    for i := 0 to |leases|
      invariant retained == WithoutTarget(leases[..i], key)
      invariant replacing <==> |retained| < i
    {
      assert leases[..i + 1][..i] == leases[..i];
      if leases[i].targetKey == key { replacing := true; } else { retained := retained + [leases[i]]; }
    }
    assert leases[..|leases|] == leases;
  }

  /** create: grants one approval, replacing an older one for the same target. */
  method Create(db: Database, request: Request, context: Context, clock: Clock)
    returns (result: Option<Database>, lease: Option<Lease>, replacing: bool)
    ensures result == Created(db, request, context, clock)
    ensures lease.Some? <==> result.Some?
    ensures lease.Some? ==> Grantable(request, context, clock) && lease.value == NewLease(db, request, context, clock)
    ensures replacing <==> |WithoutTarget(db.leases, RequestKey(request))| < |db.leases|
  {
    hide LeaseId, Sort, TargetKey, WithoutTarget, Trim;
    var errors := CheckRequest(request, context, clock);
    var identityId := Trim(request.identityId);
    var classId := if request.scope == "application" then request.classId else None;
    var key := TargetKey(request.scope, identityId, classId);
    var retained;
    retained, replacing := RetainOthers(db.leases, key);
    if !replacing && |retained| >= MAX_ACTIVE_LEASES { errors := errors + 1; }
    if errors > 0 {
      return None, None, replacing;
    }
    var sequence := ParsedNextId(db.nextId);
    var subjectId := FindIdentity(context.identities, identityId).value.subjectId.value;
    var expiresAt := Expiry(request.duration, clock).value;
    var granted := Lease(LeaseId(clock.epoch, sequence), request.scope, identityId, subjectId, classId, key, clock.epoch,
                         expiresAt, Some(clock.monotonic.value + (expiresAt - clock.epoch)), request.duration);
    retained := retained + [granted];
    return Some(Database(SCHEMA_VERSION, if sequence == MAX_UINT32 then 1 else sequence + 1, Sort(KeyOf, retained))),
           Some(granted), replacing;
  }

  function Revoked(db: Database, id: string): Option<Database> {
    if |WithoutId(db.leases, id)| < |db.leases| then Some(db.(leases := WithoutId(db.leases, id))) else None
  }

  /** revoke: removes the approval with this ID. */
  method Revoke(db: Database, id: string) returns (result: Option<Database>, removed: Option<Lease>)
    ensures result == Revoked(db, id)
    ensures removed.Some? <==> result.Some?
    ensures removed.Some? ==> removed.value in db.leases && removed.value.id == id
  {
    var leases: seq<Lease> := [];
    removed := None;
    for i := 0 to |db.leases|
      invariant leases == WithoutId(db.leases[..i], id)
      invariant removed.None? <==> |leases| == i
      invariant removed.Some? ==> removed.value in db.leases && removed.value.id == id
    {
      assert db.leases[..i + 1][..i] == db.leases[..i];
      if db.leases[i].id == id { removed := Some(db.leases[i]); } else { leases := leases + [db.leases[i]]; }
    }
    assert db.leases[..|db.leases|] == db.leases;
    if removed.None? { return None, None; }
    return Some(db.(leases := leases)), removed;
  }

  /** next_expiry: the earliest end of any approval. */
  function NextExpiry(leases: seq<Lease>): (r: Option<int>)
    ensures r.None? <==> leases == []
    ensures r.Some? ==> forall i :: 0 <= i < |leases| ==> r.value <= leases[i].expiresAt
  {
    if leases == [] then None
    else MinInstant(NextExpiry(leases[..|leases| - 1]), Some(leases[|leases| - 1].expiresAt))
  }
}
