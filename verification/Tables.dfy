/**
 * One slot of the datapath's tables and what the packet program reads from it: the subject of a MAC address, the
 * verdict of a subject and class, and the classification of a flow.
 *
 * The five kernel maps of a slot are one map over disjoint kinds of keys.
 */
module Tables {
  import opened Common
  import opened ClassGraph
  import opened Hints
  import Fusion

  /** A prefix is its significant bits, which is what a canonical prefix and its length denote. */
  datatype Key =
    | SubjectKey(mac: string)
    | PolicyKey(subject: nat, classId: nat)
    | PortKey(protocol: nat, port: nat)
    | PrefixKey(v6: bool, bits: seq<bool>)

  datatype Val = Subject(id: nat) | Policy(verdict: Verdict) | Class(hint: Hint)

  type Table = map<Key, Val>

  // ----- Subjects and verdicts -----

  function SubjectOf(t: Table, mac: string): Option<nat> {
    var k := SubjectKey(mac);
    if k in t && t[k].Subject? then Some(t[k].id) else None
  }

  function PolicyAt(t: Table, subject: nat, classId: nat): Option<Verdict> {
    var k := PolicyKey(subject, classId);
    if k in t && t[k].Policy? then Some(t[k].verdict) else None
  }

  /** ca_policy_verdict: the exact entry, else the subject's default, else allow. */
  function VerdictOf(t: Table, subject: nat, classId: nat): Verdict {
    var exact := PolicyAt(t, subject, classId);
    if exact.Some? then exact.value
    else
      var default := PolicyAt(t, subject, CLASS_DEFAULT);
      if default.Some? then default.value else Allow
  }

  /** The part of a slot that verdicts depend on. */
  function Policies(t: Table): Table {
    map k | k in t && k.PolicyKey? :: t[k]
  }

  lemma VerdictDependsOnPolicies(a: Table, b: Table, subject: nat, classId: nat)
    requires Policies(a) == Policies(b)
    ensures VerdictOf(a, subject, classId) == VerdictOf(b, subject, classId)
  {
    SamePolicyAt(a, b, subject, classId);
    SamePolicyAt(a, b, subject, CLASS_DEFAULT);
  }

  lemma SamePolicyAt(a: Table, b: Table, subject: nat, classId: nat)
    requires Policies(a) == Policies(b)
    ensures PolicyAt(a, subject, classId) == PolicyAt(b, subject, classId)
  {
    var k := PolicyKey(subject, classId);
    assert k in a <==> k in Policies(a);
    assert k in b <==> k in Policies(b);
  }

  // ----- Longest-prefix lookup -----

  function HintAt(t: Table, k: Key): Option<Hint> {
    if k in t && t[k].Class? then Some(t[k].hint) else None
  }

  /** The trie lookup: the stored prefix of at most `n` bits that shares most with the address. */
  function LongestPrefix(t: Table, v6: bool, address: seq<bool>, n: nat): Option<Hint>
    requires n <= |address|
  {
    var here := HintAt(t, PrefixKey(v6, address[..n]));
    if here.Some? then here else if n == 0 then None else LongestPrefix(t, v6, address, n - 1)
  }

  predicate HasPrefix(t: Table, v6: bool, bits: seq<bool>) {
    HintAt(t, PrefixKey(v6, bits)).Some?
  }

  /** The answer is the hint of the longest stored prefix of the address, and there is none only if none is stored. */
  lemma {:induction false} LongestPrefixIsLongest(t: Table, v6: bool, address: seq<bool>, n: nat)
    requires n <= |address|
    ensures LongestPrefix(t, v6, address, n).None? <==> forall m :: 0 <= m <= n ==> !HasPrefix(t, v6, address[..m])
    ensures LongestPrefix(t, v6, address, n).Some? ==>
              exists m :: 0 <= m <= n && HintAt(t, PrefixKey(v6, address[..m])) == LongestPrefix(t, v6, address, n)
                       && forall k :: m < k <= n ==> !HasPrefix(t, v6, address[..k])
  {
    if HintAt(t, PrefixKey(v6, address[..n])).None? && n > 0 {
      LongestPrefixIsLongest(t, v6, address, n - 1);
      if LongestPrefix(t, v6, address, n - 1).Some? {
        var m :| 0 <= m <= n - 1 && HintAt(t, PrefixKey(v6, address[..m])) == LongestPrefix(t, v6, address, n - 1)
              && forall k :: m < k <= n - 1 ==> !HasPrefix(t, v6, address[..k]);
        assert forall k :: m < k <= n ==> !HasPrefix(t, v6, address[..k]);
      }
    }
  }

  // ----- Classification -----

  datatype Tuple = Tuple(v6: bool, protocol: nat, dstPort: nat, dst: seq<bool>, src: seq<bool>, srcPort: nat)

  /** The hint being built and whether any merge failed. */
  datatype Evidence = Evidence(hint: Hint, conflict: bool)

  function NoEvidence(): Evidence {
    Evidence(Hint(0, 0, NoKind), false)
  }

  /** ca_merge_hint */
  function MergeHint(e: Evidence, candidate: Option<Hint>): Evidence {
    if candidate.None? || candidate.value.kind == NoKind then e
    else
      var c := candidate.value;
      if c.kind == UnclassifiedKind then e.(conflict := true)
      else if e.hint.kind == NoKind then e.(hint := c)
      else if e.hint == c then e
      else if e.hint.kind == ExactKind && c.kind == CategoryKind && e.hint.categoryId == c.classId then e
      else if e.hint.kind == CategoryKind && c.kind == ExactKind && c.categoryId == e.hint.classId then e.(hint := c)
      else e.(conflict := true)
  }

  function PrefixHint(t: Table, f: Tuple): Option<Hint> {
    LongestPrefix(t, f.v6, f.dst, |f.dst|)
  }

  function PortHint(t: Table, f: Tuple): Option<Hint> {
    if f.protocol == IPPROTO_TCP || f.protocol == IPPROTO_UDP then HintAt(t, PortKey(f.protocol, f.dstPort)) else None
  }

  /** What a classification settles on; a conflict or no evidence leaves the kind open. */
  function Settle(e: Evidence): (r: (nat, HintKind))
    ensures r.1 != NoKind ==> r.0 == e.hint.classId && !e.conflict
  {
    if e.conflict || e.hint.kind == NoKind then (CLASS_UNCLASSIFIED, NoKind) else (e.hint.classId, e.hint.kind)
  }

  /** ca_classify */
  function Classify(t: Table, f: Tuple): (nat, HintKind) {
    Settle(MergeHint(MergeHint(NoEvidence(), PrefixHint(t, f)), PortHint(t, f)))
  }

  // ----- The datapath's merge against the controller's -----

  /** The hint names a category strictly above the other's class but not its recorded one. */
  ghost predicate BeyondRecorded(classes: Classes, category: Hint, other: Hint) {
    && category.kind == CategoryKind && category.classId != other.classId
    && Above(classes, category.classId, other.classId)
    && (other.kind == CategoryKind || other.categoryId != category.classId)
  }

  function Both(a: Hint, b: Hint): seq<Fusion.Claim> {
    [Fusion.Claim(Some(a), ""), Fusion.Claim(Some(b), "")]
  }

  function DatapathMerge(a: Hint, b: Hint): Evidence {
    MergeHint(MergeHint(NoEvidence(), Some(a)), Some(b))
  }

  /**
   * For two compiled hints the datapath never settles on anything but the controller's fusion, and gives up where the
   * controller would not exactly when one hint is a category above the other that the other does not record.
   */
  lemma DatapathMergeAgainstFusion(classes: Classes, a: Hint, b: Hint)
    requires WellFormed(classes) && !IsCategory(classes, CLASS_DEFAULT)
    requires Fusion.ValidHint(classes, a) && Fusion.ValidHint(classes, b)
    ensures !DatapathMerge(a, b).conflict ==> Fusion.Merge(classes, Both(a, b)) == Fusion.Merged(DatapathMerge(a, b).hint, false)
    ensures DatapathMerge(a, b).conflict && !Fusion.Merge(classes, Both(a, b)).conflict <==>
            BeyondRecorded(classes, a, b) || BeyondRecorded(classes, b, a)
  {
    var claims := Both(a, b);
    assert claims[..1] == [claims[0]] && claims[..1][..0] == [];
    assert Fusion.MergeFold(classes, claims[..1]) == Fusion.MergeState(Some(a), false);
    assert Fusion.MergeFold(classes, claims) == Fusion.MergeStep(classes, Fusion.MergeState(Some(a), false), claims[1]);
    RecordedIsAbove(classes, a);
    RecordedIsAbove(classes, b);
    ComparedIds(classes, a, b);
    ComparedIds(classes, b, a);
  }

  /** The category an exact hint records lies strictly above its class. */
  lemma RecordedIsAbove(classes: Classes, h: Hint)
    requires WellFormed(classes) && !IsCategory(classes, CLASS_DEFAULT) && Fusion.ValidHint(classes, h)
    ensures h.kind == ExactKind || h.kind == CategoryKind
    ensures h.kind == CategoryKind <==> IsCategory(classes, h.classId)
    ensures h.kind == ExactKind && IsCategory(classes, h.categoryId) ==> Above(classes, h.categoryId, h.classId)
  {
    WalkIsNearest(classes, h.classId, AnyCategory(classes));
    if h.kind == ExactKind && IsCategory(classes, h.categoryId) {
      var n: nat :| Nth(classes, h.classId, n) == Some(h.categoryId);
    }
  }

  /** The ancestor test of the controller, and that two classes are not above each other. */
  lemma ComparedIds(classes: Classes, a: Hint, b: Hint)
    requires WellFormed(classes) && !IsCategory(classes, CLASS_DEFAULT)
    requires Fusion.ValidHint(classes, a) && Fusion.ValidHint(classes, b)
    ensures a.kind == CategoryKind ==> (AncestorCategory(classes, a.classId, b.classId) <==> Above(classes, a.classId, b.classId))
    ensures a.classId != b.classId && Above(classes, a.classId, b.classId) ==> IsCategory(classes, a.classId)
    ensures a.classId != b.classId ==> !(Above(classes, a.classId, b.classId) && Above(classes, b.classId, a.classId))
  {
    RecordedIsAbove(classes, a);
    if a.classId != b.classId && Above(classes, a.classId, b.classId) {
      StrictlyAboveIsCategory(classes, a.classId, b.classId);
      if Above(classes, b.classId, a.classId) { AboveAntisymmetric(classes, a.classId, b.classId); }
    }
  }

  /**
   * Application 4 in category 3 under category 2, seen at a prefix as class 4 and at a port as category 2: the
   * controller fuses them, the datapath reports a conflict.
   */
  lemma DatapathGivesUpEarly() returns (classes: Classes, a: Hint, b: Hint)
    ensures WellFormed(classes) && Fusion.ValidHint(classes, a) && Fusion.ValidHint(classes, b)
    ensures DatapathMerge(a, b).conflict && !Fusion.Merge(classes, Both(a, b)).conflict
  {
    classes := map[2 := ClassInfo(Category, None), 3 := ClassInfo(Category, Some(2)), 4 := ClassInfo(Application, Some(3))];
    a, b := Hint(4, 3, ExactKind), Hint(2, 2, CategoryKind);
    assert RootedWithin(classes, 2, 0) && RootedWithin(classes, 3, 1) && RootedWithin(classes, 4, 2);
    var p := AnyCategory(classes);
    assert !p(4) && p(3);
    assert Walk(classes, Some(3), {} + {4}, p) == Some(3);
    assert RuntimeCategory(classes, 4) == Some(3);
    assert Nth(classes, 2, 0) == Some(2) && Nth(classes, 3, 1) == Some(2) && Nth(classes, 4, 2) == Some(2);
    assert BeyondRecorded(classes, b, a);
    DatapathMergeAgainstFusion(classes, a, b);
  }
}
