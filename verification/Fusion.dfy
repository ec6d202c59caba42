/**
 * Evidence fusion: many claims about one key are merged into one hint over the class tree.
 */
module Fusion {
  import opened Common
  import opened ClassGraph
  import opened Hints

  datatype Claim = Claim(hint: Option<Hint>, profile: string)

  datatype Merged = Merged(hint: Hint, conflict: bool)

  // ----- Hints of classes -----

  /** hint_for_class without the port downgrade: the hint that names the class itself. */
  ghost function HintOf(classes: Classes, id: nat): Hint
    requires id in classes
  {
    if classes[id].kind == Category then Hint(id, id, CategoryKind)
    else
      var category := RuntimeCategory(classes, id);
      Hint(id, if category.Some? then category.value else 0, ExactKind)
  }

  /** hint_for_class */
  method HintForClass(classes: Classes, id: nat, allowPortDowngrade: bool) returns (hint: Option<Hint>)
    requires id in classes
    ensures !allowPortDowngrade ==> hint == Some(HintOf(classes, id))
    ensures allowPortDowngrade ==> (hint.None? <==> RuntimeCategory(classes, id).None?)
    ensures hint.Some? ==> ValidHint(classes, hint.value)
    ensures allowPortDowngrade && hint.Some? ==>
              IsCategory(classes, hint.value.classId) && Above(classes, hint.value.classId, id)
  {
    var category := RuntimeCategoryId(classes, id);
    WalkIsNearest(classes, id, AnyCategory(classes));
    if classes[id].kind == Category {
      AboveSelf(classes, id);
      assert Nth(classes, id, 0) == Some(id);
      assert AnyCategory(classes)(id);
      return Some(Hint(id, id, CategoryKind));
    }
    if allowPortDowngrade {
      if category.None? { return None; }
      return Some(Hint(category.value, category.value, CategoryKind));
    }
    return Some(Hint(id, if category.Some? then category.value else 0, ExactKind));
  }

  /** A hint compiled from a class of the graph. */
  ghost predicate ValidHint(classes: Classes, h: Hint) {
    h.classId in classes && h == HintOf(classes, h.classId)
  }

  predicate Usable(claim: Claim) {
    claim.hint.Some? && claim.hint.value.kind != UnclassifiedKind
  }

  /** Claims carry hints of the graph's classes, nothing, or an earlier conflict. */
  ghost predicate ValidClaims(classes: Classes, claims: seq<Claim>) {
    forall i :: 0 <= i < |claims| && Usable(claims[i]) ==> ValidHint(classes, claims[i].hint.value)
  }

  // ----- merge_claims -----

  datatype MergeState = MergeState(selected: Option<Hint>, conflict: bool)

  /** One iteration of the merge loop. */
  ghost function MergeStep(classes: Classes, s: MergeState, claim: Claim): MergeState {
    if !Usable(claim) then s.(conflict := true)
    else if s.selected.None? then s.(selected := claim.hint)
    else
      var a, h := s.selected.value, claim.hint.value;
      if a.kind == h.kind && a.classId == h.classId then s
      else if a.kind == ExactKind && h.kind == CategoryKind && AncestorCategory(classes, h.classId, a.classId) then s
      else if a.kind == CategoryKind && h.kind == ExactKind && AncestorCategory(classes, a.classId, h.classId) then
        s.(selected := claim.hint)
      else if a.kind == CategoryKind && h.kind == CategoryKind && AncestorCategory(classes, a.classId, h.classId) then
        s.(selected := claim.hint)
      else if a.kind == CategoryKind && h.kind == CategoryKind && AncestorCategory(classes, h.classId, a.classId) then s
      else s.(conflict := true)
  }

  ghost function MergeFold(classes: Classes, claims: seq<Claim>): MergeState {
    if claims == [] then MergeState(None, false)
    else MergeStep(classes, MergeFold(classes, claims[..|claims| - 1]), claims[|claims| - 1])
  }

  function Conclude(s: MergeState): Merged {
    if s.conflict || s.selected.None? then Merged(UnclassifiedHint(), true) else Merged(s.selected.value, false)
  }

  ghost function Merge(classes: Classes, claims: seq<Claim>): Merged {
    Conclude(MergeFold(classes, claims))
  }

  /** merge_claims */
  method MergeClaims(classes: Classes, claims: seq<Claim>) returns (r: Merged)
    ensures r == Merge(classes, claims)
  {
    var selected: Option<Hint>, conflict := None, false;
    for i := 0 to |claims|
      invariant MergeState(selected, conflict) == MergeFold(classes, claims[..i])
    {
      assert claims[..i + 1][..i] == claims[..i];
      var hint := claims[i].hint;
      if hint.None? || hint.value.kind == UnclassifiedKind {
        conflict := true;
        continue;
      }
      if selected.None? {
        selected := hint;
        continue;
      }
      var a, h := selected.value, hint.value;
      if a.kind == h.kind && a.classId == h.classId { continue; }
      var above := CategoryIsAncestor(classes, h.classId, a.classId);
      var below := CategoryIsAncestor(classes, a.classId, h.classId);
      if a.kind == ExactKind && h.kind == CategoryKind && above { continue; }
      if a.kind == CategoryKind && h.kind == ExactKind && below {
        selected := hint;
        continue;
      }
      if a.kind == CategoryKind && h.kind == CategoryKind {
        if below {
          selected := hint;
          continue;
        }
        if above { continue; }
      }
      conflict := true;
    }
    assert claims[..|claims|] == claims;
    return Conclude(MergeState(selected, conflict));
  }

  // ----- What a merge means -----

  /** The two claims name classes on one root path. */
  ghost predicate Comparable(classes: Classes, a: Claim, b: Claim) {
    && Usable(a) && Usable(b)
    && (Above(classes, a.hint.value.classId, b.hint.value.classId)
        || Above(classes, b.hint.value.classId, a.hint.value.classId))
  }

  ghost predicate OnOnePath(classes: Classes, claims: seq<Claim>) {
    forall i, j :: 0 <= i < |claims| && 0 <= j < |claims| ==> Comparable(classes, claims[i], claims[j])
  }

  /** `h` is claimed, and every claim names its class or one above it. */
  ghost predicate Deepest(classes: Classes, claims: seq<Claim>, h: Hint) {
    && (exists i :: 0 <= i < |claims| && claims[i].hint == Some(h))
    && forall i :: 0 <= i < |claims| ==>
         claims[i].hint.Some? && Above(classes, claims[i].hint.value.classId, h.classId)
  }

  /** A single step keeps the deepest of two comparable hints and flags two incomparable ones. */
  lemma StepMeaning(classes: Classes, a: Hint, claim: Claim)
    requires WellFormed(classes) && ValidHint(classes, a)
    requires Usable(claim) ==> ValidHint(classes, claim.hint.value)
    ensures var r := MergeStep(classes, MergeState(Some(a), false), claim);
            r.conflict <==> !Comparable(classes, Claim(Some(a), ""), claim)
    ensures var r := MergeStep(classes, MergeState(Some(a), false), claim);
            !r.conflict && Above(classes, claim.hint.value.classId, a.classId) ==> r.selected == Some(a)
    ensures var r := MergeStep(classes, MergeState(Some(a), false), claim);
            !r.conflict && Above(classes, a.classId, claim.hint.value.classId) ==> r.selected == claim.hint
  {
    if Usable(claim) {
      var h := claim.hint.value;
      if a.classId == h.classId {
        AboveSelf(classes, a.classId);
      } else {
        if Above(classes, a.classId, h.classId) {
          StrictlyAboveIsCategory(classes, a.classId, h.classId);
          if Above(classes, h.classId, a.classId) { AboveAntisymmetric(classes, a.classId, h.classId); }
        }
        if Above(classes, h.classId, a.classId) { StrictlyAboveIsCategory(classes, h.classId, a.classId); }
      }
    }
  }

  ghost predicate SelectedDeepest(classes: Classes, claims: seq<Claim>, selected: Option<Hint>) {
    && selected.Some?
    && ValidHint(classes, selected.value)
    && selected.value.kind != UnclassifiedKind
    && Deepest(classes, claims, selected.value)
  }

  ghost predicate FoldMeans(classes: Classes, claims: seq<Claim>, s: MergeState) {
    && (claims == [] <==> s == MergeState(None, false))
    && (claims != [] && !s.conflict ==> SelectedDeepest(classes, claims, s.selected))
    && (claims != [] ==> (!s.conflict <==> OnOnePath(classes, claims)))
  }

  /** Claims all above one class are comparable with each other. */
  lemma DeepestMeansOnePath(classes: Classes, claims: seq<Claim>, h: Hint)
    requires Deepest(classes, claims, h) && forall i :: 0 <= i < |claims| ==> Usable(claims[i])
    ensures OnOnePath(classes, claims)
  {
    forall i, j | 0 <= i < |claims| && 0 <= j < |claims|
      ensures Comparable(classes, claims[i], claims[j])
    {
      AboveChain(classes, claims[i].hint.value.classId, claims[j].hint.value.classId, h.classId);
    }
  }

  lemma OnOnePathPrefix(classes: Classes, claims: seq<Claim>, claim: Claim)
    requires OnOnePath(classes, claims + [claim])
    ensures OnOnePath(classes, claims)
    ensures Usable(claim)
    ensures forall i :: 0 <= i < |claims| ==> Comparable(classes, claims[i], claim)
  {
    var all := claims + [claim];
    assert Comparable(classes, all[|claims|], all[|claims|]);
    forall i, j | 0 <= i < |claims| && 0 <= j < |claims|
      ensures Comparable(classes, claims[i], claims[j])
    {
      assert Comparable(classes, all[i], all[j]);
    }
    forall i | 0 <= i < |claims|
      ensures Comparable(classes, claims[i], claim)
    {
      assert Comparable(classes, all[i], all[|claims|]);
    }
  }

  lemma DeepestExtends(classes: Classes, claims: seq<Claim>, h: Hint, claim: Claim, r: Hint)
    requires Deepest(classes, claims, h) && claim.hint.Some?
    requires (r == h && Above(classes, claim.hint.value.classId, h.classId))
          || (r == claim.hint.value && Above(classes, h.classId, r.classId))
    ensures Deepest(classes, claims + [claim], r)
  {
    var all := claims + [claim];
    AboveSelf(classes, r.classId);
    if r == h {
      var k :| 0 <= k < |claims| && claims[k].hint == Some(h);
      assert all[k].hint == Some(r);
    } else {
      assert all[|claims|].hint == Some(r);
    }
    forall i | 0 <= i < |all|
      ensures all[i].hint.Some? && Above(classes, all[i].hint.value.classId, r.classId)
    {
      if i < |claims| {
        assert all[i] == claims[i];
        if r != h { AboveTransitive(classes, claims[i].hint.value.classId, h.classId, r.classId); }
      }
    }
  }

  lemma {:induction false} FoldMeaning(classes: Classes, claims: seq<Claim>)
    requires WellFormed(classes) && ValidClaims(classes, claims)
    ensures FoldMeans(classes, claims, MergeFold(classes, claims))
  {
    if claims == [] {
    } else {
      var init, claim := claims[..|claims| - 1], claims[|claims| - 1];
      assert claims == init + [claim];
      assert ValidClaims(classes, init) by {
        forall i | 0 <= i < |init| && Usable(init[i])
          ensures ValidHint(classes, init[i].hint.value)
        {
          assert init[i] == claims[i];
        }
      }
      FoldMeaning(classes, init);
      FoldMeaningStep(classes, init, claim, MergeFold(classes, init));
    }
  }

  lemma FirstClaim(classes: Classes, claim: Claim)
    ensures Usable(claim) ==> Deepest(classes, [claim], claim.hint.value)
    ensures OnOnePath(classes, [claim]) <==> Usable(claim)
  {
    var claims := [claim];
    if Usable(claim) {
      AboveSelf(classes, claim.hint.value.classId);
      assert claims[0].hint == Some(claim.hint.value);
      assert Comparable(classes, claim, claim);
    } else {
      assert !Comparable(classes, claims[0], claims[0]);
    }
  }

  lemma FoldMeaningStep(classes: Classes, claims: seq<Claim>, claim: Claim, s: MergeState)
    requires WellFormed(classes) && FoldMeans(classes, claims, s)
    requires ValidClaims(classes, claims)
    requires Usable(claim) ==> ValidHint(classes, claim.hint.value)
    ensures FoldMeans(classes, claims + [claim], MergeStep(classes, s, claim))
  {
    var all, r := claims + [claim], MergeStep(classes, s, claim);
    if claims == [] {
      assert all == [claim];
      FirstClaim(classes, claim);
    } else if s.conflict {
      assert r.conflict;
      if OnOnePath(classes, all) { OnOnePathPrefix(classes, claims, claim); }
    } else {
      var a := s.selected.value;
      StepMeaning(classes, a, claim);
      if OnOnePath(classes, all) {
        OnOnePathPrefix(classes, claims, claim);
        var k :| 0 <= k < |claims| && claims[k].hint == Some(a);
        assert Comparable(classes, claims[k], claim);
      }
      if !r.conflict {
        DeepestExtends(classes, claims, a, claim, r.selected.value);
        AllUsable(classes, claims);
        DeepestMeansOnePath(classes, all, r.selected.value);
      }
    }
  }

  lemma AllUsable(classes: Classes, claims: seq<Claim>)
    requires OnOnePath(classes, claims)
    ensures forall i :: 0 <= i < |claims| ==> Usable(claims[i])
  {
  }

  /**
   * On a well-formed graph a merge yields the deepest claimed class exactly when all claims lie on one root path,
   * and a conflict otherwise.
   */
  lemma MergeMeaning(classes: Classes, claims: seq<Claim>)
    requires WellFormed(classes) && ValidClaims(classes, claims)
    ensures var r := Merge(classes, claims);
            && (r.conflict <==> claims == [] || !OnOnePath(classes, claims))
            && (r.conflict ==> r.hint == UnclassifiedHint())
            && (!r.conflict ==> SelectedDeepest(classes, claims, Some(r.hint)))
  {
    FoldMeaning(classes, claims);
  }

  /** The deepest claim is unique. */
  lemma DeepestUnique(classes: Classes, claims: seq<Claim>, a: Hint, b: Hint)
    requires WellFormed(classes) && ValidHint(classes, a) && ValidHint(classes, b)
    requires Deepest(classes, claims, a) && Deepest(classes, claims, b)
    ensures a == b
  {
    var i :| 0 <= i < |claims| && claims[i].hint == Some(a);
    var j :| 0 <= j < |claims| && claims[j].hint == Some(b);
    AboveAntisymmetric(classes, a.classId, b.classId);
  }

  // ----- Order and grouping -----

  predicate HasHint(claims: seq<Claim>, hint: Option<Hint>) {
    exists j :: 0 <= j < |claims| && claims[j].hint == hint
  }

  /** Every hint claimed in `a` is claimed in `b`. */
  predicate HintsWithin(a: seq<Claim>, b: seq<Claim>) {
    forall i :: 0 <= i < |a| ==> HasHint(b, a[i].hint)
  }

  /** A summary of a list of claims: its merge result stands for the whole list. */
  ghost predicate Summarises(classes: Classes, summary: Claim, claims: seq<Claim>) {
    claims != [] && summary.hint == Some(Merge(classes, claims).hint)
  }

  /**
   * `fine` refines `coarse`: every fine claim is a coarse one or belongs to a list that a coarse claim summarises,
   * and every coarse claim is fine or summarises a list of fine claims.
   */
  ghost predicate Refines(classes: Classes, fine: seq<Claim>, coarse: seq<Claim>) {
    && (forall i :: 0 <= i < |fine| ==> CoveredBy(classes, fine, fine[i], coarse))
    && (forall j :: 0 <= j < |coarse| ==> DrawnFrom(classes, coarse[j], fine))
  }

  ghost predicate CoveredBy(classes: Classes, fine: seq<Claim>, claim: Claim, coarse: seq<Claim>) {
    exists j :: 0 <= j < |coarse| && StandsFor(classes, coarse[j], claim, fine)
  }

  /** The coarse claim has the claim's hint, or summarises fine claims among which it is. */
  ghost predicate StandsFor(classes: Classes, coarse: Claim, claim: Claim, fine: seq<Claim>) {
    coarse.hint == claim.hint ||
    exists group: seq<Claim> :: Summarises(classes, coarse, group) && claim in group && (forall g :: g in group ==> g in fine)
  }

  ghost predicate DrawnFrom(classes: Classes, coarse: Claim, fine: seq<Claim>) {
    exists claim :: claim in fine && StandsFor(classes, coarse, claim, fine)
  }

  /** A claim's hint is at or above the hint that stands for it; a conflict never hides. */
  lemma StandInDeeper(classes: Classes, coarse: Claim, claim: Claim, fine: seq<Claim>)
    requires WellFormed(classes) && ValidClaims(classes, fine) && claim in fine
    requires StandsFor(classes, coarse, claim, fine)
    ensures Usable(coarse) ==> Usable(claim) && ValidHint(classes, coarse.hint.value)
    ensures Usable(coarse) ==> Above(classes, claim.hint.value.classId, coarse.hint.value.classId)
    ensures OnOnePath(classes, fine) ==> Usable(coarse) && exists g :: g in fine && g.hint == coarse.hint
  {
    var i :| 0 <= i < |fine| && fine[i] == claim;
    if OnOnePath(classes, fine) { AllUsable(classes, fine); }
    if coarse.hint == claim.hint {
      if Usable(claim) { AboveSelf(classes, claim.hint.value.classId); }
    } else {
      var group: seq<Claim> :| Summarises(classes, coarse, group) && claim in group && (forall g :: g in group ==> g in fine);
      SubsetValid(classes, group, fine);
      MergeMeaning(classes, group);
      var k :| 0 <= k < |group| && group[k] == claim;
      if Usable(coarse) {
        AllUsable(classes, group);
      }
      if OnOnePath(classes, fine) {
        SubsetOnOnePath(classes, group, fine);
        var d :| 0 <= d < |group| && group[d].hint == Some(Merge(classes, group).hint);
        assert group[d] in group;
      }
    }
  }

  lemma SubsetValid(classes: Classes, group: seq<Claim>, fine: seq<Claim>)
    requires ValidClaims(classes, fine) && forall g :: g in group ==> g in fine
    ensures ValidClaims(classes, group)
  {
    forall i | 0 <= i < |group| && Usable(group[i])
      ensures ValidHint(classes, group[i].hint.value)
    {
      assert group[i] in fine;
      var k :| 0 <= k < |fine| && fine[k] == group[i];
    }
  }

  lemma SubsetOnOnePath(classes: Classes, group: seq<Claim>, fine: seq<Claim>)
    requires OnOnePath(classes, fine) && forall g :: g in group ==> g in fine
    ensures OnOnePath(classes, group)
  {
    forall i, j | 0 <= i < |group| && 0 <= j < |group|
      ensures Comparable(classes, group[i], group[j])
    {
      assert group[i] in fine && group[j] in fine;
      var k :| 0 <= k < |fine| && fine[k] == group[i];
      var l :| 0 <= l < |fine| && fine[l] == group[j];
      assert Comparable(classes, fine[k], fine[l]);
    }
  }

  lemma CoarseValid(classes: Classes, fine: seq<Claim>, coarse: seq<Claim>)
    requires WellFormed(classes) && ValidClaims(classes, fine) && Refines(classes, fine, coarse)
    ensures ValidClaims(classes, coarse)
  {
    forall j | 0 <= j < |coarse| && Usable(coarse[j])
      ensures ValidHint(classes, coarse[j].hint.value)
    {
      assert DrawnFrom(classes, coarse[j], fine);
      var claim :| claim in fine && StandsFor(classes, coarse[j], claim, fine);
      StandInDeeper(classes, coarse[j], claim, fine);
    }
  }

  /** If the fine claims lie on one path, so do the claims that stand for them. */
  lemma FineToCoarse(classes: Classes, fine: seq<Claim>, coarse: seq<Claim>)
    requires WellFormed(classes) && ValidClaims(classes, fine) && Refines(classes, fine, coarse)
    requires OnOnePath(classes, fine)
    ensures OnOnePath(classes, coarse)
  {
    forall j, k | 0 <= j < |coarse| && 0 <= k < |coarse|
      ensures Comparable(classes, coarse[j], coarse[k])
    {
      var p := FineWitness(classes, fine, coarse, j);
      var q := FineWitness(classes, fine, coarse, k);
      assert Comparable(classes, fine[p], fine[q]);
    }
  }

  lemma FineWitness(classes: Classes, fine: seq<Claim>, coarse: seq<Claim>, j: nat) returns (p: nat)
    requires WellFormed(classes) && ValidClaims(classes, fine) && Refines(classes, fine, coarse)
    requires OnOnePath(classes, fine) && j < |coarse|
    ensures p < |fine| && fine[p].hint == coarse[j].hint && Usable(coarse[j])
  {
    assert DrawnFrom(classes, coarse[j], fine);
    var claim :| claim in fine && StandsFor(classes, coarse[j], claim, fine);
    StandInDeeper(classes, coarse[j], claim, fine);
    var g :| g in fine && g.hint == coarse[j].hint;
    p :| 0 <= p < |fine| && fine[p] == g;
  }

  /** The deepest coarse claim is also at or below every fine claim. */
  lemma CoarseDeepest(classes: Classes, fine: seq<Claim>, coarse: seq<Claim>, d: Hint)
    requires WellFormed(classes) && ValidClaims(classes, fine) && Refines(classes, fine, coarse)
    requires OnOnePath(classes, coarse) && Deepest(classes, coarse, d)
    ensures forall i :: 0 <= i < |fine| ==> Usable(fine[i]) && Above(classes, fine[i].hint.value.classId, d.classId)
  {
    AllUsable(classes, coarse);
    forall i | 0 <= i < |fine|
      ensures Usable(fine[i]) && Above(classes, fine[i].hint.value.classId, d.classId)
    {
      assert CoveredBy(classes, fine, fine[i], coarse);
      var j :| 0 <= j < |coarse| && StandsFor(classes, coarse[j], fine[i], fine);
      StandInDeeper(classes, coarse[j], fine[i], fine);
      AboveTransitive(classes, fine[i].hint.value.classId, coarse[j].hint.value.classId, d.classId);
    }
  }

  lemma CommonLowerBoundMeansOnePath(classes: Classes, claims: seq<Claim>, id: nat)
    requires forall i :: 0 <= i < |claims| ==> Usable(claims[i]) && Above(classes, claims[i].hint.value.classId, id)
    ensures OnOnePath(classes, claims)
  {
    forall i, j | 0 <= i < |claims| && 0 <= j < |claims|
      ensures Comparable(classes, claims[i], claims[j])
    {
      AboveChain(classes, claims[i].hint.value.classId, claims[j].hint.value.classId, id);
    }
  }

  /**
   * Fusing summaries gives the same result as fusing the claims they summarise, at once and in any order.
   */
  lemma MergeOfSummaries(classes: Classes, fine: seq<Claim>, coarse: seq<Claim>)
    requires WellFormed(classes) && ValidClaims(classes, fine) && Refines(classes, fine, coarse)
    ensures Merge(classes, coarse) == Merge(classes, fine)
  {
    hide MergeFold, Refines, Above, HintOf, ValidHint, WellFormed;
    CoarseValid(classes, fine, coarse);
    MergeMeaning(classes, fine);
    MergeMeaning(classes, coarse);
    EmptyTogether(classes, fine, coarse);
    if fine != [] {
      if OnOnePath(classes, fine) {
        FineToCoarse(classes, fine, coarse);
        var d := Merge(classes, coarse).hint;
        CoarseDeepest(classes, fine, coarse, d);
        var j :| 0 <= j < |coarse| && coarse[j].hint == Some(d);
        var p := FineWitness(classes, fine, coarse, j);
        assert fine[p].hint == Some(d);
        assert Deepest(classes, fine, d);
        DeepestUnique(classes, fine, d, Merge(classes, fine).hint);
      } else if OnOnePath(classes, coarse) {
        CoarseDeepest(classes, fine, coarse, Merge(classes, coarse).hint);
        CommonLowerBoundMeansOnePath(classes, fine, Merge(classes, coarse).hint.classId);
      }
    }
  }

  lemma EmptyTogether(classes: Classes, fine: seq<Claim>, coarse: seq<Claim>)
    requires Refines(classes, fine, coarse)
    ensures fine == [] <==> coarse == []
  {
    if fine != [] { assert CoveredBy(classes, fine, fine[0], coarse); }
    if coarse != [] { assert DrawnFrom(classes, coarse[0], fine); }
  }

  lemma StandsForItself(classes: Classes, coarse: Claim, claim: Claim, fine: seq<Claim>)
    requires coarse.hint == claim.hint
    ensures StandsFor(classes, coarse, claim, fine)
  {
  }

  lemma CoverHints(classes: Classes, a: seq<Claim>, b: seq<Claim>)
    requires HintsWithin(a, b)
    ensures forall i :: 0 <= i < |a| ==> CoveredBy(classes, a, a[i], b)
  {
  }

  lemma DrawHints(classes: Classes, a: seq<Claim>, b: seq<Claim>)
    requires HintsWithin(b, a)
    ensures forall j :: 0 <= j < |b| ==> DrawnFrom(classes, b[j], a)
  {
    forall j | 0 <= j < |b|
      ensures DrawnFrom(classes, b[j], a)
    {
      assert HasHint(a, b[j].hint);
      var i :| 0 <= i < |a| && a[i].hint == b[j].hint;
      StandsForItself(classes, b[j], a[i], a);
      assert a[i] in a;
    }
  }

  /** The result depends only on which hints are claimed: order and repetition are irrelevant. */
  lemma MergeOrderIndependent(classes: Classes, a: seq<Claim>, b: seq<Claim>)
    requires WellFormed(classes) && ValidClaims(classes, a)
    requires HintsWithin(a, b) && HintsWithin(b, a)
    ensures Merge(classes, b) == Merge(classes, a)
  {
    CoverHints(classes, a, b);
    DrawHints(classes, a, b);
    MergeOfSummaries(classes, a, b);
  }
}
