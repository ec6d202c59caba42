/** Application classes and the parent walks over them. */
module ClassGraph {
  import opened Common

  datatype Kind = Default | Unclassified | Application | Category

  datatype ClassInfo = ClassInfo(kind: Kind, parent: Option<nat>)

  type Classes = map<nat, ClassInfo>

  function Parent(classes: Classes, id: nat): Option<nat> {
    if id in classes then classes[id].parent else None
  }

  predicate IsCategory(classes: Classes, id: nat) {
    id in classes && classes[id].kind == Category
  }

  // ----- The parent chain -----

  /** The class `n` steps above `id`. */
  function Nth(classes: Classes, id: nat, n: nat): Option<nat>
    decreases n
  {
    if n == 0 then Some(id)
    else
      var parent := Parent(classes, id);
      if parent.None? then None else Nth(classes, parent.value, n - 1)
  }

  /** `a` is `id` or lies above it. */
  ghost predicate Above(classes: Classes, a: nat, id: nat) {
    exists n: nat :: Nth(classes, id, n) == Some(a)
  }

  lemma {:induction false} NthAdd(classes: Classes, id: nat, n: nat, m: nat)
    requires Nth(classes, id, n).Some?
    ensures Nth(classes, id, n + m) == Nth(classes, Nth(classes, id, n).value, m)
    decreases n
  {
    if n > 0 {
      NthAdd(classes, Parent(classes, id).value, n - 1, m);
    }
  }

  lemma AboveSelf(classes: Classes, id: nat)
    ensures Above(classes, id, id)
  {
    assert Nth(classes, id, 0) == Some(id);
  }

  lemma AboveTransitive(classes: Classes, a: nat, b: nat, c: nat)
    requires Above(classes, a, b) && Above(classes, b, c)
    ensures Above(classes, a, c)
  {
    var n: nat :| Nth(classes, b, n) == Some(a);
    var m: nat :| Nth(classes, c, m) == Some(b);
    NthAdd(classes, c, m, n);
  }

  /** Two classes above a third lie on one path. */
  lemma AboveChain(classes: Classes, a: nat, b: nat, c: nat)
    requires Above(classes, a, c) && Above(classes, b, c)
    ensures Above(classes, a, b) || Above(classes, b, a)
  {
    var n: nat :| Nth(classes, c, n) == Some(a);
    var m: nat :| Nth(classes, c, m) == Some(b);
    if n <= m { NthAdd(classes, c, n, m - n); } else { NthAdd(classes, c, m, n - m); }
  }

  // ----- Rooted graphs -----

  /** The chain from `id` stays inside the graph and ends within `n` steps. */
  predicate RootedWithin(classes: Classes, id: nat, n: nat)
    decreases n
  {
    id in classes &&
    (classes[id].parent.None? || (n > 0 && RootedWithin(classes, classes[id].parent.value, n - 1)))
  }

  ghost predicate Rooted(classes: Classes, id: nat) {
    exists n: nat :: RootedWithin(classes, id, n)
  }

  lemma {:induction false} RootedBound(classes: Classes, id: nat, n: nat, m: nat)
    requires RootedWithin(classes, id, n) && n < m
    ensures Nth(classes, id, m) == None
    decreases n
  {
    if classes[id].parent.Some? {
      RootedBound(classes, classes[id].parent.value, n - 1, m - 1);
    }
  }

  lemma {:induction false} RootedUp(classes: Classes, id: nat, n: nat, m: nat)
    requires RootedWithin(classes, id, n) && Nth(classes, id, m).Some?
    ensures Rooted(classes, Nth(classes, id, m).value)
    decreases m
  {
    if m > 0 {
      RootedUp(classes, classes[id].parent.value, n - 1, m - 1);
    }
  }

  /** A class on its own chain above itself repeats for ever, so rooted chains have no such class. */
  lemma {:induction false} CycleRepeats(classes: Classes, id: nat, n: nat, k: nat)
    requires n > 0 && Nth(classes, id, n) == Some(id)
    ensures Nth(classes, id, k * n) == Some(id)
  {
    if k > 0 {
      CycleRepeats(classes, id, n, k - 1);
      NthAdd(classes, id, (k - 1) * n, n);
    }
  }

  lemma RootedHasNoCycle(classes: Classes, id: nat, n: nat)
    requires Rooted(classes, id) && n > 0
    ensures Nth(classes, id, n) != Some(id)
  {
    if Nth(classes, id, n) == Some(id) {
      var b: nat :| RootedWithin(classes, id, b);
      CycleRepeats(classes, id, n, b + 1);
      MultipleExceeds(b, n);
      RootedBound(classes, id, b, (b + 1) * n);
    }
  }

  lemma MultipleExceeds(b: nat, n: nat)
    requires n > 0
    ensures (b + 1) * n > b
  {
  }

  lemma AboveAntisymmetric(classes: Classes, a: nat, b: nat)
    requires Rooted(classes, a) && Above(classes, a, b) && Above(classes, b, a)
    ensures a == b
  {
    var n: nat :| Nth(classes, b, n) == Some(a);
    var m: nat :| Nth(classes, a, m) == Some(b);
    NthAdd(classes, a, m, n);
    if m + n > 0 { RootedHasNoCycle(classes, a, m + n); }
  }

  /** What validation establishes: every chain is finite and every parent is a category. */
  ghost predicate WellFormed(classes: Classes) {
    && (forall id :: id in classes ==> Rooted(classes, id))
    && (forall id :: id in classes && classes[id].parent.Some? ==> IsCategory(classes, classes[id].parent.value))
  }

  /** In a well-formed graph only categories have classes below them. */
  lemma StrictlyAboveIsCategory(classes: Classes, a: nat, id: nat)
    requires WellFormed(classes) && Above(classes, a, id) && a != id
    ensures IsCategory(classes, a)
  {
    var n: nat :| Nth(classes, id, n) == Some(a);
    LastStepIsCategory(classes, id, n);
  }

  lemma {:induction false} LastStepIsCategory(classes: Classes, id: nat, n: nat)
    requires WellFormed(classes) && n > 0 && Nth(classes, id, n).Some?
    ensures IsCategory(classes, Nth(classes, id, n).value)
    decreases n
  {
    if n > 1 {
      LastStepIsCategory(classes, Parent(classes, id).value, n - 1);
    }
  }

  // ----- Walking up with a record of visited classes -----

  /** First class at or above `current` that satisfies `p`; stops on the first repetition. */
  ghost function Walk(classes: Classes, current: Option<nat>, seen: set<nat>, p: nat -> bool): Option<nat>
    decreases |classes.Keys - seen|, if current.Some? && current.value in classes then 0 else 1
  {
    if current.None? || current.value in seen then None
    else if p(current.value) then current
    else if current.value !in classes then None
    else
      assert classes.Keys - (seen + {current.value}) < classes.Keys - seen;
      SmallerSet(classes.Keys - (seen + {current.value}), classes.Keys - seen);
      Walk(classes, classes[current.value].parent, seen + {current.value}, p)
  }

  lemma SmallerSet(a: set<nat>, b: set<nat>)
    requires a < b
    ensures |a| < |b|
  {
    var d := b - a;
    assert b == a + d && |b| == |a| + |d|;
    assert d != {};
  }

  /** Every visited class failed `p`, and its parent is visited too or is where the walk stands. */
  predicate Trail(classes: Classes, current: Option<nat>, seen: set<nat>, p: nat -> bool) {
    forall s :: s in seen ==>
      && !p(s)
      && s in classes
      && (classes[s].parent == current || classes[s].parent.None? || classes[s].parent.value in seen)
  }

  lemma {:induction false} TrailClosed(classes: Classes, id: nat, seen: set<nat>, p: nat -> bool, n: nat)
    requires Trail(classes, Some(id), seen, p) && id in seen
    ensures Nth(classes, id, n).Some? ==> Nth(classes, id, n).value in seen
    decreases n
  {
    TrailClosedFrom(classes, id, id, seen, p, n);
  }

  lemma {:induction false} TrailClosedFrom(classes: Classes, top: nat, id: nat, seen: set<nat>, p: nat -> bool, n: nat)
    requires Trail(classes, Some(top), seen, p) && top in seen && id in seen
    ensures Nth(classes, id, n).Some? ==> Nth(classes, id, n).value in seen
    decreases n
  {
    if n > 0 && Parent(classes, id).Some? {
      TrailClosedFrom(classes, top, Parent(classes, id).value, seen, p, n - 1);
    }
  }

  /** The class `n` steps up is the nearest one satisfying `p`. */
  ghost predicate Nearest(classes: Classes, id: nat, p: nat -> bool, n: nat) {
    && Nth(classes, id, n).Some? && p(Nth(classes, id, n).value)
    && forall m: nat :: m < n ==> Nth(classes, id, m).Some? && !p(Nth(classes, id, m).value)
  }

  lemma {:induction false} WalkFrom(classes: Classes, id: nat, seen: set<nat>, p: nat -> bool)
    requires Trail(classes, Some(id), seen, p)
    ensures var r := Walk(classes, Some(id), seen, p);
            if r.Some? then exists n: nat :: Nearest(classes, id, p, n) && Nth(classes, id, n) == r
            else forall n: nat :: Nth(classes, id, n).Some? ==> !p(Nth(classes, id, n).value)
    decreases |classes.Keys - seen|
  {
    var r := Walk(classes, Some(id), seen, p);
    if id in seen {
      forall n: nat | Nth(classes, id, n).Some?
        ensures !p(Nth(classes, id, n).value)
      {
        TrailClosed(classes, id, seen, p, n);
      }
    } else if p(id) {
      assert Nth(classes, id, 0) == Some(id);
      assert Nearest(classes, id, p, 0);
    } else if Parent(classes, id).None? {
      forall n: nat | Nth(classes, id, n).Some?
        ensures !p(Nth(classes, id, n).value)
      {
        assert n == 0;
      }
      if id in classes { assert Walk(classes, None, seen + {id}, p).None?; }
    } else {
      var up := classes[id].parent.value;
      assert classes.Keys - (seen + {id}) < classes.Keys - seen;
      SmallerSet(classes.Keys - (seen + {id}), classes.Keys - seen);
      WalkFrom(classes, up, seen + {id}, p);
      WalkStep(classes, id, up, p, r);
    }
  }

  lemma WalkStep(classes: Classes, id: nat, up: nat, p: nat -> bool, r: Option<nat>)
    requires Parent(classes, id) == Some(up) && !p(id)
    requires if r.Some? then exists n: nat :: Nearest(classes, up, p, n) && Nth(classes, up, n) == r
             else forall n: nat :: Nth(classes, up, n).Some? ==> !p(Nth(classes, up, n).value)
    ensures if r.Some? then exists n: nat :: Nearest(classes, id, p, n) && Nth(classes, id, n) == r
            else forall n: nat :: Nth(classes, id, n).Some? ==> !p(Nth(classes, id, n).value)
  {
    if r.Some? {
      var n: nat :| Nearest(classes, up, p, n) && Nth(classes, up, n) == r;
      forall m: nat | m < n + 1
        ensures Nth(classes, id, m).Some? && !p(Nth(classes, id, m).value)
      {
        if m > 0 { assert Nth(classes, id, m) == Nth(classes, up, m - 1); }
      }
      assert Nth(classes, id, n + 1) == Nth(classes, up, n);
      assert Nearest(classes, id, p, n + 1);
    } else {
      forall n: nat | Nth(classes, id, n).Some?
        ensures !p(Nth(classes, id, n).value)
      {
        if n > 0 { assert Nth(classes, id, n) == Nth(classes, up, n - 1); }
      }
    }
  }

  /** On every graph, cyclic ones included, the walk finds exactly the nearest class satisfying `p`. */
  lemma WalkIsNearest(classes: Classes, id: nat, p: nat -> bool)
    ensures var r := Walk(classes, Some(id), {}, p);
            if r.Some? then exists n: nat :: Nearest(classes, id, p, n) && Nth(classes, id, n) == r
            else forall n: nat :: Nth(classes, id, n).Some? ==> !p(Nth(classes, id, n).value)
  {
    WalkFrom(classes, id, {}, p);
  }

  // ----- Ancestor tests and category lookup -----

  function SameCategory(classes: Classes, categoryId: nat): nat -> bool {
    (x: nat) => x == categoryId && IsCategory(classes, x)
  }

  function AnyCategory(classes: Classes): nat -> bool {
    (x: nat) => IsCategory(classes, x)
  }

  ghost predicate AncestorCategory(classes: Classes, categoryId: nat, id: nat) {
    IsCategory(classes, categoryId) && Above(classes, categoryId, id)
  }

  lemma WalkToCategory(classes: Classes, categoryId: nat, id: nat)
    ensures Walk(classes, Some(id), {}, SameCategory(classes, categoryId)).Some? <==>
            AncestorCategory(classes, categoryId, id)
  {
    var p := SameCategory(classes, categoryId);
    WalkIsNearest(classes, id, p);
    if AncestorCategory(classes, categoryId, id) {
      var n: nat :| Nth(classes, id, n) == Some(categoryId);
      assert p(Nth(classes, id, n).value);
    }
  }

  /** category_is_ancestor */
  method CategoryIsAncestor(classes: Classes, categoryId: nat, classId: nat) returns (found: bool)
    ensures found <==> AncestorCategory(classes, categoryId, classId)
  {
    ghost var p := SameCategory(classes, categoryId);
    WalkToCategory(classes, categoryId, classId);
    var current: Option<nat> := Some(classId);
    var seen: set<nat> := {};
    while current.Some? && current.value in classes && current.value !in seen
      invariant Walk(classes, current, seen, p) == Walk(classes, Some(classId), {}, p)
      decreases classes.Keys - seen
    {
      var id := current.value;
      if id == categoryId && classes[id].kind == Category { return true; }
      seen := seen + {id};
      current := classes[id].parent;
    }
    return false;
  }

  /** The nearest category at or above a class, if any. */
  ghost function RuntimeCategory(classes: Classes, id: nat): Option<nat> {
    Walk(classes, Some(id), {}, AnyCategory(classes))
  }

  /** runtime_category_id */
  method RuntimeCategoryId(classes: Classes, classId: nat) returns (r: Option<nat>)
    ensures r == RuntimeCategory(classes, classId)
  {
    ghost var p := AnyCategory(classes);
    var current: Option<nat> := Some(classId);
    var seen: set<nat> := {};
    while current.Some? && current.value in classes && current.value !in seen
      invariant Walk(classes, current, seen, p) == Walk(classes, Some(classId), {}, p)
      decreases classes.Keys - seen
    {
      var id := current.value;
      if classes[id].kind == Category { return Some(id); }
      seen := seen + {id};
      current := classes[id].parent;
    }
    return None;
  }

  /** One configured class's share of validate_class_graph: true when it reports an error. */
  method ChainHasError(classes: Classes, classId: nat) returns (error: bool)
    requires classId in classes
    ensures error <==> !Rooted(classes, classId)
  {
    var current: Option<nat> := Some(classId);
    var seen: set<nat> := {};
    ghost var steps := 0;
    while current.Some?
      invariant current.Some? ==> current.value in classes && Nth(classes, classId, steps) == current
      invariant forall s :: s in seen ==> exists m: nat :: m < steps && Nth(classes, classId, m) == Some(s)
      invariant current.Some? && Rooted(classes, current.value) ==> Rooted(classes, classId)
      invariant current.None? ==> Rooted(classes, classId)
      decreases classes.Keys - seen, current.Some?
    {
      var id := current.value;
      if id in seen {
        ghost var m: nat :| m < steps && Nth(classes, classId, m) == Some(id);
        RepeatIsCycle(classes, classId, m, steps);
        return true;
      }
      if classes[id].parent.Some? && classes[id].parent.value !in classes {
        DanglingIsNotRooted(classes, classId, steps);
        return true;
      }
      NthAdd(classes, classId, steps, 1);
      RootedStep(classes, id);
      seen := seen + {id};
      steps := steps + 1;
      current := classes[id].parent;
      if current.Some? { assert Nth(classes, id, 1) == current by { assert Nth(classes, current.value, 0) == current; } }
    }
    return false;
  }

  lemma RootedStep(classes: Classes, id: nat)
    requires id in classes
    ensures classes[id].parent.None? ==> Rooted(classes, id)
    ensures classes[id].parent.Some? && Rooted(classes, classes[id].parent.value) ==> Rooted(classes, id)
  {
    if classes[id].parent.None? {
      assert RootedWithin(classes, id, 0);
    } else if Rooted(classes, classes[id].parent.value) {
      var n: nat :| RootedWithin(classes, classes[id].parent.value, n);
      assert RootedWithin(classes, id, n + 1);
    }
  }

  lemma RepeatIsCycle(classes: Classes, id: nat, m: nat, n: nat)
    requires m < n && Nth(classes, id, m).Some? && Nth(classes, id, n) == Nth(classes, id, m)
    ensures !Rooted(classes, id)
  {
    if Rooted(classes, id) {
      var b: nat :| RootedWithin(classes, id, b);
      var x := Nth(classes, id, m).value;
      RootedUp(classes, id, b, m);
      NthAdd(classes, id, m, n - m);
      RootedHasNoCycle(classes, x, n - m);
    }
  }

  lemma RootedParent(classes: Classes, id: nat, n: nat)
    requires RootedWithin(classes, id, n)
    ensures classes[id].parent.Some? ==> classes[id].parent.value in classes
  {
  }

  lemma DanglingIsNotRooted(classes: Classes, id: nat, n: nat)
    requires Nth(classes, id, n).Some? && Nth(classes, id, n).value in classes
    requires classes[Nth(classes, id, n).value].parent.Some?
    requires classes[Nth(classes, id, n).value].parent.value !in classes
    ensures !Rooted(classes, id)
  {
    if Rooted(classes, id) {
      var b: nat :| RootedWithin(classes, id, b);
      RootedUp(classes, id, b, n);
      var x := Nth(classes, id, n).value;
      var c: nat :| RootedWithin(classes, x, c);
      RootedParent(classes, x, c);
    }
  }

  /** validate_class_graph and the parent-kind check: no error exactly for well-formed graphs. */
  method ValidateClassGraph(classes: Classes, configuredIds: seq<nat>) returns (errors: nat)
    requires forall id :: id in configuredIds <==> id in classes
    ensures errors == 0 <==> WellFormed(classes)
  {
    errors := 0;
    for i := 0 to |configuredIds|
      invariant errors == 0 <==> forall k :: 0 <= k < i ==> Rooted(classes, configuredIds[k])
    {
      assert configuredIds[i] in configuredIds;
      var error := ChainHasError(classes, configuredIds[i]);
      if error { errors := errors + 1; }
    }
    ghost var rooted := errors == 0;
    assert rooted <==> forall id :: id in classes ==> Rooted(classes, id);
    for i := 0 to |configuredIds|
      invariant errors == 0 <==> rooted && forall k :: 0 <= k < i ==> ParentIsCategory(classes, configuredIds[k])
    {
      var parent := Parent(classes, configuredIds[i]);
      if parent.Some? && parent.value in classes && classes[parent.value].kind != Category {
        errors := errors + 1;
      }
      if rooted { RootedParentKnown(classes, configuredIds[i]); }
    }
    assert rooted ==> ((forall k :: 0 <= k < |configuredIds| ==> ParentIsCategory(classes, configuredIds[k])) <==>
                       forall id :: id in classes ==> ParentIsCategory(classes, id));
  }

  predicate ParentIsCategory(classes: Classes, id: nat) {
    Parent(classes, id).Some? ==> IsCategory(classes, Parent(classes, id).value)
  }

  lemma RootedParentKnown(classes: Classes, id: nat)
    requires forall k :: k in classes ==> Rooted(classes, k)
    ensures Parent(classes, id).Some? ==> Parent(classes, id).value in classes
  {
    if Parent(classes, id).Some? {
      var b: nat :| RootedWithin(classes, id, b);
      RootedParent(classes, id, b);
    }
  }
}
