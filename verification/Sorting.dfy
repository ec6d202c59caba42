/** Sorting by a text key, in the byte-wise order of the runtime's `<` on strings. */
module Sorting {

  /** Strict lexicographic order. */
  predicate Below(a: string, b: string) {
    b != [] && (a == [] || a[0] < b[0] || (a[0] == b[0] && Below(a[1..], b[1..])))
  }

  lemma {:induction false} BelowTotal(a: string, b: string)
    ensures Below(a, b) || Below(b, a) || a == b
  {
    if a != [] && b != [] && a[0] == b[0] {
      BelowTotal(a[1..], b[1..]);
      if a[1..] == b[1..] {
        assert a == [a[0]] + a[1..];
        assert b == [b[0]] + b[1..];
      }
    }
  }

  lemma {:induction false} BelowTransitive(a: string, b: string, c: string)
    requires Below(a, b) && Below(b, c)
    ensures Below(a, c)
  {
    if a != [] && b != [] && c != [] && a[0] == b[0] && b[0] == c[0] {
      BelowTransitive(a[1..], b[1..], c[1..]);
    }
  }

  lemma {:induction false} BelowIrreflexive(a: string)
    ensures !Below(a, a)
  {
    if a != [] {
      BelowIrreflexive(a[1..]);
    }
  }

  predicate Ascending<T>(key: T -> string, s: seq<T>) {
    forall i, j :: 0 <= i < j < |s| ==> Below(key(s[i]), key(s[j]))
  }

  predicate DistinctKeys<T>(key: T -> string, s: seq<T>) {
    forall i, j :: 0 <= i < j < |s| ==> key(s[i]) != key(s[j])
  }

  function Insert<T>(key: T -> string, x: T, s: seq<T>): (r: seq<T>)
    ensures |r| == |s| + 1
  {
    if s == [] || Below(key(x), key(s[0])) then [x] + s else [s[0]] + Insert(key, x, s[1..])
  }

  function Sort<T>(key: T -> string, s: seq<T>): (r: seq<T>)
    ensures |r| == |s|
  {
    if s == [] then [] else Insert(key, s[0], Sort(key, s[1..]))
  }

  lemma {:induction false} InsertElements<T>(key: T -> string, x: T, s: seq<T>)
    ensures multiset(Insert(key, x, s)) == multiset(s) + multiset{x}
  {
    if s == [] || Below(key(x), key(s[0])) {
    } else {
      InsertElements(key, x, s[1..]);
      assert s == [s[0]] + s[1..];
    }
  }

  lemma {:induction false} SortElements<T>(key: T -> string, s: seq<T>)
    ensures multiset(Sort(key, s)) == multiset(s)
  {
    if s != [] {
      SortElements(key, s[1..]);
      InsertElements(key, s[0], Sort(key, s[1..]));
      assert s == [s[0]] + s[1..];
    }
  }

  lemma {:induction false} InsertAscending<T>(key: T -> string, x: T, s: seq<T>)
    requires Ascending(key, s) && forall y :: y in s ==> key(y) != key(x)
    ensures Ascending(key, Insert(key, x, s))
  {
    var r := Insert(key, x, s);
    if s == [] {
    } else if Below(key(x), key(s[0])) {
      forall j | 0 <= j < |s|
        ensures Below(key(x), key(s[j]))
      {
        if j > 0 { BelowTransitive(key(x), key(s[0]), key(s[j])); }
      }
    } else {
      BelowTotal(key(x), key(s[0]));
      assert s[0] in s;
      InsertAscending(key, x, s[1..]);
      InsertElements(key, x, s[1..]);
      var rest := Insert(key, x, s[1..]);
      forall j | 0 <= j < |rest|
        ensures Below(key(s[0]), key(rest[j]))
      {
        assert rest[j] in rest;
        if rest[j] != x {
          assert rest[j] in multiset(rest);
          assert rest[j] in s[1..];
          var k :| 0 <= k < |s[1..]| && s[1..][k] == rest[j];
          assert s[k + 1] == rest[j];
        }
      }
    }
  }

  lemma {:induction false} SortAscending<T>(key: T -> string, s: seq<T>)
    requires DistinctKeys(key, s)
    ensures Ascending(key, Sort(key, s))
  {
    if s != [] {
      SortAscending(key, s[1..]);
      SortElements(key, s[1..]);
      forall y | y in Sort(key, s[1..])
        ensures key(y) != key(s[0])
      {
        assert y in multiset(Sort(key, s[1..]));
        assert y in s[1..];
        var k :| 0 <= k < |s[1..]| && s[1..][k] == y;
        assert s[k + 1] == y;
      }
      InsertAscending(key, s[0], Sort(key, s[1..]));
    }
  }

  /** Sorting a sorted list changes nothing. */
  lemma {:induction false} SortOfAscending<T>(key: T -> string, s: seq<T>)
    requires Ascending(key, s)
    ensures Sort(key, s) == s
  {
    if s != [] {
      SortOfAscending(key, s[1..]);
      assert s == [s[0]] + s[1..];
    }
  }

  lemma AscendingDistinct<T>(key: T -> string, s: seq<T>)
    requires Ascending(key, s)
    ensures DistinctKeys(key, s)
  {
    forall i, j | 0 <= i < j < |s|
      ensures key(s[i]) != key(s[j])
    {
      BelowIrreflexive(key(s[i]));
    }
  }

  /** The key of texts that are sorted by themselves. */
  function Self(s: string): string {
    s
  }
}
