/** Code-unit order on strings and the stable sort that the agent, the Windows
    helper and the metadata helper all apply before they compare or hash a list. */
module Lexical {

  /** `a < b` on strings: the first differing code unit decides, a proper prefix comes first. */
  predicate Less(a: string, b: string) {
    b != [] && (a == [] || a[0] < b[0] || (a[0] == b[0] && Less(a[1..], b[1..])))
  }

  lemma {:induction false} LessIrreflexive(a: string)
    ensures !Less(a, a)
  {
    if a != [] { LessIrreflexive(a[1..]); }
  }

  lemma {:induction false} LessTransitive(a: string, b: string, c: string)
    requires Less(a, b) && Less(b, c)
    ensures Less(a, c)
  {
    if a != [] && a[0] == b[0] && b[0] == c[0] {
      LessTransitive(a[1..], b[1..], c[1..]);
    }
  }

  lemma {:induction false} LessTotal(a: string, b: string)
    ensures a == b || Less(a, b) || Less(b, a)
  {
    if a != [] && b != [] && a[0] == b[0] {
      LessTotal(a[1..], b[1..]);
      assert a == [a[0]] + a[1..] && b == [b[0]] + b[1..];
    }
  }

  /** Strictly increasing keys: sorted and without duplicates. */
  ghost predicate Increasing<T>(s: seq<T>, key: T -> string) {
    forall i, j :: 0 <= i < j < |s| ==> Less(key(s[i]), key(s[j]))
  }

  ghost predicate DistinctKeys<T>(s: seq<T>, key: T -> string) {
    forall i, j :: 0 <= i < j < |s| ==> key(s[i]) != key(s[j])
  }

  function Insert<T>(x: T, s: seq<T>, key: T -> string): (r: seq<T>)
    ensures multiset(r) == multiset(s) + multiset{x}
    ensures |r| == |s| + 1
  {
    if s == [] || !Less(key(s[0]), key(x)) then [x] + s
    else
      assert s == [s[0]] + s[1..];
      [s[0]] + Insert(x, s[1..], key)
  }

  /** Stable insertion sort by key: equal keys keep their order. */
  function Sort<T>(s: seq<T>, key: T -> string): (r: seq<T>)
    ensures multiset(r) == multiset(s)
    ensures |r| == |s|
  {
    if s == [] then []
    else
      assert s == [s[0]] + s[1..];
      Insert(s[0], Sort(s[1..], key), key)
  }

  lemma {:induction false} SameElements<T>(a: seq<T>, b: seq<T>)
    requires multiset(a) == multiset(b)
    ensures forall x :: x in a <==> x in b
  {
    forall x ensures x in a <==> x in b {
      assert x in a <==> x in multiset(a);
      assert x in b <==> x in multiset(b);
    }
  }

  lemma {:induction false} InsertIncreasing<T>(x: T, s: seq<T>, key: T -> string)
    requires Increasing(s, key)
    requires forall y :: y in s ==> key(y) != key(x)
    ensures Increasing(Insert(x, s, key), key)
  {
    var r := Insert(x, s, key);
    if s == [] {
    } else if !Less(key(s[0]), key(x)) {
      LessTotal(key(s[0]), key(x));
      forall i, j | 0 <= i < j < |r| ensures Less(key(r[i]), key(r[j])) {
        if i == 0 && j > 1 { LessTransitive(key(x), key(s[0]), key(s[j - 1])); }
      }
    } else {
      InsertIncreasing(x, s[1..], key);
      var t := Insert(x, s[1..], key);
      forall i, j | 0 <= i < j < |r| ensures Less(key(r[i]), key(r[j])) {
        if i == 0 {
          assert r[j] == t[j - 1] && t[j - 1] in multiset(t);
          assert t[j - 1] == x || t[j - 1] in s[1..];
        }
      }
    }
  }

  /** Sorting a list whose keys are distinct gives strictly increasing keys. */
  lemma {:induction false} SortIncreasing<T>(s: seq<T>, key: T -> string)
    requires DistinctKeys(s, key)
    ensures Increasing(Sort(s, key), key)
  {
    if s != [] {
      SortIncreasing(s[1..], key);
      var rest, t := s[1..], Sort(s[1..], key);
      forall y | y in t ensures key(y) != key(s[0]) {
        assert y in multiset(t) && multiset(t) == multiset(rest);
        assert y in rest;
        var k :| 0 <= k < |rest| && rest[k] == y;
        assert s[1 + k] == y;
      }
      InsertIncreasing(s[0], t, key);
    }
  }

  lemma {:induction false} LeastFirst<T>(a: seq<T>, b: seq<T>, key: T -> string)
    requires Increasing(a, key) && Increasing(b, key)
    requires multiset(a) == multiset(b) && a != [] && b != []
    ensures a[0] == b[0]
  {
    SameElements(a, b);
    if a[0] != b[0] {
      assert a[0] in b && b[0] in a;
      var i :| 0 <= i < |a| && a[i] == b[0];
      var j :| 0 <= j < |b| && b[j] == a[0];
      LessTransitive(key(a[0]), key(b[0]), key(a[0]));
      LessIrreflexive(key(a[0]));
      assert false;
    }
  }

  lemma {:induction false} SameTail<T>(a: seq<T>, b: seq<T>)
    requires multiset(a) == multiset(b) && a != [] && b != [] && a[0] == b[0]
    ensures multiset(a[1..]) == multiset(b[1..])
  {
    assert a == [a[0]] + a[1..] && b == [b[0]] + b[1..];
    assert multiset(a[1..]) == multiset(a) - multiset{a[0]};
    assert multiset(b[1..]) == multiset(b) - multiset{b[0]};
  }

  /** A strictly increasing list is determined by its elements. */
  lemma {:induction false} IncreasingUnique<T>(a: seq<T>, b: seq<T>, key: T -> string)
    requires Increasing(a, key) && Increasing(b, key)
    requires multiset(a) == multiset(b)
    ensures a == b
  {
    assert |a| == |multiset(a)| && |b| == |multiset(b)|;
    if a != [] {
      LeastFirst(a, b, key);
      SameTail(a, b);
      IncreasingUnique(a[1..], b[1..], key);
      assert a == [a[0]] + a[1..] && b == [b[0]] + b[1..];
    }
  }

  lemma {:induction false} DistinctKeysOfPermutation<T>(a: seq<T>, b: seq<T>, key: T -> string)
    requires DistinctKeys(a, key) && multiset(a) == multiset(b)
    ensures DistinctKeys(b, key)
  {
    SortIncreasing(a, key);
    DistinctFromIncreasing(Sort(a, key), b, key);
  }

  lemma {:induction false} CountedTwice<T>(s: seq<T>, i: nat, j: nat)
    requires i < j < |s| && s[i] == s[j]
    ensures multiset(s)[s[i]] >= 2
  {
    assert s == s[..j] + s[j..];
    assert s[i] in s[..j] && s[j] in s[j..];
  }

  lemma {:induction false} CountedOnce<T>(s: seq<T>, key: T -> string, m: nat)
    requires Increasing(s, key) && m < |s|
    ensures multiset(s)[s[m]] == 1
  {
    LessIrreflexive(key(s[m]));
    assert s == s[..m] + [s[m]] + s[m + 1..];
    assert s[m] !in s[..m] && s[m] !in s[m + 1..];
  }

  lemma {:induction false} DistinctFromIncreasing<T>(a: seq<T>, b: seq<T>, key: T -> string)
    requires Increasing(a, key) && multiset(a) == multiset(b)
    ensures DistinctKeys(b, key)
  {
    SameElements(a, b);
    forall i, j | 0 <= i < j < |b| && key(b[i]) == key(b[j]) ensures false {
      assert b[i] in a && b[j] in a;
      var m :| 0 <= m < |a| && a[m] == b[i];
      var n :| 0 <= n < |a| && a[n] == b[j];
      LessIrreflexive(key(a[m]));
      assert m == n;
      CountedTwice(b, i, j);
      CountedOnce(a, key, m);
    }
  }

  /** Any two arrangements of the same distinctly keyed elements sort to the same list. */
  lemma {:induction false} SortIgnoresOrder<T>(a: seq<T>, b: seq<T>, key: T -> string)
    requires DistinctKeys(a, key) && multiset(a) == multiset(b)
    ensures Sort(a, key) == Sort(b, key)
  {
    DistinctKeysOfPermutation(a, b, key);
    SortIncreasing(a, key);
    SortIncreasing(b, key);
    IncreasingUnique(Sort(a, key), Sort(b, key), key);
  }

  /** Two lists, one of them distinctly keyed, sort alike exactly when they hold the same elements. */
  lemma {:induction false} SortsAlikeIff<T>(a: seq<T>, b: seq<T>, key: T -> string)
    requires DistinctKeys(a, key)
    ensures Sort(a, key) == Sort(b, key) <==> multiset(a) == multiset(b)
  {
    if multiset(a) == multiset(b) { SortIgnoresOrder(a, b, key); }
  }

  // ----- sorting with repeated keys -----

  /** Sorted, repetitions allowed. */
  ghost predicate Ascending<T>(s: seq<T>, key: T -> string) {
    forall i, j :: 0 <= i < j < |s| ==> !Less(key(s[j]), key(s[i]))
  }

  lemma {:induction false} NotLessTransitive(a: string, b: string, c: string)
    requires !Less(a, b) && !Less(b, c)
    ensures !Less(a, c)
  {
    LessTotal(b, c);
    if Less(a, c) && Less(c, b) { LessTransitive(a, c, b); }
  }

  lemma {:induction false} LessAsymmetric(a: string, b: string)
    requires Less(a, b)
    ensures !Less(b, a)
  {
    LessIrreflexive(a);
    if Less(b, a) { LessTransitive(a, b, a); }
  }

  lemma {:induction false} InsertAscending<T>(x: T, s: seq<T>, key: T -> string)
    requires Ascending(s, key)
    ensures Ascending(Insert(x, s, key), key)
  {
    var r := Insert(x, s, key);
    if s == [] {
    } else if !Less(key(s[0]), key(x)) {
      forall i, j | 0 <= i < j < |r| ensures !Less(key(r[j]), key(r[i])) {
        if i == 0 && j > 1 { NotLessTransitive(key(s[j - 1]), key(s[0]), key(x)); }
      }
    } else {
      InsertAscending(x, s[1..], key);
      var t := Insert(x, s[1..], key);
      forall i, j | 0 <= i < j < |r| ensures !Less(key(r[j]), key(r[i])) {
        if i == 0 {
          assert r[j] == t[j - 1] && t[j - 1] in multiset(t);
          LessAsymmetric(key(s[0]), key(x));
          assert t[j - 1] == x || t[j - 1] in s[1..];
        }
      }
    }
  }

  lemma {:induction false} SortAscending<T>(s: seq<T>, key: T -> string)
    ensures Ascending(Sort(s, key), key)
  {
    if s != [] {
      SortAscending(s[1..], key);
      InsertAscending(s[0], Sort(s[1..], key), key);
    }
  }

  ghost predicate NeighboursDiffer<T>(s: seq<T>, key: T -> string) {
    forall i, j :: 0 <= i < j < |s| && j == i + 1 ==> key(s[i]) != key(s[j])
  }

  /** In a sorted list, neighbours with different keys mean all keys are different. */
  lemma {:induction false} NeighboursSuffice<T>(s: seq<T>, key: T -> string)
    requires Ascending(s, key) && NeighboursDiffer(s, key)
    ensures Increasing(s, key)
  {
    forall i, j | 0 <= i < j < |s| ensures Less(key(s[i]), key(s[j])) {
      LessTotal(key(s[i]), key(s[i + 1]));
      if i + 1 < j {
        LessTotal(key(s[i]), key(s[j]));
        assert !Less(key(s[j]), key(s[i + 1]));
        EqualOrLess(key(s[i]), key(s[i + 1]), key(s[j]));
      }
    }
  }

  lemma {:induction false} EqualOrLess(a: string, b: string, c: string)
    requires Less(a, b) && !Less(c, b)
    ensures Less(a, c)
  {
    LessTotal(b, c);
    if Less(b, c) { LessTransitive(a, b, c); }
  }

  /** Checking neighbours after sorting finds a repeated key wherever it was listed. */
  lemma {:induction false} DistinctIffNeighboursDiffer<T>(s: seq<T>, key: T -> string)
    ensures DistinctKeys(s, key) <==> NeighboursDiffer(Sort(s, key), key)
  {
    var t := Sort(s, key);
    if DistinctKeys(s, key) {
      SortIncreasing(s, key);
      forall i, j | 0 <= i < j < |t| && j == i + 1 ensures key(t[i]) != key(t[j]) { LessIrreflexive(key(t[i])); }
    }
    if NeighboursDiffer(t, key) {
      SortAscending(s, key);
      NeighboursSuffice(t, key);
      DistinctFromIncreasing(t, s, key);
    }
  }

  // ----- where sorted elements come from -----

  /** Each place of one list, and the place of the other list its element comes from. */
  ghost predicate ComesFrom<T>(a: seq<T>, b: seq<T>, from: seq<nat>) {
    && |from| == |a| == |b|
    && (forall i :: 0 <= i < |a| ==> from[i] < |b| && a[i] == b[from[i]])
    && (forall i, j :: 0 <= i < j < |a| ==> from[i] != from[j])
  }

  /** Behind an element that stays in front, every place moves by one, except that of the new element. */
  lemma {:induction false} FrontStays<T>(a: seq<T>, x: T, head: T, b: seq<T>, later: seq<nat>) returns (from: seq<nat>)
    requires ComesFrom(a, [x] + b, later)
    ensures ComesFrom([head] + a, [x] + ([head] + b), from)
  {
    from := [1] + seq(|later|, i requires 0 <= i < |later| => if later[i] == 0 then 0 else later[i] + 1);
    forall i | 0 <= i < |from| ensures from[i] < |b| + 2 && ([head] + a)[i] == ([x] + ([head] + b))[from[i]] {
      if i > 0 { assert a[i - 1] == ([x] + b)[later[i - 1]]; }
    }
    forall i, j | 0 <= i < j < |from| ensures from[i] != from[j] {
      if i > 0 { assert later[i - 1] != later[j - 1]; }
    }
  }

  lemma {:induction false} ItselfComesFrom<T>(a: seq<T>) returns (from: seq<nat>)
    ensures ComesFrom(a, a, from)
  {
    from := seq(|a|, i requires 0 <= i < |a| => i);
  }

  lemma {:induction false} InsertComesFrom<T>(x: T, s: seq<T>, key: T -> string) returns (from: seq<nat>)
    ensures ComesFrom(Insert(x, s, key), [x] + s, from)
  {
    hide ComesFrom, Less;
    if s == [] || !Less(key(s[0]), key(x)) {
      from := ItselfComesFrom([x] + s);
    } else {
      var later := InsertComesFrom(x, s[1..], key);
      from := FrontStays(Insert(x, s[1..], key), x, s[0], s[1..], later);
      assert s == [s[0]] + s[1..];
    }
  }

  /** Where the elements of a list come from, one of which came before the others. */
  function Through(first: nat, later: seq<nat>): nat
    requires first <= |later|
  {
    if first == 0 then 0 else later[first - 1] + 1
  }

  lemma {:induction false} Composes<T>(r: seq<T>, t: seq<T>, x: T, rest: seq<T>, first: seq<nat>, later: seq<nat>) returns (from: seq<nat>)
    requires ComesFrom(r, [x] + t, first) && ComesFrom(t, rest, later)
    ensures ComesFrom(r, [x] + rest, from)
  {
    from := seq(|r|, i requires 0 <= i < |r| => Through(first[i], later));
    forall i | 0 <= i < |r| ensures from[i] < |[x] + rest| && r[i] == ([x] + rest)[from[i]] {
      if first[i] != 0 { assert r[i] == t[first[i] - 1] && t[first[i] - 1] == rest[later[first[i] - 1]]; }
    }
    forall i, j | 0 <= i < j < |r| ensures from[i] != from[j] {
      assert first[i] != first[j];
      if first[i] != 0 && first[j] != 0 { Different(later, first[i] - 1, first[j] - 1); }
    }
  }

  lemma {:induction false} Different(from: seq<nat>, i: nat, j: nat)
    requires forall i, j :: 0 <= i < j < |from| ==> from[i] != from[j]
    requires i < |from| && j < |from| && i != j
    ensures from[i] != from[j]
  {
  }

  /** A sorted list is its elements rearranged, place for place, repetitions included. */
  lemma {:induction false} SortComesFrom<T>(s: seq<T>, key: T -> string) returns (from: seq<nat>)
    ensures ComesFrom(Sort(s, key), s, from)
  {
    if s == [] {
      from := [];
    } else {
      var later := SortComesFrom(s[1..], key);
      var first := InsertComesFrom(s[0], Sort(s[1..], key), key);
      hide ComesFrom;
      from := Composes(Sort(s, key), Sort(s[1..], key), s[0], s[1..], first, later);
      assert [s[0]] + s[1..] == s;
    }
  }
}
