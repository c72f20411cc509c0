/** Small facts about sequences, sets and maps that keep larger proofs short. */
module Sequences {
  import opened Wrappers

  lemma {:induction false} Associates<T>(a: seq<T>, b: seq<T>, c: seq<T>)
    ensures (a + b) + c == a + (b + c)
  {
  }

  lemma {:induction false} HeadAndTail<T>(s: seq<T>)
    requires s != []
    ensures s == [s[0]] + s[1..]
  {
  }

  lemma {:induction false} SameList<T>(s: seq<T>, t: seq<T>)
    requires s != [] && t != [] && s[0] == t[0] && s[1..] == t[1..]
    ensures s == t
  {
    HeadAndTail(s);
    HeadAndTail(t);
  }

  /** Two equal texts whose first parts have one length agree in both parts. */
  lemma {:induction false} Cut<T>(a: seq<T>, b: seq<T>, x: seq<T>, y: seq<T>)
    requires |a| == |b| && a + x == b + y
    ensures a == b && x == y
  {
    assert a == (a + x)[..|a|] && b == (b + y)[..|b|];
    assert x == (a + x)[|a|..] && y == (b + y)[|b|..];
  }

  /** Where `mark` first occurs, or the length of the text. */
  function Position<T(==)>(s: seq<T>, mark: T): nat {
    if s == [] || s[0] == mark then 0 else 1 + Position(s[1..], mark)
  }

  lemma {:induction false} PositionAfter<T>(s: seq<T>, mark: T, x: seq<T>)
    requires mark !in s
    ensures Position(s + ([mark] + x), mark) == |s|
  {
    if s == [] {
      assert s + ([mark] + x) == [mark] + x;
    } else {
      assert (s + ([mark] + x))[1..] == s[1..] + ([mark] + x);
      PositionAfter(s[1..], mark, x);
    }
  }

  lemma {:induction false} PositionFirst<T>(s: seq<T>, mark: T)
    ensures forall k :: 0 <= k < |s| && s[k] == mark ==> Position(s, mark) <= k
    ensures mark !in s ==> Position(s, mark) == |s|
  {
    if s != [] {
      PositionFirst(s[1..], mark);
      HeadAndTail(s);
      forall k | 0 < k < |s| ensures s[k] == s[1..][k - 1] { }
    }
  }

  /** Texts free of a mark can be told apart from what follows the mark. */
  lemma {:induction false} CutAtMark<T>(a: seq<T>, b: seq<T>, mark: T, x: seq<T>, y: seq<T>)
    requires mark !in a && mark !in b
    requires a + ([mark] + x) == b + ([mark] + y)
    ensures a == b && x == y
  {
    PositionAfter(a, mark, x);
    PositionAfter(b, mark, y);
    Cut(a, b, [mark] + x, [mark] + y);
    Cut([mark], [mark], x, y);
  }

  // ----- lists that may fail -----

  function Prepend<T>(first: seq<T>, rest: Option<seq<T>>): Option<seq<T>> {
    if rest.None? then None else Some(first + rest.value)
  }

  lemma {:induction false} PrependNothing<T>(rest: Option<seq<T>>)
    ensures Prepend([], rest) == rest
  {
    if rest.Some? { assert [] + rest.value == rest.value; }
  }

  lemma {:induction false} PrependTwice<T>(a: seq<T>, b: seq<T>, rest: Option<seq<T>>)
    ensures Prepend(a, Prepend(b, rest)) == Prepend(a + b, rest)
  {
    if rest.Some? { Associates(a, b, rest.value); }
  }

  // ----- sizes -----

  lemma {:induction false} FewerKeys<K, V>(a: map<K, V>, b: map<K, V>)
    requires a.Keys <= b.Keys
    ensures |a| <= |b|
  {
    SubsetSize(a.Keys, b.Keys);
    assert |a| == |a.Keys| && |b| == |b.Keys|;
  }

  lemma {:induction false} SubsetSize<K>(a: set<K>, b: set<K>)
    requires a <= b
    ensures |a| <= |b|
  {
    if a != {} {
      var x :| x in a;
      SubsetSize(a - {x}, b - {x});
    }
  }

  function UpTo(n: nat): (r: set<nat>)
    ensures |r| == n && forall i: nat :: i in r <==> i < n
  {
    if n == 0 then {} else UpTo(n - 1) + {n - 1}
  }

  function Members<T>(s: seq<T>): set<T> { set x | x in s }

  lemma {:induction false} DistinctSize<T>(s: seq<T>)
    requires forall i, j :: 0 <= i < j < |s| ==> s[i] != s[j]
    ensures |Members(s)| == |s|
  {
    if s != [] {
      DistinctSize(s[1..]);
      assert s[0] !in s[1..];
      assert Members(s) == Members(s[1..]) + {s[0]};
    }
  }

  /** As many different numbers below `n` as there are: all of them. */
  lemma {:induction false} Pigeonhole(f: seq<nat>, n: nat)
    requires |f| == n && (forall k :: 0 <= k < n ==> f[k] < n)
    requires forall i, j :: 0 <= i < j < n ==> f[i] != f[j]
    ensures forall m: nat :: m < n ==> m in f
  {
    DistinctSize(f);
    assert Members(f) <= UpTo(n);
    SameSize(Members(f), UpTo(n));
    forall m: nat | m < n ensures m in f { assert m in UpTo(n); }
  }

  lemma {:induction false} SameSize<T>(a: set<T>, b: set<T>)
    requires a <= b && |a| == |b|
    ensures a == b
  {
    if x :| x in b && x !in a {
      SubsetSize(a, b - {x});
      assert false;
    }
  }

  lemma {:induction false} AtMostOnce<T>(a: seq<T>, x: T)
    requires forall i, j :: 0 <= i < j < |a| ==> a[i] != a[j]
    ensures multiset(a)[x] == if x in a then 1 else 0
  {
    if a != [] {
      HeadAndTail(a);
      AtMostOnce(a[1..], x);
      if a[0] == x { assert x !in a[1..]; }
    }
  }

  /** Different elements that all occur in a list no longer than theirs: the same list, rearranged. */
  lemma {:induction false} Rearranged<T>(a: seq<T>, b: seq<T>)
    requires |a| == |b| && forall i, j :: 0 <= i < j < |a| ==> a[i] != a[j]
    requires forall i :: 0 <= i < |a| ==> a[i] in b
    ensures multiset(a) == multiset(b)
  {
    var (p, q) := (multiset(a), multiset(b));
    forall x ensures p[x] <= q[x] {
      AtMostOnce(a, x);
      if x in a { assert x in multiset(b); }
    }
    assert p <= q;
    assert |q - p| == |q| - |p| == 0;
    assert q == p + (q - p);
  }
}
