/**
 * Sequence operations that stand for the Java collections used by the source:
 * `List.remove(Object)` (first occurrence), `LinkedHashSet.add` (append when
 * absent) and `LinkedHashSet.remove` (drop the element).
 */
module Seqs {

  /** No element occurs twice. */
  ghost predicate NoDup<T>(s: seq<T>) {
    forall i, j | 0 <= i < j < |s| :: s[i] != s[j]
  }

  /** Position of the first occurrence of `x`, or `|s|` when `x` is absent. */
  function IndexOf<T(==)>(s: seq<T>, x: T): (i: nat)
    ensures i <= |s|
    ensures i < |s| <==> x in s
    ensures i < |s| ==> s[i] == x
    ensures forall j | 0 <= j < i :: s[j] != x
  {
    if |s| == 0 then 0
    else if s[0] == x then 0
    else 1 + IndexOf(s[1..], x)
  }

  /** `List.remove(Object)`: delete the first occurrence of `x`, if any. */
  function RemoveFirst<T(==)>(s: seq<T>, x: T): (r: seq<T>)
    ensures x !in s ==> r == s
    ensures x in s ==> |r| == |s| - 1
  {
    if |s| == 0 then []
    else if s[0] == x then s[1..]
    else
      assert s == [s[0]] + s[1..];
      [s[0]] + RemoveFirst(s[1..], x)
  }

  /** `LinkedHashSet.add`: append `x` unless it is already present. */
  function Insert<T(==)>(s: seq<T>, x: T): (r: seq<T>)
    ensures x in s ==> r == s
    ensures x !in s ==> |r| == |s| + 1 && r[..|s|] == s && r[|s|] == x
  {
    if x in s then s else s + [x]
  }

  /** Keep, in order, the elements of `s` that are not in `xs`. */
  function Without<T(==)>(s: seq<T>, xs: set<T>): (r: seq<T>)
    ensures forall y | y in s :: y in r <==> y !in xs
    ensures forall y | y in r :: y in s
    ensures |r| <= |s|
  {
    if |s| == 0 then []
    else if s[0] in xs then Without(s[1..], xs)
    else [s[0]] + Without(s[1..], xs)
  }

  lemma {:induction false} InsertNoDup<T>(s: seq<T>, x: T)
    requires NoDup(s)
    ensures NoDup(Insert(s, x))
  {
  }

  lemma {:induction false} WithoutNoDup<T>(s: seq<T>, xs: set<T>)
    requires NoDup(s)
    ensures NoDup(Without(s, xs))
  {
    if |s| > 0 {
      assert NoDup(s[1..]) by {
        forall i, j | 0 <= i < j < |s[1..]| ensures s[1..][i] != s[1..][j] {
          assert s[1..][i] == s[i + 1] && s[1..][j] == s[j + 1];
        }
      }
      WithoutNoDup(s[1..], xs);
      if s[0] !in xs {
        assert s[0] !in s[1..];
      }
    }
  }

  /** Removing two sets one after the other removes their union. */
  lemma {:induction false} WithoutWithout<T>(s: seq<T>, a: set<T>, b: set<T>)
    ensures Without(Without(s, a), b) == Without(s, a + b)
  {
    if |s| > 0 {
      WithoutWithout(s[1..], a, b);
      if s[0] !in a {
        assert Without(s, a)[1..] == Without(s[1..], a);
      }
    }
  }

  /** Removal depends only on which elements of `s` the removed set holds. */
  lemma {:induction false} WithoutSameOn<T>(s: seq<T>, a: set<T>, b: set<T>)
    requires forall x | x in s :: x in a <==> x in b
    ensures Without(s, a) == Without(s, b)
  {
    if |s| > 0 {
      assert s[0] in s;
      WithoutSameOn(s[1..], a, b);
    }
  }

  /** The elements of `b` that `a` lacks. */
  ghost function Gone<T>(b: seq<T>, a: seq<T>): set<T> {
    set x | x in b && x !in a
  }

  /** `a` is `b` with some elements taken out and the rest kept in order. */
  ghost predicate Thinned<T>(a: seq<T>, b: seq<T>) {
    a == Without(b, Gone(b, a))
  }

  /** Every removal thins. */
  lemma ThinnedWithout<T>(b: seq<T>, xs: set<T>)
    ensures Thinned(Without(b, xs), b)
  {
    WithoutSameOn(b, xs, Gone(b, Without(b, xs)));
  }

  /** Thinning twice thins. */
  lemma ThinnedTrans<T>(a: seq<T>, b: seq<T>, c: seq<T>)
    requires Thinned(b, a) && Thinned(c, b)
    ensures Thinned(c, a)
  {
    var g1, g2 := Gone(a, b), Gone(b, c);
    WithoutWithout(a, g1, g2);
    WithoutSameOn(a, g1 + g2, Gone(a, c));
  }

  lemma {:induction false} WithoutNothing<T>(s: seq<T>)
    ensures Without(s, {}) == s
  {
    if |s| > 0 {
      WithoutNothing(s[1..]);
    }
  }

  /** On a duplicate-free sequence, list removal and set removal agree. */
  lemma {:induction false} RemoveFirstIsWithout<T>(s: seq<T>, x: T)
    requires NoDup(s)
    ensures RemoveFirst(s, x) == Without(s, {x})
  {
    if |s| > 0 {
      assert NoDup(s[1..]) by {
        forall i, j | 0 <= i < j < |s[1..]| ensures s[1..][i] != s[1..][j] {
          assert s[1..][i] == s[i + 1] && s[1..][j] == s[j + 1];
        }
      }
      if s[0] == x {
        assert x !in s[1..];
        WithoutNothingOf(s[1..], x);
      } else {
        RemoveFirstIsWithout(s[1..], x);
      }
    }
  }

  /** Removing an absent element changes nothing. */
  lemma {:induction false} WithoutNothingOf<T>(s: seq<T>, x: T)
    requires x !in s
    ensures Without(s, {x}) == s
  {
    if |s| > 0 {
      WithoutNothingOf(s[1..], x);
    }
  }

  /** Appending does not move an element that is already present. */
  lemma {:induction false} IndexOfAppend<T>(s: seq<T>, y: T, x: T)
    requires x in s
    ensures IndexOf(s + [y], x) == IndexOf(s, x)
  {
    if s[0] != x {
      assert (s + [y])[1..] == s[1..] + [y];
      IndexOfAppend(s[1..], y, x);
    }
  }
  /** `RemoveFirst` deletes exactly the element at the first occurrence. */
  lemma {:induction false} RemoveFirstAt<T>(s: seq<T>, x: T)
    requires x in s
    ensures RemoveFirst(s, x) == s[..IndexOf(s, x)] + s[IndexOf(s, x) + 1..]
  {
    if s[0] != x {
      RemoveFirstAt(s[1..], x);
      SpliceBehindHead(s, IndexOf(s[1..], x));
    }
  }

  /** Deleting position `k` of the tail and putting the head back deletes
      position `k + 1` of the whole sequence. */
  lemma SpliceBehindHead<T>(s: seq<T>, k: nat)
    requires k + 1 < |s|
    ensures [s[0]] + (s[1..][..k] + s[1..][k + 1..]) == s[..k + 1] + s[k + 2..]
  {
    var t, u := s[1..], s[1..][..k] + s[1..][k + 1..];
    forall i | 0 <= i < |s| - 1
      ensures ([s[0]] + u)[i] == (s[..k + 1] + s[k + 2..])[i]
    {
      if i > k {
        assert ([s[0]] + u)[i] == u[i - 1] == t[i];
      } else if i > 0 {
        assert ([s[0]] + u)[i] == u[i - 1] == t[i - 1];
      }
    }
  }



  /** `RemoveFirst` takes exactly one copy of `x` out of the multiset, if any. */
  lemma {:induction false} RemoveFirstMultiset<T>(s: seq<T>, x: T)
    ensures multiset(RemoveFirst(s, x)) == multiset(s) - multiset{x}
  {
    if |s| > 0 {
      var t := s[1..];
      assert s == [s[0]] + t;
      assert multiset(s) == multiset{s[0]} + multiset(t);
      if s[0] == x {
        assert RemoveFirst(s, x) == t;
      } else {
        RemoveFirstMultiset(t, x);
        assert RemoveFirst(s, x) == [s[0]] + RemoveFirst(t, x);
        assert multiset(RemoveFirst(s, x)) == multiset{s[0]} + (multiset(t) - multiset{x});
        MultisetAddMinus(multiset(t), s[0], x);
      }
    }
  }

  /** Adding one copy of `y` commutes with taking out one copy of a different `x`. */
  lemma MultisetAddMinus<T>(m: multiset<T>, y: T, x: T)
    requires y != x
    ensures multiset{y} + (m - multiset{x}) == (multiset{y} + m) - multiset{x}
  {
    forall z ensures (multiset{y} + (m - multiset{x}))[z] == ((multiset{y} + m) - multiset{x})[z] {
    }
  }

  /** `RemoveFirst` of each element of `xs` in turn. */
  function RemoveAll<T(==)>(s: seq<T>, xs: seq<T>): (r: seq<T>)
    ensures |r| <= |s|
    decreases |xs|
  {
    if |xs| == 0 then s else RemoveAll(RemoveFirst(s, xs[0]), xs[1..])
  }

  /** Removing each element in turn takes one copy of every element of `xs`
      out of the multiset, as far as there are copies to take. */
  lemma {:induction false} RemoveAllMultiset<T>(s: seq<T>, xs: seq<T>)
    ensures multiset(RemoveAll(s, xs)) == multiset(s) - multiset(xs)
    decreases |xs|
  {
    if |xs| > 0 {
      var x, rest := xs[0], xs[1..];
      var s1 := RemoveFirst(s, x);
      assert RemoveAll(s, xs) == RemoveAll(s1, rest);
      RemoveFirstMultiset(s, x);
      RemoveAllMultiset(s1, rest);
      MultisetOfCons(xs);
      MultisetMinusMinus(multiset(s), multiset{x}, multiset(rest));
    }
  }

  /** The multiset of a non-empty sequence: its head plus the rest. */
  lemma MultisetOfCons<T>(xs: seq<T>)
    requires |xs| > 0
    ensures multiset(xs) == multiset{xs[0]} + multiset(xs[1..])
  {
    assert xs == [xs[0]] + xs[1..];
  }

  lemma MultisetMinusMinus<T>(a: multiset<T>, b: multiset<T>, d: multiset<T>)
    ensures a - b - d == a - (b + d)
  {
    forall y ensures (a - b - d)[y] == (a - (b + d))[y] {
    }
  }

  /** A sequence with no members is empty. */
  lemma NoMemberEmpty<T>(s: seq<T>)
    ensures (forall x | x in s :: false) ==> s == []
  {
    if |s| > 0 {
      assert s[0] in s;
    }
  }

  /** Appending an absent element puts its first occurrence at the end. */
  lemma {:induction false} IndexOfAppendFresh<T>(s: seq<T>, x: T)
    requires x !in s
    ensures IndexOf(s + [x], x) == |s|
  {
    if |s| > 0 {
      assert (s + [x])[1..] == s[1..] + [x];
      IndexOfAppendFresh(s[1..], x);
    }
  }
}
