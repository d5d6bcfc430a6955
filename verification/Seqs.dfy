/** Small facts about sequences that several parts need. */
module Seqs {
  lemma Associates<T>(x: seq<T>, y: seq<T>, z: seq<T>)
    ensures x + y + z == x + (y + z)
  {
  }

  /** The elements that satisfy `keep`, in their order. */
  function Keeping<T>(s: seq<T>, keep: T -> bool): seq<T> {
    if s == [] then []
    else
      var front, x := Keeping(s[..|s| - 1], keep), s[|s| - 1];
      if keep(x) then front + [x] else front
  }

  lemma {:induction false} KeepingAppend<T>(a: seq<T>, b: seq<T>, keep: T -> bool)
    ensures Keeping(a + b, keep) == Keeping(a, keep) + Keeping(b, keep)
    decreases |b|
  {
    if b == [] {
      assert a + b == a;
    } else {
      assert (a + b)[..|a + b| - 1] == a + b[..|b| - 1] && (a + b)[|a + b| - 1] == b[|b| - 1];
      KeepingAppend(a, b[..|b| - 1], keep);
    }
  }

  ghost predicate Distinct<T>(s: seq<T>) {
    forall i, j | 0 <= i < j < |s| :: s[i] != s[j]
  }

  /** Walking a map visits every key once, in an order of its own each time. */
  ghost predicate IsWalk<K(!new), V>(order: seq<K>, m: map<K, V>) {
    Distinct(order) && forall k :: k in order <==> k in m
  }

  /** What is left of a sequence when its `i`-th element is taken out. */
  function Without<T>(s: seq<T>, i: nat): (rest: seq<T>)
    requires i < |s|
    ensures |rest| == |s| - 1
  {
    s[..i] + s[i + 1..]
  }

  lemma WithoutElements<T>(s: seq<T>, i: nat)
    requires i < |s|
    ensures multiset(Without(s, i)) == multiset(s) - multiset{s[i]}
  {
    assert s == s[..i] + [s[i]] + s[i + 1..];
  }

  lemma WithoutDistinct<T>(s: seq<T>, i: nat)
    requires Distinct(s) && i < |s|
    ensures Distinct(Without(s, i)) && forall x :: x in Without(s, i) <==> x in s && x != s[i]
  {
    assert s == s[..i] + [s[i]] + s[i + 1..];
    var rest := Without(s, i);
    forall j | 0 <= j < |rest| ensures rest[j] != s[i] && rest[j] == s[if j < i then j else j + 1] {}
  }

  lemma SameLength<T>(s: seq<T>, t: seq<T>)
    requires multiset(s) == multiset(t)
    ensures |s| == |t|
  {
    assert |multiset(s)| == |s| && |multiset(t)| == |t|;
  }

  lemma WhereIs<T>(x: T, s: seq<T>, t: seq<T>) returns (i: nat)
    requires multiset(s) == multiset(t) && x in s
    ensures i < |t| && t[i] == x
  {
    assert x in multiset(t);
    assert x in t;
    i :| 0 <= i < |t| && t[i] == x;
  }

  lemma SameMembers<T(!new)>(s: seq<T>, t: seq<T>)
    requires multiset(s) == multiset(t)
    ensures forall x :: x in s <==> x in t
  {
    forall x ensures x in s <==> x in t {
      assert x in s <==> x in multiset(s);
      assert x in t <==> x in multiset(t);
    }
  }

  lemma {:induction false} SameElements<T>(s: seq<T>, t: seq<T>)
    requires Distinct(s) && Distinct(t) && forall x :: x in s <==> x in t
    ensures multiset(s) == multiset(t)
    decreases |s|
  {
    assert t == [] || t[0] in s;
    if s != [] {
      assert s[0] in t;
      var i :| 0 <= i < |t| && t[i] == s[0];
      WithoutDistinct(s, 0);
      WithoutDistinct(t, i);
      hide Distinct;
      SameElements(Without(s, 0), Without(t, i));
      PutBack(s, 0);
      PutBack(t, i);
    }
  }

  lemma PutBack<T>(s: seq<T>, i: nat)
    requires i < |s|
    ensures multiset(s) == multiset(Without(s, i)) + multiset{s[i]}
  {
    assert s == s[..i] + [s[i]] + s[i + 1..];
  }

  lemma DistinctCons<T>(x: T, s: seq<T>)
    requires Distinct(s) && x !in s
    ensures Distinct([x] + s)
  {
  }

  lemma {:induction false} PermutationIsDistinct<T(!new)>(s: seq<T>, t: seq<T>)
    requires Distinct(s) && multiset(s) == multiset(t)
    ensures Distinct(t)
    decreases |s|
  {
    SameLength(s, t);
    if t != [] {
      var i := WhereIs(t[0], t, s);
      WithoutElements(s, i);
      WithoutElements(t, 0);
      WithoutDistinct(s, i);
      assert Without(t, 0) == t[1..];
      PermutationIsDistinct(Without(s, i), t[1..]);
      SameMembers(Without(s, i), t[1..]);
      DistinctCons(t[0], t[1..]);
      assert t == [t[0]] + t[1..];
      hide Distinct;
    }
  }

  function Flatten<T>(parts: seq<seq<T>>): seq<T> {
    if parts == [] then [] else parts[0] + Flatten(parts[1..])
  }

  lemma {:induction false} FlattenAppend<T>(a: seq<seq<T>>, b: seq<seq<T>>)
    ensures Flatten(a + b) == Flatten(a) + Flatten(b)
  {
    if a == [] {
      assert a + b == b;
    } else {
      FlattenAppend(a[1..], b);
      assert (a + b)[1..] == a[1..] + b && (a + b)[0] == a[0];
      Associates(a[0], Flatten(a[1..]), Flatten(b));
    }
  }

  lemma FlattenSnoc<T>(a: seq<seq<T>>, part: seq<T>)
    ensures Flatten(a + [part]) == Flatten(a) + part
  {
    FlattenAppend(a, [part]);
    assert Flatten([part]) == part + Flatten([]);
  }
}
