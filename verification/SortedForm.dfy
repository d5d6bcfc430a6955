/** What sort.Strings and sort.Slice promise, and when that determines the result. */
module SortedForm {
  import opened Seqs

  /** A strict weak order, which is what Go's sort asks for. */
  ghost predicate IsLess<T(!new)>(less: (T, T) -> bool) {
    && (forall x, y | less(x, y) :: !less(y, x))
    && (forall x, y, z | !less(x, y) && !less(y, z) :: !less(x, z))
  }

  ghost predicate Sorted<T>(s: seq<T>, less: (T, T) -> bool) {
    forall i, j | 0 <= i < j < |s| :: !less(s[j], s[i])
  }

  /** A sort need not be stable: any sorted permutation will do. */
  ghost predicate SortsTo<T>(input: seq<T>, output: seq<T>, less: (T, T) -> bool) {
    multiset(input) == multiset(output) && Sorted(output, less)
  }

  /** Elements that are not ordered either way are equal. */
  ghost predicate Decides<T(!new)>(less: (T, T) -> bool, s: seq<T>) {
    forall x, y | x in s && y in s && !less(x, y) && !less(y, x) :: x == y
  }

  lemma {:induction false} OneSortedForm<T(!new)>(a: seq<T>, b: seq<T>, less: (T, T) -> bool)
    requires multiset(a) == multiset(b) && Sorted(a, less) && Sorted(b, less) && Decides(less, a)
    ensures a == b
    decreases |a|
  {
    SameLength(a, b);
    if a != [] {
      HeadsAgree(a, b, less);
      WithoutHead(a, less);
      WithoutHead(b, less);
      assert Decides(less, a[1..]) by {
        assert forall x <- a[1..] :: x in a;
      }
      hide Sorted, Decides;
      OneSortedForm(a[1..], b[1..], less);
      assert a == [a[0]] + a[1..] && b == [b[0]] + b[1..];
    }
  }

  lemma HeadsAgree<T(!new)>(a: seq<T>, b: seq<T>, less: (T, T) -> bool)
    requires multiset(a) == multiset(b) && Sorted(a, less) && Sorted(b, less) && Decides(less, a)
    requires a != [] && b != []
    ensures a[0] == b[0]
  {
    var j := WhereIs(a[0], a, b);
    var i := WhereIs(b[0], b, a);
  }

  lemma WithoutHead<T(!new)>(a: seq<T>, less: (T, T) -> bool)
    requires a != [] && Sorted(a, less)
    ensures multiset(a[1..]) == multiset(a) - multiset{a[0]} && Sorted(a[1..], less)
  {
    assert Without(a, 0) == a[1..];
    WithoutElements(a, 0);
  }

  /** A stand-in for the library's sort; callers may use only what it promises. */
  method Sort<T(!new)>(s: seq<T>, less: (T, T) -> bool) returns (sorted: seq<T>)
    requires IsLess(less)
    ensures SortsTo(s, sorted, less)
  {
    sorted := [];
    for n := 0 to |s|
      invariant SortsTo(s[..n], sorted, less)
    {
      var i := 0;
      while i < |sorted| && less(sorted[i], s[n])
        invariant 0 <= i <= |sorted| && forall k | 0 <= k < i :: less(sorted[k], s[n])
      {
        i := i + 1;
      }
      InsertKeepsSorted(sorted, i, s[n], less);
      assert sorted == sorted[..i] + sorted[i..] && s[..n + 1] == s[..n] + [s[n]];
      sorted := sorted[..i] + [s[n]] + sorted[i..];
    }
    assert s[..|s|] == s;
  }

  lemma InsertKeepsSorted<T(!new)>(s: seq<T>, i: nat, x: T, less: (T, T) -> bool)
    requires IsLess(less) && Sorted(s, less) && i <= |s|
    requires (forall k | 0 <= k < i :: less(s[k], x)) && (i < |s| ==> !less(s[i], x))
    ensures Sorted(s[..i] + [x] + s[i..], less)
  {
    forall k | i <= k < |s| ensures !less(s[k], x) {
      if k > i { assert !less(s[k], s[i]); }
    }
  }

  lemma {:induction false} SortedFormExists<T(!new)>(s: seq<T>, less: (T, T) -> bool) returns (sorted: seq<T>)
    requires IsLess(less)
    ensures SortsTo(s, sorted, less)
    decreases |s|
  {
    if s == [] {
      sorted := [];
    } else {
      var front, x := s[..|s| - 1], s[|s| - 1];
      assert s == front + [x];
      var before := SortedFormExists(front, less);
      var i := Place(before, x, less);
      InsertKeepsSorted(before, i, x, less);
      hide Sorted, IsLess;
      assert before == before[..i] + before[i..];
      sorted := before[..i] + [x] + before[i..];
    }
  }

  lemma {:induction false} Place<T(!new)>(s: seq<T>, x: T, less: (T, T) -> bool) returns (i: nat)
    ensures i <= |s| && (forall k | 0 <= k < i :: less(s[k], x)) && (i < |s| ==> !less(s[i], x))
  {
    if s == [] || !less(s[0], x) {
      i := 0;
    } else {
      var rest := Place(s[1..], x, less);
      i := rest + 1;
      forall k | 0 <= k < i ensures less(s[k], x) {
        if k > 0 { assert s[k] == s[1..][k - 1]; }
      }
    }
  }
}
