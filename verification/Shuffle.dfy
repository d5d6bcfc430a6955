/** The Fisher-Yates walk that the trust anchors and the extension list share: the last position first,
    each position swapped with one drawn from those up to it, a swap with a pinned position skipped. */
module Shuffle {
  import opened Seqs

  /** `draws[i]` is what the random source gives for position `i`. */
  predicate IsDraws(draws: seq<nat>) {
    forall i | 0 <= i < |draws| :: draws[i] <= i
  }

  function Swap<T>(s: seq<T>, i: nat, j: nat): (r: seq<T>)
    requires i < |s| && j < |s|
    ensures |r| == |s|
  {
    s[i := s[j]][j := s[i]]
  }

  function Step<T>(s: seq<T>, i: nat, j: nat, pins: set<nat>): (r: seq<T>)
    requires i < |s| && j < |s|
    ensures |r| == |s|
  {
    if i in pins || j in pins then s else Swap(s, i, j)
  }

  function Shuffled<T>(s: seq<T>, draws: seq<nat>, pins: set<nat>): (r: seq<T>)
    requires IsDraws(draws) && |draws| <= |s|
    ensures |r| == |s|
    decreases |draws|
  {
    if draws == [] then s
    else
      var i := |draws| - 1;
      Shuffled(Step(s, i, draws[i], pins), draws[..i], pins)
  }

  /** The walk from position `i` down is one step and then the walk from the position before it. */
  lemma ShuffledStep<T>(s: seq<T>, draws: seq<nat>, i: nat, pins: set<nat>)
    requires IsDraws(draws) && i < |draws| <= |s|
    ensures Shuffled(s, draws[..i + 1], pins) == Shuffled(Step(s, i, draws[i], pins), draws[..i], pins)
  {
    assert draws[..i + 1][..i] == draws[..i];
    hide Step;
  }

  lemma ShuffledNothing<T>(s: seq<T>, draws: seq<nat>, pins: set<nat>)
    requires IsDraws(draws) && |draws| <= |s| && |draws| < 2
    ensures Shuffled(s, draws, pins) == s
  {
    if |draws| == 1 {
      assert Step(s, 0, 0, pins) == s;
      assert draws[..0] == [];
    }
  }

  // What a shuffle keeps

  lemma SwapKeepsElements<T>(s: seq<T>, i: nat, j: nat)
    requires i < |s| && j < |s|
    ensures multiset(Swap(s, i, j)) == multiset(s)
  {
  }

  lemma {:induction false} KeepsElements<T>(s: seq<T>, draws: seq<nat>, pins: set<nat>)
    requires IsDraws(draws) && |draws| <= |s|
    ensures multiset(Shuffled(s, draws, pins)) == multiset(s)
    decreases |draws|
  {
    if draws != [] {
      var i := |draws| - 1;
      SwapKeepsElements(s, i, draws[i]);
      KeepsElements(Step(s, i, draws[i], pins), draws[..i], pins);
    }
  }

  /** Pinned positions, and positions behind the draws, keep what they have. */
  lemma {:induction false} KeepsPins<T>(s: seq<T>, draws: seq<nat>, pins: set<nat>, p: nat)
    requires IsDraws(draws) && |draws| <= |s| && p < |s| && (p in pins || |draws| <= p)
    ensures Shuffled(s, draws, pins)[p] == s[p]
    decreases |draws|
  {
    if draws != [] {
      var i := |draws| - 1;
      KeepsPins(Step(s, i, draws[i], pins), draws[..i], pins, p);
    }
  }

  // Orders of positions

  function Identity(n: nat): (ids: seq<nat>)
    ensures |ids| == n
  {
    seq(n, i => i)
  }

  /** A permutation of the positions below `n`. */
  ghost predicate IsOrder(order: seq<nat>, n: nat) {
    multiset(order) == multiset(Identity(n))
  }

  lemma {:induction false} IdentityHoldsEachOnce(n: nat, x: nat)
    ensures multiset(Identity(n))[x] == if x < n then 1 else 0
  {
    if n > 0 {
      assert Identity(n) == Identity(n - 1) + [n - 1];
      IdentityHoldsEachOnce(n - 1, x);
    }
  }

  lemma CountedTwice(order: seq<nat>, i: nat, j: nat)
    requires i < j < |order|
    ensures order[i] == order[j] ==> multiset(order)[order[i]] >= 2
  {
    assert order == order[..j] + [order[j]] + order[j + 1..];
    assert order[..j][i] == order[i];
  }

  lemma OrderIsDistinct(order: seq<nat>, n: nat)
    requires IsOrder(order, n)
    ensures |order| == n && Distinct(order) && Within(order, n)
  {
    SameLength(order, Identity(n));
    forall i | 0 <= i < |order| ensures order[i] < n {
      assert order[i] in multiset(order);
      IdentityHoldsEachOnce(n, order[i]);
    }
    forall i, j | 0 <= i < j < |order| ensures order[i] != order[j] {
      IdentityHoldsEachOnce(n, order[i]);
      CountedTwice(order, i, j);
    }
  }

  predicate Within(order: seq<nat>, n: nat) {
    forall i | 0 <= i < |order| :: order[i] < n
  }

  function Arrange<T>(s: seq<T>, order: seq<nat>): (r: seq<T>)
    requires Within(order, |s|)
    ensures |r| == |order|
  {
    seq(|order|, i requires 0 <= i < |order| => s[order[i]])
  }

  lemma StepIsNatural<T>(s: seq<T>, order: seq<nat>, i: nat, j: nat, pins: set<nat>)
    requires Within(order, |s|) && i < |order| && j < |order|
    ensures Within(Step(order, i, j, pins), |s|)
    ensures Step(Arrange(s, order), i, j, pins) == Arrange(s, Step(order, i, j, pins))
  {
  }

  /** A shuffle moves positions without looking at what is there. */
  lemma {:induction false} ShuffleIsNatural<T>(s: seq<T>, order: seq<nat>, draws: seq<nat>, pins: set<nat>)
    requires Within(order, |s|) && IsDraws(draws) && |draws| <= |order|
    ensures Within(Shuffled(order, draws, pins), |s|)
    ensures Shuffled(Arrange(s, order), draws, pins) == Arrange(s, Shuffled(order, draws, pins))
    decreases |draws|
  {
    if draws != [] {
      var i := |draws| - 1;
      var next := Step(order, i, draws[i], pins);
      StepIsNatural(s, order, i, draws[i], pins);
      hide Step, Arrange, Within;
      ShuffleIsNatural(s, next, draws[..i], pins);
    }
  }

  // One draw sequence for each order

  lemma LastDraw(s: seq<nat>, d: seq<nat>)
    requires IsDraws(d) && 0 < |d| <= |s|
    ensures Shuffled(s, d, {})[|d| - 1] == s[d[|d| - 1]]
  {
    var i := |d| - 1;
    KeepsPins(Swap(s, i, d[i]), d[..i], {}, i);
  }

  lemma Unpinned(s: seq<nat>, d: seq<nat>)
    requires IsDraws(d) && 0 < |d| <= |s|
    ensures Shuffled(s, d, {}) == Shuffled(Swap(s, |d| - 1, d[|d| - 1]), d[..|d| - 1], {})
  {
    hide Swap;
  }

  lemma SameLastDraw(s: seq<nat>, d: seq<nat>, e: seq<nat>)
    requires Distinct(s) && IsDraws(d) && IsDraws(e) && 0 < |d| == |e| <= |s|
    requires Shuffled(s, d, {}) == Shuffled(s, e, {})
    ensures d[|d| - 1] == e[|d| - 1]
  {
    LastDraw(s, d);
    LastDraw(s, e);
    hide Shuffled;
  }

  lemma {:induction false} DifferentDrawsDiffer(s: seq<nat>, d: seq<nat>, e: seq<nat>)
    requires Distinct(s) && IsDraws(d) && IsDraws(e) && |d| == |e| <= |s|
    requires Shuffled(s, d, {}) == Shuffled(s, e, {})
    ensures d == e
    decreases |d|
  {
    if d != [] {
      var i := |d| - 1;
      hide Shuffled, Swap, Distinct;
      SameLastDraw(s, d, e);
      SwapKeepsDistinct(s, i, d[i]);
      Unpinned(s, d);
      Unpinned(s, e);
      DifferentDrawsDiffer(Swap(s, i, d[i]), d[..i], e[..i]);
      assert d == d[..i] + [d[i]] && e == e[..i] + [e[i]];
    }
  }

  lemma SwapKeepsDistinct(s: seq<nat>, i: nat, j: nat)
    requires i < |s| && j < |s| && Distinct(s)
    ensures Distinct(Swap(s, i, j))
  {
  }

  /** Draws that lead from `s` to `t`, when they agree on the pins and from position `k` on. */
  lemma {:induction false} Reach(s: seq<nat>, t: seq<nat>, k: nat, pins: set<nat>) returns (draws: seq<nat>)
    requires k <= |s| == |t| && multiset(s) == multiset(t) && Distinct(s) && Distinct(t)
    requires forall p | 0 <= p < |s| && (p in pins || k <= p) :: s[p] == t[p]
    ensures IsDraws(draws) && |draws| == k && Shuffled(s, draws, pins) == t
    decreases k
  {
    if k == 0 {
      draws := [];
    } else {
      var i := k - 1;
      var j := WhereFrom(s, t, k, pins);
      var next := Step(s, i, j, pins);
      OneMoreInPlace(s, t, i, j, pins);
      hide Distinct, Step;
      var before := Reach(next, t, i, pins);
      draws := before + [j];
      assert draws[..i] == before;
    }
  }

  lemma OneMoreInPlace(s: seq<nat>, t: seq<nat>, i: nat, j: nat, pins: set<nat>)
    requires j <= i < |s| == |t| && multiset(s) == multiset(t) && Distinct(s) && s[j] == t[i]
    requires j in pins ==> j == i
    requires forall p | 0 <= p < |s| && (p in pins || i + 1 <= p) :: s[p] == t[p]
    ensures var next := Step(s, i, j, pins);
            && multiset(next) == multiset(t) && Distinct(next)
            && forall p | 0 <= p < |s| && (p in pins || i <= p) :: next[p] == t[p]
  {
    SwapKeepsDistinct(s, i, j);
    SwapKeepsElements(s, i, j);
  }

  /** Where the element that belongs at `k - 1` is now. */
  lemma WhereFrom(s: seq<nat>, t: seq<nat>, k: nat, pins: set<nat>) returns (j: nat)
    requires 0 < k <= |s| == |t| && multiset(s) == multiset(t) && Distinct(t)
    requires forall p | 0 <= p < |s| && (p in pins || k <= p) :: s[p] == t[p]
    ensures j < k && s[j] == t[k - 1] && (j in pins ==> j == k - 1)
  {
    assert t[k - 1] in multiset(s);
    assert t[k - 1] in s;
    j :| 0 <= j < |s| && s[j] == t[k - 1];
    if j in pins || k <= j {
      assert t[j] == t[k - 1];
    }
  }

  /** The orders a shuffle can give are exactly the permutations that fix the pinned positions. */
  lemma ReachableOrders(n: nat, pins: set<nat>, order: seq<nat>)
    ensures (exists draws :: IsDraws(draws) && |draws| == n && Shuffled(Identity(n), draws, pins) == order)
            <==> IsOrder(order, n) && forall p | 0 <= p < |order| && p in pins :: order[p] == p
  {
    forall draws | IsDraws(draws) && |draws| == n && Shuffled(Identity(n), draws, pins) == order
      ensures IsOrder(order, n) && forall p | 0 <= p < |order| && p in pins :: order[p] == p
    {
      KeepsElements(Identity(n), draws, pins);
      forall p | 0 <= p < |order| && p in pins ensures order[p] == p {
        KeepsPins(Identity(n), draws, pins, p);
      }
    }
    if IsOrder(order, n) && forall p | 0 <= p < |order| && p in pins :: order[p] == p {
      OrderIsDistinct(order, n);
      OrderIsDistinct(Identity(n), n);
      var draws := Reach(Identity(n), order, n, pins);
    }
  }

  /** Without pins, draw sequences and permutations correspond one to one: each permutation comes from
      one draw sequence, and from no other. */
  lemma OneDrawSequencePerOrder(n: nat, order: seq<nat>)
    requires IsOrder(order, n)
    ensures exists draws :: IsDraws(draws) && |draws| == n && Shuffled(Identity(n), draws, {}) == order
    ensures forall d, e | IsDraws(d) && IsDraws(e) && |d| == n && |e| == n
                          && Shuffled(Identity(n), d, {}) == order && Shuffled(Identity(n), e, {}) == order :: d == e
  {
    ReachableOrders(n, {}, order);
    OrderIsDistinct(Identity(n), n);
    forall d, e | IsDraws(d) && IsDraws(e) && |d| == n && |e| == n
                  && Shuffled(Identity(n), d, {}) == order && Shuffled(Identity(n), e, {}) == order
      ensures d == e
    {
      DifferentDrawsDiffer(Identity(n), d, e);
    }
  }

  /** What the walk does to any list is what it does to the positions. */
  lemma ShuffleArranges<T>(s: seq<T>, draws: seq<nat>, pins: set<nat>)
    requires IsDraws(draws) && |draws| <= |s|
    ensures IsOrder(Shuffled(Identity(|s|), draws, pins), |s|)
    ensures Within(Shuffled(Identity(|s|), draws, pins), |s|)
    ensures Shuffled(s, draws, pins) == Arrange(s, Shuffled(Identity(|s|), draws, pins))
  {
    KeepsElements(Identity(|s|), draws, pins);
    ShuffleIsNatural(s, Identity(|s|), draws, pins);
    assert Arrange(s, Identity(|s|)) == s;
  }
}
