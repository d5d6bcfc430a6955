/** Which entries the size cap of the client pool gives up. */
module PoolPolicy {
  datatype Key = Key(text: string)

  /** The protected key of an eviction that protects nothing. */
  const NO_KEY := Key("")

  const DEFAULT_MAX_ENTRIES := 1024

  function Candidates(snapshot: map<Key, int>, protectedKey: Key): set<Key> {
    snapshot.Keys - {protectedKey}
  }

  function Overflow(size: nat, cap: int, candidates: nat): nat
    requires cap > 0
  {
    if size <= cap then 0 else if size - cap > candidates then candidates else size - cap
  }

  /** `victims` are `over` candidates, none of them used more recently than a candidate that is kept. */
  predicate LeastRecent(snapshot: map<Key, int>, protectedKey: Key, over: nat, victims: seq<Key>) {
    && |victims| == over
    && (forall i, j | 0 <= i < j < |victims| :: victims[i] != victims[j])
    && (forall v <- victims :: v in Candidates(snapshot, protectedKey))
    && (forall v <- victims, k <- Candidates(snapshot, protectedKey) | k !in victims :: snapshot[v] <= snapshot[k])
  }

  /** The clamp on the number of evictions never fires: at most the one protected entry is no candidate. */
  lemma ClampNeverFires(snapshot: map<Key, int>, protectedKey: Key, cap: int)
    requires cap > 0 && |snapshot| > cap
    ensures Overflow(|snapshot|, cap, |Candidates(snapshot, protectedKey)|) == |snapshot| - cap
  {
    if protectedKey in snapshot {
      assert snapshot.Keys == Candidates(snapshot, protectedKey) + {protectedKey};
    } else {
      assert snapshot.Keys == Candidates(snapshot, protectedKey);
    }
    assert |snapshot| == |snapshot.Keys|;
  }

  function SetOf(victims: seq<Key>): set<Key> {
    set v | v in victims
  }

  lemma {:induction false} DistinctSize(victims: seq<Key>)
    requires forall i, j | 0 <= i < j < |victims| :: victims[i] != victims[j]
    ensures |SetOf(victims)| == |victims|
  {
    if victims != [] {
      DistinctSize(victims[1..]);
      assert SetOf(victims) == SetOf(victims[1..]) + {victims[0]};
    }
  }
}
