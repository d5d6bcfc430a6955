/** The locked sections of the client pool as code: loops over the map, a sort, and the counters they
    keep. Every one runs with the pool's mutex held. */
module ClientPool {
  import opened Wrappers
  import opened PoolPolicy
  import opened Seqs
  import opened SortedForm

  /** An entry's identity, which `PoolMachine` tracks, plays no part here: an entry is what it holds. */
  datatype PoolEntry = PoolEntry(client: nat, lastAccess: int)

  type Entries = map<Key, PoolEntry>

  /** The access times of the entries. */
  function Snapshot(pool: Entries): (m: map<Key, int>)
    ensures m.Keys == pool.Keys && |m| == |pool|
  {
    var m := map k | k in pool :: pool[k].lastAccess;
    assert m.Keys == pool.Keys;
    assert |m| == |m.Keys| && |pool| == |pool.Keys|;
    m
  }

  datatype Candidate = Candidate(key: Key, lastAccess: int)

  /** Candidates used at the same time are not ordered. */
  predicate UsedBefore(a: Candidate, b: Candidate) {
    a.lastAccess < b.lastAccess
  }

  lemma UsedBeforeIsLess()
    ensures IsLess(UsedBefore)
  {
  }

  ghost predicate DistinctKeys(cs: seq<Candidate>) {
    forall i, j | 0 <= i < j < |cs| :: cs[i].key != cs[j].key
  }

  lemma SameKeys(cs: seq<Candidate>, a: Candidate, b: Candidate)
    requires DistinctKeys(cs) && a in cs && b in cs && a.key == b.key
    ensures a == b
  {
    var i :| 0 <= i < |cs| && cs[i] == a;
    var j :| 0 <= j < |cs| && cs[j] == b;
    assert i < j || j < i || i == j;
  }

  /** A permutation of candidates with distinct keys has distinct keys. */
  lemma PermutedKeys(cs: seq<Candidate>, sorted: seq<Candidate>)
    requires multiset(sorted) == multiset(cs) && DistinctKeys(cs)
    ensures DistinctKeys(sorted)
  {
    PermutationIsDistinct(cs, sorted);
    SameMembers(cs, sorted);
    forall i, j | 0 <= i < j < |sorted| ensures sorted[i].key != sorted[j].key {
      assert sorted[i] != sorted[j] && sorted[i] in sorted && sorted[j] in sorted;
      if sorted[i].key == sorted[j].key {
        SameKeys(cs, sorted[i], sorted[j]);
      }
    }
  }

  /** Every unprotected entry is a candidate, with its access time. */
  ghost predicate AreCandidates(cs: seq<Candidate>, snapshot: map<Key, int>, protectedKey: Key) {
    && DistinctKeys(cs)
    && (forall c <- cs :: c.key in Candidates(snapshot, protectedKey) && c.lastAccess == snapshot[c.key])
    && (forall k <- Candidates(snapshot, protectedKey) :: Candidate(k, snapshot[k]) in cs)
  }

  lemma PermutedCandidates(cs: seq<Candidate>, sorted: seq<Candidate>, snapshot: map<Key, int>, protectedKey: Key)
    requires multiset(cs) == multiset(sorted) && AreCandidates(cs, snapshot, protectedKey)
    ensures AreCandidates(sorted, snapshot, protectedKey) && |sorted| == |cs|
  {
    PermutedKeys(cs, sorted);
    SameMembers(cs, sorted);
    SameLength(cs, sorted);
    hide DistinctKeys;
  }

  /** Of `before` some entries are gone: not the protected one, and none that was used more recently than
      an unprotected one that stays. */
  ghost predicate KeepsMostRecent(before: Entries, after: Entries, protectedKey: Key) {
    && after == before - (before.Keys - after.Keys)
    && (protectedKey in before ==> protectedKey in after)
    && forall v <- before.Keys - after.Keys, k <- after.Keys - {protectedKey} ::
         k in before && before[v].lastAccess <= before[k].lastAccess
  }

  lemma NothingRemoved(pool: Entries, protectedKey: Key)
    ensures KeepsMostRecent(pool, pool, protectedKey)
  {
    assert pool.Keys - pool.Keys == {} && pool - {} == pool;
  }

  /** Of the given keys those whose entry was last used before the cutoff. */
  function Stale(snapshot: map<Key, int>, keys: seq<Key>, cutoff: int): set<Key> {
    set k | k in keys && k in snapshot && snapshot[k] < cutoff
  }

  lemma NothingStale(before: Entries, keys: seq<Key>, cutoff: int)
    ensures Stale(Snapshot(before), keys[..0], cutoff) == {} && before - {} == before
    ensures Stale(Snapshot(before), keys, cutoff) <= before.Keys
  {
  }

  lemma StaleMeans(before: Entries, keys: seq<Key>, cutoff: int)
    ensures var after := before - Stale(Snapshot(before), keys, cutoff);
            && (forall k :: k in after <==> k in before && !(k in keys && before[k].lastAccess < cutoff))
            && forall k <- after :: after[k] == before[k]
  {
  }

  /** Looking at one more key removes it if it is still there and stale. */
  lemma StaleSnoc(before: Entries, keys: seq<Key>, key: Key, cutoff: int)
    ensures var gone, gone' := Stale(Snapshot(before), keys, cutoff), Stale(Snapshot(before), keys + [key], cutoff);
            var now := before - gone;
            if key in now && now[key].lastAccess < cutoff
            then before - gone' == now - {key} && |gone'| == |gone| + 1
            else gone' == gone
  {
    var snapshot := Snapshot(before);
    var gone, gone' := Stale(snapshot, keys, cutoff), Stale(snapshot, keys + [key], cutoff);
    if key in before && before[key].lastAccess < cutoff {
      assert gone' == gone + {key};
    } else {
      assert gone' == gone;
    }
  }

  lemma RemovedSet(before: Entries, gone: set<Key>, after: Entries)
    requires after == before - gone && gone <= before.Keys
    ensures |after| == |before| - |gone|
  {
    assert after.Keys == before.Keys - gone;
    assert |after| == |after.Keys| && |before| == |before.Keys|;
  }

  class ClientPool {
    var clientPool: Entries
    var poolEntryCount: int
    var totalEvictions: int
    var poolMaxEntries: int

    constructor ()
      ensures clientPool == map[] && poolEntryCount == 0 && totalEvictions == 0
      ensures poolMaxEntries == DEFAULT_MAX_ENTRIES
    {
      clientPool, poolEntryCount, totalEvictions, poolMaxEntries := map[], 0, 0, DEFAULT_MAX_ENTRIES;
    }

    /** The scan of evictLRUOverCapLocked, in whatever order the map is walked. */
    method Collect(protectedKey: Key) returns (candidates: seq<Candidate>, live: nat)
      ensures live == if protectedKey in clientPool then 1 else 0
      ensures |candidates| + live == |clientPool|
      ensures AreCandidates(candidates, Snapshot(clientPool), protectedKey)
    {
      candidates, live := [], 0;
      var rest := clientPool.Keys;
      while rest != {}
        invariant rest <= clientPool.Keys
        invariant live == if protectedKey in clientPool.Keys - rest then 1 else 0
        invariant |candidates| + live + |rest| == |clientPool.Keys|
        invariant DistinctKeys(candidates)
        invariant forall c <- candidates ::
                    && c.key in clientPool && c.key !in rest && c.key != protectedKey
                    && c.lastAccess == clientPool[c.key].lastAccess
        invariant forall k <- clientPool.Keys - rest ::
                    k != protectedKey ==> Candidate(k, clientPool[k].lastAccess) in candidates
        decreases |rest|
      {
        var key :| key in rest;
        rest := rest - {key};
        if key == protectedKey {
          live := live + 1;
        } else {
          candidates := candidates + [Candidate(key, clientPool[key].lastAccess)];
        }
      }
    }

    /** evictLRUOverCapLocked. The pool shrinks to the cap and no further; the protected entry stays;
        nothing that goes was used more recently than anything that stays unprotected. */
    method EvictLRUOverCapLocked(protectedKey: Key)
      modifies this
      ensures poolMaxEntries == old(poolMaxEntries)
      ensures poolMaxEntries <= 0 ==> clientPool == old(clientPool) && poolEntryCount == old(poolEntryCount)
      ensures poolMaxEntries > 0 ==> poolEntryCount == |clientPool|
      ensures |clientPool| == if 0 < poolMaxEntries < old(|clientPool|) then poolMaxEntries else old(|clientPool|)
      ensures totalEvictions == old(totalEvictions) + old(|clientPool|) - |clientPool|
      ensures KeepsMostRecent(old(clientPool), clientPool, protectedKey)
    {
      NothingRemoved(clientPool, protectedKey);
      hide KeepsMostRecent, AreCandidates, Snapshot, Sorted, UsedBefore;
      if poolMaxEntries <= 0 { return; }
      ghost var snapshot := Snapshot(clientPool);
      var candidates, live := Collect(protectedKey);
      poolEntryCount := |candidates| + live;
      var over := |candidates| + live - poolMaxEntries;
      if over <= 0 { return; }
      if over > |candidates| { over := |candidates|; }
      ClampNeverFires(snapshot, protectedKey, poolMaxEntries);
      UsedBeforeIsLess();
      var sorted := Sort(candidates, UsedBefore);
      PermutedCandidates(candidates, sorted, snapshot, protectedKey);
      DeleteFirst(sorted, over, protectedKey);
    }

    /** The loop that deletes the least recently used `over` candidates. */
    method DeleteFirst(sorted: seq<Candidate>, over: nat, ghost protectedKey: Key)
      requires over <= |sorted| && Sorted(sorted, UsedBefore)
      requires AreCandidates(sorted, Snapshot(clientPool), protectedKey)
      modifies this
      ensures poolMaxEntries == old(poolMaxEntries)
      ensures |clientPool| == old(|clientPool|) - over && poolEntryCount == old(poolEntryCount) - over
      ensures totalEvictions == old(totalEvictions) + over
      ensures KeepsMostRecent(old(clientPool), clientPool, protectedKey)
    {
      hide SetOf, Removed, FirstKeys, LeastRecent, AreCandidates, Sorted, KeepsMostRecent, Snapshot;
      ghost var victims := FirstKeys(sorted, over);
      ChoosesLeastRecent(Snapshot(clientPool), protectedKey, sorted, over, victims);
      NoneRemoved(clientPool, victims);
      for i := 0 to over
        invariant clientPool == Removed(old(clientPool), victims[..i])
        invariant poolEntryCount == old(poolEntryCount) - i && poolMaxEntries == old(poolMaxEntries)
        invariant totalEvictions == old(totalEvictions)
      {
        RemovedOneMore(old(clientPool), victims, i);
        clientPool := clientPool - {sorted[i].key};
        poolEntryCount := poolEntryCount - 1;
      }
      totalEvictions := totalEvictions + over;
      assert victims[..over] == victims;
      RemovedLeastRecent(old(clientPool), protectedKey, victims, clientPool);
    }

    /** evictStaleEntries once it holds the lock: of the keys the unlocked scan picked, those are
        deleted that are still pooled and still stale. */
    method DeleteStale(toDelete: seq<Key>, cutoff: int) returns (evicted: nat)
      modifies this
      ensures poolMaxEntries == old(poolMaxEntries)
      ensures clientPool == old(clientPool) - Stale(Snapshot(old(clientPool)), toDelete, cutoff)
      ensures evicted == |Stale(Snapshot(old(clientPool)), toDelete, cutoff)|
      ensures poolEntryCount == old(poolEntryCount) - evicted && |clientPool| == old(|clientPool|) - evicted
      ensures forall k :: k in clientPool <==>
                k in old(clientPool) && !(k in toDelete && old(clientPool)[k].lastAccess < cutoff)
      ensures forall k <- clientPool :: clientPool[k] == old(clientPool)[k]
      ensures totalEvictions == old(totalEvictions) + evicted
    {
      evicted := 0;
      ghost var snapshot := Snapshot(clientPool);
      hide Stale, Snapshot;
      NothingStale(clientPool, toDelete, cutoff);
      StaleMeans(clientPool, toDelete, cutoff);
      for i := 0 to |toDelete|
        invariant poolMaxEntries == old(poolMaxEntries) && totalEvictions == old(totalEvictions)
        invariant clientPool == old(clientPool) - Stale(snapshot, toDelete[..i], cutoff)
        invariant evicted == |Stale(snapshot, toDelete[..i], cutoff)|
        invariant poolEntryCount == old(poolEntryCount) - evicted
      {
        var key := toDelete[i];
        assert toDelete[..i + 1] == toDelete[..i] + [key];
        StaleSnoc(old(clientPool), toDelete[..i], key, cutoff);
        if key in clientPool && clientPool[key].lastAccess < cutoff {
          clientPool := clientPool - {key};
          poolEntryCount := poolEntryCount - 1;
          evicted := evicted + 1;
        }
      }
      assert toDelete[..|toDelete|] == toDelete;
      RemovedSet(old(clientPool), Stale(snapshot, toDelete, cutoff), clientPool);
      if evicted > 0 {
        totalEvictions := totalEvictions + evicted;
      }
    }

    method ClearClientPool()
      modifies this
      ensures clientPool == map[] && poolEntryCount == 0
      ensures totalEvictions == old(totalEvictions) && poolMaxEntries == old(poolMaxEntries)
    {
      while clientPool != map[]
        invariant totalEvictions == old(totalEvictions) && poolMaxEntries == old(poolMaxEntries)
        decreases |clientPool|
      {
        var key :| key in clientPool;
        assert (clientPool - {key}).Keys == clientPool.Keys - {key};
        assert |clientPool| == |clientPool.Keys| && |clientPool - {key}| == |(clientPool - {key}).Keys|;
        clientPool := clientPool - {key};
      }
      poolEntryCount := 0;
    }

    /** getOrCreateClientFromConfig with the lock held. `client` is what building yields, if it succeeds. */
    method GetOrCreateLocked(key: Key, now: int, client: Option<nat>) returns (r: Option<nat>)
      modifies this
      ensures poolMaxEntries == old(poolMaxEntries)
      ensures key in old(clientPool) ==>
                && r == Some(old(clientPool)[key].client) && poolEntryCount == old(poolEntryCount)
                && clientPool == old(clientPool)[key := PoolEntry(r.value, now)]
      ensures key !in old(clientPool) ==> r == client
      ensures key !in old(clientPool) && client.None? ==>
                clientPool == old(clientPool) && poolEntryCount == old(poolEntryCount)
      ensures key in old(clientPool) || client.None? ==> totalEvictions == old(totalEvictions)
      ensures key !in old(clientPool) && client.Some? ==>
                var grown := old(clientPool)[key := PoolEntry(client.value, now)];
                && KeepsMostRecent(grown, clientPool, key) && key in clientPool
                && |clientPool| == (if 0 < poolMaxEntries < |grown| then poolMaxEntries else |grown|)
                && totalEvictions == old(totalEvictions) + |grown| - |clientPool|
                && poolEntryCount == if poolMaxEntries > 0 then |clientPool| else old(poolEntryCount) + 1
    {
      if key in clientPool {
        clientPool := clientPool[key := clientPool[key].(lastAccess := now)];
        return Some(clientPool[key].client);
      }
      if client.None? { return None; }
      clientPool := clientPool[key := PoolEntry(client.value, now)];
      poolEntryCount := poolEntryCount + 1;
      EvictLRUOverCapLocked(key);
      r := client;
    }

    method SetPoolMaxEntries(entries: int)
      modifies this
      ensures poolMaxEntries == if entries < 0 then 1024 else entries
      ensures |clientPool| == if 0 < poolMaxEntries < old(|clientPool|) then poolMaxEntries else old(|clientPool|)
      ensures KeepsMostRecent(old(clientPool), clientPool, NO_KEY)
      ensures totalEvictions == old(totalEvictions) + old(|clientPool|) - |clientPool|
      ensures poolEntryCount == if poolMaxEntries > 0 then |clientPool| else old(poolEntryCount)
    {
      poolMaxEntries := if entries < 0 then DEFAULT_MAX_ENTRIES else entries;
      EvictLRUOverCapLocked(NO_KEY);
    }
  }

  lemma ChoosesLeastRecent(snapshot: map<Key, int>, protectedKey: Key, sorted: seq<Candidate>, over: nat,
                           victims: seq<Key>)
    requires over <= |sorted| && Sorted(sorted, UsedBefore) && AreCandidates(sorted, snapshot, protectedKey)
    requires |victims| == over && forall i | 0 <= i < over :: victims[i] == sorted[i].key
    ensures LeastRecent(snapshot, protectedKey, over, victims)
  {
    assert forall i | 0 <= i < over :: sorted[i].key == victims[i] && victims[i] in victims;
    forall v <- victims, k <- Candidates(snapshot, protectedKey) | k !in victims ensures snapshot[v] <= snapshot[k] {
      var i :| 0 <= i < over && victims[i] == v;
      var j :| 0 <= j < |sorted| && sorted[j] == Candidate(k, snapshot[k]);
      assert j >= over;
      assert sorted[i] in sorted;
    }
  }

  function FirstKeys(cs: seq<Candidate>, n: nat): (keys: seq<Key>)
    requires n <= |cs|
    ensures |keys| == n && forall i | 0 <= i < n :: keys[i] == cs[i].key
  {
    seq(n, i requires 0 <= i < n => cs[i].key)
  }

  ghost function Removed(before: Entries, victims: seq<Key>): Entries {
    before - SetOf(victims)
  }

  lemma NoneRemoved(before: Entries, victims: seq<Key>)
    ensures Removed(before, victims[..0]) == before
  {
  }

  lemma RemovedOneMore(before: Entries, victims: seq<Key>, i: nat)
    requires i < |victims|
    ensures Removed(before, victims[..i + 1]) == Removed(before, victims[..i]) - {victims[i]}
  {
    assert victims[..i + 1] == victims[..i] + [victims[i]];
    assert SetOf(victims[..i + 1]) == SetOf(victims[..i]) + {victims[i]};
  }

  lemma RemovedLeastRecent(before: Entries, protectedKey: Key, victims: seq<Key>, after: Entries)
    requires LeastRecent(Snapshot(before), protectedKey, |victims|, victims)
    requires after == Removed(before, victims)
    ensures |after| == |before| - |victims| && KeepsMostRecent(before, after, protectedKey)
  {
    DistinctSize(victims);
    RemovedSet(before, SetOf(victims), after);
    assert before.Keys - after.Keys == SetOf(victims);
  }
}
