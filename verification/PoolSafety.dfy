/** What every interleaving of the client pool keeps. */
module PoolSafety {
  import opened Wrappers
  import opened PoolPolicy
  import opened PoolMachine

  ghost predicate LockOwned(s: Pool) {
    && (s.lock.Some? ==> s.lock.value in s.procs)
    && (forall p <- s.procs :: Holds(s.procs[p]) <==> s.lock == Some(p))
  }

  ghost predicate EntriesFit(s: Pool) {
    && (forall k <- s.entries :: s.entries[k] < s.next && s.entries[k] in s.access)
    && (forall k <- s.given :: k in s.entries && s.given[k] == s.entries[k])
  }

  function Holder(s: Pool): PC {
    if s.lock.Some? && s.lock.value in s.procs then s.procs[s.lock.value] else Ended
  }

  /** How far `poolEntryCount` lags behind the map inside a locked section. */
  function Lag(pc: PC): int {
    match pc
    case Inserted(_, _) => 1
    case Clearing(removed) => 0 - removed as int
    case _ => 0
  }

  /** Entries deleted inside a locked section that `totalEvictions` does not show yet. */
  function Debt(pc: PC): nat {
    match pc
    case Evicting(_, _, _, done) => done
    case Rechecking(_, _, evicted) => evicted
    case Expiring(_, _, evicted) => evicted
    case _ => 0
  }

  ghost predicate Balanced(s: Pool) {
    && |s.entries| == s.count + Lag(Holder(s))
    && s.inserts == |s.entries| + s.evictions + s.cleared + Debt(Holder(s))
  }

  /** A cap has been stored and its eviction is not over. */
  predicate Pending(pc: PC) {
    pc.WantResize? || ((pc.ReadCap? || pc.Scanning? || pc.Evicting?) && pc.after.Resize?)
  }

  predicate Creating(pc: PC) {
    pc.Inserted? || ((pc.ReadCap? || pc.Scanning? || pc.Evicting?) && pc.after.Create?)
  }

  ghost predicate SomePending(s: Pool) {
    exists p <- s.procs :: Pending(s.procs[p])
  }

  ghost predicate CapKept(s: Pool) {
    s.cap <= 0 || |s.entries| <= s.cap || SomePending(s) || Creating(Holder(s))
  }

  ghost predicate OtherPending(s: Pool, p: Pid) {
    exists q <- s.procs :: q != p && Pending(s.procs[q])
  }

  /** The cap `p` has read is the stored one, unless another goroutine stored a new one since, which
      will then evict on its own. */
  ghost predicate CapCurrent(s: Pool, p: Pid, cap: int) {
    cap > 0 && (cap == s.cap || OtherPending(s, p))
  }

  predicate Inside(s: Pool, after: After) {
    after.Create? ==> after.key in s.entries && s.entries[after.key] == after.entry
  }

  ghost predicate Doomed(s: Pool, after: After, cap: int, victims: seq<Key>) {
    && (forall i, j | 0 <= i < j < |victims| :: victims[i] != victims[j])
    && (forall v <- victims :: v in s.entries && v != ProtectedKey(after))
    && |s.entries| - |victims| <= cap
  }

  ghost predicate Knows(s: Pool, p: Pid, pc: PC) {
    match pc
    case Building(key) => key !in s.entries
    case Inserted(key, entry) => Inside(s, Create(key, entry))
    case ReadCap(after) => Inside(s, after)
    case Scanning(after, cap, snapshot) => Inside(s, after) && CapCurrent(s, p, cap)
    case Evicting(after, cap, victims, _) => Inside(s, after) && CapCurrent(s, p, cap) && Doomed(s, after, cap, victims)
    case Expiring(keys, _, _) => keys != [] && keys[0] in s.entries
    case _ => true
  }

  ghost predicate Inv(s: Pool) {
    && LockOwned(s) && EntriesFit(s) && Balanced(s) && CapKept(s)
    && forall p <- s.procs :: Knows(s, p, s.procs[p])
  }

  /** What a step may change: the entries only under the lock, the cap only by becoming pending. */
  ghost predicate Guarded(s: Pool, p: Pid, s': Pool) {
    && p in s.procs && p in s'.procs
    && s'.procs == s.procs[p := s'.procs[p]]
    && (!Holds(s.procs[p]) ==> s'.entries == s.entries && (s'.lock == s.lock || (s.lock == None && s'.lock == Some(p))))
    && (Holds(s.procs[p]) ==> s'.cap == s.cap)
    && (s'.cap != s.cap ==> Pending(s'.procs[p]))
    && (Pending(s.procs[p]) && !Pending(s'.procs[p]) ==> Holds(s.procs[p]) && s'.lock == None)
    && (Holds(s.procs[p]) ==> if Holds(s'.procs[p]) then s'.lock == s.lock else s'.lock == None)
    && (!Holds(s.procs[p]) && Holds(s'.procs[p]) ==> s.lock == None && s'.lock == Some(p))
    && (!Holds(s.procs[p]) && !Holds(s'.procs[p]) ==> s'.lock == s.lock)
  }

  /** Only an insertion grows the pool, and what follows it or a new cap ends with the cap enforced. */
  ghost predicate Enforces(s: Pool, p: Pid, s': Pool)
    requires p in s.procs && p in s'.procs
  {
    var pc, pc' := s.procs[p], s'.procs[p];
    && (|s'.entries| <= |s.entries| || Creating(pc'))
    && (Creating(pc) || (Pending(pc) && Holds(pc)) ==>
          (Holds(pc') && (Creating(pc) ==> Creating(pc')) && (Pending(pc) ==> Pending(pc')))
          || s.cap <= 0 || |s'.entries| <= s.cap || OtherPending(s, p))
  }

  /** A look-up that ends now, or has just found its entry, returns the pooled entry. */
  predicate Returns(s: Pool, pc: PC) {
    pc.Touch? || pc.Served? ==> pc.key in s.entries && s.entries[pc.key] == pc.entry
  }

  ghost predicate Good(s: Pool, p: Pid, s': Pool) {
    && Guarded(s, p, s') && EntriesFit(s') && Balanced(s') && Enforces(s, p, s') && Knows(s', p, s'.procs[p])
    && (!s.procs[p].Touch? ==> Returns(s', s'.procs[p]))
  }

  lemma CapStaysKept(s: Pool, p: Pid, s': Pool)
    requires LockOwned(s) && LockOwned(s') && CapKept(s) && Guarded(s, p, s') && Enforces(s, p, s')
    ensures CapKept(s')
  {
    if s'.cap != s.cap {
      assert Pending(s'.procs[p]);
    } else if OtherPending(s, p) {
      var q :| q in s.procs && q != p && Pending(s.procs[q]);
      assert Pending(s'.procs[q]);
    } else if SomePending(s) {
      assert Pending(s.procs[p]);
    } else if Creating(Holder(s)) && s.lock != Some(p) {
      assert s'.procs[s.lock.value] == s.procs[s.lock.value];
    }
  }

  ghost predicate Ready(s: Pool, p: Pid, pc: PC) {
    && LockOwned(s) && EntriesFit(s) && Balanced(s)
    && p in s.procs && s.procs[p] == pc && Knows(s, p, pc)
  }

  lemma RemoveSize(m: map<Key, Entry>, k: Key)
    requires k in m
    ensures |m - {k}| == |m| - 1
  {
    assert (m - {k}).Keys == m.Keys - {k} && |m| == |m.Keys| && |m - {k}| == |(m - {k}).Keys|;
  }

  lemma RemovalFits(s: Pool, key: Key)
    requires EntriesFit(s) && key in s.entries
    ensures EntriesFit(Remove(s, key)) && |Remove(s, key).entries| == |s.entries| - 1
  {
    RemoveSize(s.entries, key);
  }

  lemma SameEntriesFit(s: Pool, s': Pool)
    requires EntriesFit(s) && s'.entries == s.entries && s'.given == s.given && s'.next == s.next
    requires s'.access == s.access
    ensures EntriesFit(s')
  {
  }

  /** The same entries, and counters that account for them as before. */
  lemma SameBalance(s: Pool, p: Pid, s': Pool)
    requires EntriesFit(s) && Balanced(s) && s.lock == Some(p) && p in s.procs
    requires s'.entries == s.entries && s'.given == s.given && s'.next == s.next && s'.access == s.access
    requires s'.inserts == s.inserts && s'.cleared == s.cleared && p in s'.procs
    requires var pc := if s'.lock == Some(p) then s'.procs[p] else Ended;
             && (s'.lock == Some(p) || s'.lock == None)
             && s'.count + Lag(pc) == s.count + Lag(s.procs[p])
             && s'.evictions + Debt(pc) == s.evictions + Debt(s.procs[p])
    ensures EntriesFit(s') && Balanced(s')
  {
    SameEntriesFit(s, s');
    hide EntriesFit, Lag, Debt;
  }

  /** One entry less, as the eviction, the TTL scan and the clear take it out under the lock. */
  lemma RemovalBalances(s: Pool, p: Pid, key: Key, s': Pool)
    requires EntriesFit(s) && Balanced(s) && s.lock == Some(p) && p in s.procs && key in s.entries
    requires s'.entries == Remove(s, key).entries && s'.given == Remove(s, key).given
    requires s'.next == s.next && s'.access == s.access && s'.lock == s.lock && p in s'.procs
    requires s'.inserts == s.inserts && s'.evictions == s.evictions
    requires s'.count + Lag(s'.procs[p]) == s.count + Lag(s.procs[p]) - 1
    requires s'.cleared + Debt(s'.procs[p]) == s.cleared + Debt(s.procs[p]) + 1
    ensures EntriesFit(s') && Balanced(s')
  {
    RemovalFits(s, key);
    SameEntriesFit(Remove(s, key), s');
    hide EntriesFit, Remove, Lag, Debt;
  }

  /** What was decided brings the pool down to the cap. */
  lemma DecideSize(s: Pool, after: After, snapshot: map<Key, int>, cap: int, victims: seq<Key>)
    requires cap > 0 && snapshot.Keys == s.entries.Keys
    requires var over := Overflow(|s.entries|, cap, |Candidates(snapshot, ProtectedKey(after))|);
             LeastRecent(snapshot, ProtectedKey(after), over, victims)
    ensures Doomed(s, after, cap, victims)
    ensures Overflow(|s.entries|, cap, |Candidates(snapshot, ProtectedKey(after))|) == 0 ==> |s.entries| <= cap
  {
    assert |snapshot| == |snapshot.Keys| == |s.entries.Keys| == |s.entries|;
    if |snapshot| > cap { ClampNeverFires(snapshot, ProtectedKey(after), cap); }
  }

  lemma AcquireGood(s: Pool, p: Pid, s': Pool)
    requires p in s.procs && Ready(s, p, s.procs[p]) && Wants(s.procs[p]) && s.lock == None
    requires s' == Goto(s, p, Granted(s.procs[p])).(lock := Some(p))
    ensures Good(s, p, s')
  {
  }

  lemma LookupGood(s: Pool, p: Pid, key: Key, s': Pool)
    requires Ready(s, p, Lookup(key)) && LookupStep(s, p, key) == Some(s')
    ensures Good(s, p, s')
  {
  }

  lemma TouchGood(s: Pool, p: Pid, key: Key, entry: Entry, choice: Choice, s': Pool)
    requires Ready(s, p, Touch(key, entry)) && TouchStep(s, p, key, entry, choice) == Some(s')
    ensures Good(s, p, s')
  {
  }

  lemma InCreateGood(s: Pool, p: Pid, key: Key, choice: Choice, s': Pool)
    requires Ready(s, p, InCreate(key)) && InCreateStep(s, p, key, choice) == Some(s')
    ensures Good(s, p, s')
  {
  }

  lemma BuildingGuarded(s: Pool, p: Pid, key: Key, choice: Choice, s': Pool)
    requires Ready(s, p, Building(key)) && BuildingStep(s, p, key, choice) == Some(s')
    ensures Guarded(s, p, s')
  {
    hide Balanced, EntriesFit, Knows;
  }

  lemma BuiltBalances(s: Pool, p: Pid, key: Key, time: int, s': Pool)
    requires EntriesFit(s) && Balanced(s) && s.lock == Some(p) && p in s.procs && s.procs[p] == Building(key)
    requires key !in s.entries && BuildingStep(s, p, key, Builds(true, time)) == Some(s')
    ensures EntriesFit(s') && Balanced(s')
  {
    InsertSize(s.entries, key, s.next);
  }

  lemma InsertSize(m: map<Key, Entry>, k: Key, e: Entry)
    requires k !in m
    ensures |m[k := e]| == |m| + 1
  {
    assert m[k := e].Keys == m.Keys + {k} && |m| == |m.Keys| && |m[k := e]| == |m[k := e].Keys|;
  }

  lemma BuildingBalances(s: Pool, p: Pid, key: Key, choice: Choice, s': Pool)
    requires Ready(s, p, Building(key)) && BuildingStep(s, p, key, choice) == Some(s')
    ensures p in s'.procs && EntriesFit(s') && Balanced(s')
  {
    assert s.lock == Some(p) && key !in s.entries;
    hide LockOwned, Knows;
    if choice.Builds? && choice.ok {
      BuiltBalances(s, p, key, choice.time, s');
    } else {
      SameBalance(s, p, s');
    }
  }

  lemma BuildingGood(s: Pool, p: Pid, key: Key, choice: Choice, s': Pool)
    requires Ready(s, p, Building(key)) && BuildingStep(s, p, key, choice) == Some(s')
    ensures Good(s, p, s')
  {
    BuildingGuarded(s, p, key, choice, s');
    BuildingBalances(s, p, key, choice, s');
    hide Guarded, Balanced, EntriesFit;
  }

  lemma InsertedGood(s: Pool, p: Pid, key: Key, entry: Entry, s': Pool)
    requires Ready(s, p, Inserted(key, entry)) && InsertedStep(s, p, key, entry) == Some(s')
    ensures Good(s, p, s')
  {
  }

  lemma StoreCapGood(s: Pool, p: Pid, entries: int, s': Pool)
    requires Ready(s, p, StoreCap(entries)) && StoreCapStep(s, p, entries) == Some(s')
    ensures Good(s, p, s')
  {
  }

  lemma ReadCapGood(s: Pool, p: Pid, after: After, s': Pool)
    requires Ready(s, p, ReadCap(after)) && ReadCapStep(s, p, after) == Some(s')
    ensures Good(s, p, s')
  {
  }

  /** The end of evictLRUOverCapLocked, once its counters are stored. */
  lemma FinishGood(s: Pool, p: Pid, after: After, count: int, evictions: nat)
    requires LockOwned(s) && EntriesFit(s) && p in s.procs && Inside(s, after)
    requires var pc := s.procs[p]; (pc.ReadCap? || pc.Scanning? || pc.Evicting?) && pc.after == after
    requires |s.entries| == count && s.inserts == |s.entries| + evictions + s.cleared
    requires s.cap <= 0 || |s.entries| <= s.cap || OtherPending(s, p)
    ensures Good(s, p, FinishEviction(s.(count := count, evictions := evictions), p, after))
  {
  }

  lemma PickGood(s: Pool, p: Pid, after: After, cap: int, snapshot: map<Key, int>, key: Key, s': Pool)
    requires Ready(s, p, Scanning(after, cap, snapshot))
    requires ScanningStep(s, p, after, cap, snapshot, Pick(key)) == Some(s')
    ensures Good(s, p, s')
  {
    OthersStayPending(s, p, s');
  }

  lemma OthersStayPending(s: Pool, p: Pid, s': Pool)
    requires p in s.procs && p in s'.procs && s'.procs == s.procs[p := s'.procs[p]]
    ensures OtherPending(s, p) ==> OtherPending(s', p)
  {
    if OtherPending(s, p) {
      var q :| q in s.procs && q != p && Pending(s.procs[q]);
      assert Pending(s'.procs[q]);
    }
  }

  lemma DecideGood(s: Pool, p: Pid, after: After, cap: int, snapshot: map<Key, int>, victims: seq<Key>, s': Pool)
    requires Ready(s, p, Scanning(after, cap, snapshot))
    requires ScanningStep(s, p, after, cap, snapshot, Decide(victims)) == Some(s')
    ensures Good(s, p, s')
  {
    hide Good;
    DecideSize(s, after, snapshot, cap, victims);
    if Overflow(|s.entries|, cap, |Candidates(snapshot, ProtectedKey(after))|) == 0 {
      hide *;
      FinishAfterDecide(s, p, after, cap, snapshot, victims, s');
    } else {
      hide LeastRecent, Overflow, Candidates;
      BeginEviction(s, p, after, cap, snapshot, victims, s');
    }
  }

  lemma BeginEviction(s: Pool, p: Pid, after: After, cap: int, snapshot: map<Key, int>, victims: seq<Key>, s': Pool)
    requires Ready(s, p, Scanning(after, cap, snapshot)) && Doomed(s, after, cap, victims)
    requires s' == Goto(s.(count := |s.entries|), p, Evicting(after, cap, victims, 0))
    ensures Good(s, p, s')
  {
    OthersStayPending(s, p, s');
    SameEntriesFit(s, s');
    hide EntriesFit;
  }

  lemma FinishAfterDecide(s: Pool, p: Pid, after: After, cap: int, snapshot: map<Key, int>, victims: seq<Key>, s': Pool)
    requires Ready(s, p, Scanning(after, cap, snapshot))
    requires ScanningStep(s, p, after, cap, snapshot, Decide(victims)) == Some(s')
    requires cap > 0 && Overflow(|s.entries|, cap, |Candidates(snapshot, ProtectedKey(after))|) == 0
    requires |s.entries| <= cap
    ensures Good(s, p, s')
  {
    hide Good, LeastRecent, Overflow, Candidates;
    FinishGood(s, p, after, |s.entries|, s.evictions);
  }

  function EvictOne(s: Pool, p: Pid, after: After, cap: int, victims: seq<Key>, done: nat): Pool
    requires victims != []
  {
    Goto(Remove(s, victims[0]).(count := s.count - 1), p, Evicting(after, cap, victims[1..], done + 1))
  }

  lemma EvictOneGuarded(s: Pool, p: Pid, after: After, cap: int, victims: seq<Key>, done: nat)
    requires LockOwned(s) && p in s.procs && s.procs[p] == Evicting(after, cap, victims, done) && victims != []
    ensures Guarded(s, p, EvictOne(s, p, after, cap, victims, done))
  {
  }

  lemma EvictOneBalances(s: Pool, p: Pid, after: After, cap: int, victims: seq<Key>, done: nat)
    requires LockOwned(s) && EntriesFit(s) && Balanced(s)
    requires p in s.procs && s.procs[p] == Evicting(after, cap, victims, done) && victims != []
    requires victims[0] in s.entries
    ensures var s' := EvictOne(s, p, after, cap, victims, done); EntriesFit(s') && Balanced(s')
  {
    hide EntriesFit, Balanced;
    RemovalBalances(s, p, victims[0], EvictOne(s, p, after, cap, victims, done));
  }

  lemma OneVictimLess(s: Pool, after: After, cap: int, victims: seq<Key>)
    requires Doomed(s, after, cap, victims) && victims != [] && Inside(s, after)
    ensures victims[0] in s.entries && |Remove(s, victims[0]).entries| == |s.entries| - 1
    ensures Doomed(Remove(s, victims[0]), after, cap, victims[1..]) && Inside(Remove(s, victims[0]), after)
  {
    RemoveSize(s.entries, victims[0]);
  }

  lemma EvictOneKnows(s: Pool, p: Pid, after: After, cap: int, victims: seq<Key>, done: nat)
    requires p in s.procs && s.procs[p] == Evicting(after, cap, victims, done) && victims != []
    requires Inside(s, after) && CapCurrent(s, p, cap) && Doomed(s, after, cap, victims)
    ensures var s' := EvictOne(s, p, after, cap, victims, done);
            Knows(s', p, s'.procs[p]) && Enforces(s, p, s') && victims[0] in s.entries
  {
    var s' := EvictOne(s, p, after, cap, victims, done);
    OneVictimLess(s, after, cap, victims);
    OthersStayPending(s, p, s');
    assert Doomed(s', after, cap, victims[1..]) by { SameDoom(Remove(s, victims[0]), s', after, cap, victims[1..]); }
    hide Doomed, OtherPending;
  }

  lemma SameDoom(s: Pool, s': Pool, after: After, cap: int, victims: seq<Key>)
    requires Doomed(s, after, cap, victims) && s'.entries == s.entries
    ensures Doomed(s', after, cap, victims)
  {
  }

  lemma EvictOneGood(s: Pool, p: Pid, after: After, cap: int, victims: seq<Key>, done: nat, s': Pool)
    requires Ready(s, p, Evicting(after, cap, victims, done)) && victims != []
    requires EvictingStep(s, p, after, cap, victims, done) == Some(s')
    ensures Good(s, p, s')
  {
    assert s' == EvictOne(s, p, after, cap, victims, done);
    assert Inside(s, after) && CapCurrent(s, p, cap) && Doomed(s, after, cap, victims);
    hide Guarded, Balanced, EntriesFit, Doomed, CapCurrent, Knows, Enforces, LockOwned, EvictingStep, Inside;
    EvictOneKnows(s, p, after, cap, victims, done);
    EvictOneGuarded(s, p, after, cap, victims, done);
    EvictOneBalances(s, p, after, cap, victims, done);
  }

  lemma EvictingGood(s: Pool, p: Pid, after: After, cap: int, victims: seq<Key>, done: nat, s': Pool)
    requires Ready(s, p, Evicting(after, cap, victims, done))
    requires EvictingStep(s, p, after, cap, victims, done) == Some(s')
    ensures Good(s, p, s')
  {
    hide Good;
    if victims == [] {
      assert |s.entries| <= s.cap || OtherPending(s, p);
      FinishGood(s, p, after, s.count, s.evictions + done);
    } else {
      EvictOneGood(s, p, after, cap, victims, done, s');
    }
  }

  lemma RecheckingGuarded(s: Pool, p: Pid, keys: seq<Key>, cutoff: int, evicted: nat, s': Pool)
    requires Ready(s, p, Rechecking(keys, cutoff, evicted)) && RecheckingStep(s, p, keys, cutoff, evicted) == Some(s')
    ensures Guarded(s, p, s')
  {
    hide Balanced, EntriesFit, Knows;
  }

  lemma RecheckingBalances(s: Pool, p: Pid, keys: seq<Key>, cutoff: int, evicted: nat, s': Pool)
    requires Ready(s, p, Rechecking(keys, cutoff, evicted)) && RecheckingStep(s, p, keys, cutoff, evicted) == Some(s')
    ensures p in s'.procs && EntriesFit(s') && Balanced(s')
  {
    assert s.lock == Some(p);
    hide EntriesFit, Balanced;
    SameBalance(s, p, s');
  }

  lemma RecheckingGood(s: Pool, p: Pid, keys: seq<Key>, cutoff: int, evicted: nat, s': Pool)
    requires Ready(s, p, Rechecking(keys, cutoff, evicted)) && RecheckingStep(s, p, keys, cutoff, evicted) == Some(s')
    ensures Good(s, p, s')
  {
    RecheckingGuarded(s, p, keys, cutoff, evicted, s');
    RecheckingBalances(s, p, keys, cutoff, evicted, s');
    hide Guarded, Balanced, EntriesFit, LockOwned;
  }

  lemma ExpiringGuarded(s: Pool, p: Pid, keys: seq<Key>, cutoff: int, evicted: nat, s': Pool)
    requires Ready(s, p, Expiring(keys, cutoff, evicted)) && ExpiringStep(s, p, keys, cutoff, evicted) == Some(s')
    ensures Guarded(s, p, s')
  {
    hide Balanced, EntriesFit, Knows;
  }

  lemma ExpiringBalances(s: Pool, p: Pid, keys: seq<Key>, cutoff: int, evicted: nat, s': Pool)
    requires EntriesFit(s) && Balanced(s) && s.lock == Some(p) && p in s.procs
    requires s.procs[p] == Expiring(keys, cutoff, evicted)
    requires keys != [] && keys[0] in s.entries && ExpiringStep(s, p, keys, cutoff, evicted) == Some(s')
    ensures p in s'.procs && EntriesFit(s') && Balanced(s')
  {
    hide EntriesFit, Balanced;
    RemovalBalances(s, p, keys[0], s');
  }

  /** What is left to see about a step that removes an entry, or none, outside the cap. */
  lemma RemovalGood(s: Pool, p: Pid, s': Pool)
    requires Guarded(s, p, s') && EntriesFit(s') && Balanced(s') && |s'.entries| <= |s.entries|
    requires s.procs[p].Expiring? || s.procs[p].Clearing?
    requires s'.procs[p].Rechecking? || s'.procs[p].Clearing? || s'.procs[p].Ended?
    ensures Good(s, p, s')
  {
    hide Guarded, Balanced, EntriesFit;
  }

  lemma ExpiringReady(s: Pool, p: Pid, keys: seq<Key>, cutoff: int, evicted: nat)
    requires Ready(s, p, Expiring(keys, cutoff, evicted))
    ensures keys != [] && keys[0] in s.entries && s.lock == Some(p) && EntriesFit(s) && Balanced(s) && p in s.procs
    ensures s.procs[p] == Expiring(keys, cutoff, evicted)
  {
    hide EntriesFit, Balanced;
  }

  lemma ExpiringGood(s: Pool, p: Pid, keys: seq<Key>, cutoff: int, evicted: nat, s': Pool)
    requires Ready(s, p, Expiring(keys, cutoff, evicted)) && ExpiringStep(s, p, keys, cutoff, evicted) == Some(s')
    ensures Good(s, p, s')
  {
    hide Ready, Good, Guarded, Balanced, EntriesFit, LockOwned, ExpiringStep;
    ExpiringReady(s, p, keys, cutoff, evicted);
    ExpiringGuarded(s, p, keys, cutoff, evicted, s');
    ExpiringShrinks(s, p, keys, cutoff, evicted, s');
    ExpiringBalances(s, p, keys, cutoff, evicted, s');
    RemovalGood(s, p, s');
  }

  lemma ExpiringShrinks(s: Pool, p: Pid, keys: seq<Key>, cutoff: int, evicted: nat, s': Pool)
    requires keys != [] && keys[0] in s.entries && ExpiringStep(s, p, keys, cutoff, evicted) == Some(s')
    ensures |s'.entries| <= |s.entries| && p in s'.procs && s'.procs[p].Rechecking?
  {
    RemoveSize(s.entries, keys[0]);
  }

  lemma ClearingGuarded(s: Pool, p: Pid, removed: nat, choice: Choice, s': Pool)
    requires Ready(s, p, Clearing(removed)) && ClearingStep(s, p, removed, choice) == Some(s')
    ensures Guarded(s, p, s')
  {
    hide Balanced, EntriesFit, Knows;
  }

  lemma ClearedBalances(s: Pool, p: Pid, removed: nat, s': Pool)
    requires EntriesFit(s) && Balanced(s) && p in s.procs && s.procs[p] == Clearing(removed) && s.lock == Some(p)
    requires s.entries == map[] && s' == Leave(s.(count := 0), p, Ended)
    ensures EntriesFit(s') && Balanced(s')
  {
    SameEntriesFit(s, s');
    hide EntriesFit;
  }

  lemma ClearingBalances(s: Pool, p: Pid, removed: nat, choice: Choice, s': Pool)
    requires Ready(s, p, Clearing(removed)) && ClearingStep(s, p, removed, choice) == Some(s')
    ensures p in s'.procs && EntriesFit(s') && Balanced(s')
  {
    assert s.lock == Some(p);
    hide LockOwned, Knows;
    match choice
    case Pick(key) =>
      hide EntriesFit, Balanced;
      RemovalBalances(s, p, key, s');
    case Go => ClearedBalances(s, p, removed, s');
    case _ =>
  }

  lemma ClearingGood(s: Pool, p: Pid, removed: nat, choice: Choice, s': Pool)
    requires Ready(s, p, Clearing(removed)) && ClearingStep(s, p, removed, choice) == Some(s')
    ensures Good(s, p, s')
  {
    ClearingGuarded(s, p, removed, choice, s');
    ClearingBalances(s, p, removed, choice, s');
    ClearingShrinks(s, p, removed, choice, s');
    assert s.procs[p].Clearing?;
    hide Good, Guarded, Balanced, EntriesFit, LockOwned, ClearingStep;
    RemovalGood(s, p, s');
  }

  lemma ClearingShrinks(s: Pool, p: Pid, removed: nat, choice: Choice, s': Pool)
    requires ClearingStep(s, p, removed, choice) == Some(s')
    ensures |s'.entries| <= |s.entries| && p in s'.procs && (s'.procs[p].Clearing? || s'.procs[p].Ended?)
  {
    match choice
    case Pick(key) => if key in s.entries { RemoveSize(s.entries, key); }
    case _ =>
  }

  lemma LockStaysOwned(s: Pool, p: Pid, s': Pool)
    requires LockOwned(s) && Guarded(s, p, s')
    ensures LockOwned(s')
  {
  }

  lemma NobodyInterferes(s: Pool, p: Pid, s': Pool, q: Pid)
    requires LockOwned(s) && Guarded(s, p, s') && q in s.procs && q != p && Knows(s, q, s.procs[q])
    ensures Knows(s', q, s'.procs[q])
  {
    if s.procs[q].Scanning? || s.procs[q].Evicting? {
      var cap := s.procs[q].cap;
      assert CapCurrent(s', q, cap) by {
        if s'.cap != s.cap {
          assert Pending(s'.procs[p]);
        } else if cap != s.cap {
          var r :| r in s.procs && r != q && Pending(s.procs[r]);
          assert Pending(s'.procs[r]);
        }
      }
    }
  }

  lemma StepGood(s: Pool, p: Pid, choice: Choice, s': Pool)
    requires Inv(s) && p in s.procs && Step(s, p, choice) == Some(s')
    ensures Good(s, p, s')
  {
    assert Ready(s, p, s.procs[p]);
    hide Ready, Good, Inv;
    hide LookupStep, TouchStep, InCreateStep, BuildingStep, InsertedStep, StoreCapStep, ReadCapStep, EvictingStep;
    hide RecheckingStep, ExpiringStep, ClearingStep;
    if Wants(s.procs[p]) {
      AcquireGood(s, p, s');
    } else {
      match s.procs[p]
      case Lookup(key) => LookupGood(s, p, key, s');
      case Touch(key, entry) => TouchGood(s, p, key, entry, choice, s');
      case InCreate(key) => InCreateGood(s, p, key, choice, s');
      case Building(key) => BuildingGood(s, p, key, choice, s');
      case Inserted(key, entry) => InsertedGood(s, p, key, entry, s');
      case StoreCap(entries) => StoreCapGood(s, p, entries, s');
      case ReadCap(after) => ReadCapGood(s, p, after, s');
      case Scanning(after, cap, snapshot) =>
        match choice {
          case Pick(key) => PickGood(s, p, after, cap, snapshot, key, s');
          case Decide(victims) => DecideGood(s, p, after, cap, snapshot, victims, s');
          case _ =>
        }
      case Evicting(after, cap, victims, done) => EvictingGood(s, p, after, cap, victims, done, s');
      case Rechecking(keys, cutoff, evicted) => RecheckingGood(s, p, keys, cutoff, evicted, s');
      case Expiring(keys, cutoff, evicted) => ExpiringGood(s, p, keys, cutoff, evicted, s');
      case Clearing(removed) => ClearingGood(s, p, removed, choice, s');
      case _ =>
    }
  }

  lemma ApplyKeepsInv(s: Pool, e: Event, s': Pool)
    requires Inv(s) && Apply(s, e) == Some(s')
    ensures Inv(s')
  {
    match e
    case Run(p, choice) =>
      StepGood(s, p, choice, s');
      hide Step;
      LockStaysOwned(s, p, s');
      CapStaysKept(s, p, s');
      forall q <- s'.procs ensures Knows(s', q, s'.procs[q]) {
        if q != p { NobodyInterferes(s, p, s', q); }
      }
    case Arrive(p, pc) =>
      ArrivalKeepsInv(s, p, pc, s');
  }

  lemma ArrivalKeepsCap(s: Pool, p: Pid, pc: PC)
    requires Inv(s) && p !in s.procs && Begins(pc)
    ensures CapKept(Goto(s, p, pc)) && Balanced(Goto(s, p, pc)) && LockOwned(Goto(s, p, pc))
  {
    var s' := Goto(s, p, pc);
    assert s.lock != Some(p) && Holder(s') == Holder(s);
    if SomePending(s) {
      var r :| r in s.procs && Pending(s.procs[r]);
      assert Pending(s'.procs[r]);
    }
    hide EntriesFit, Knows;
  }

  lemma ArrivalKeepsKnowledge(s: Pool, p: Pid, pc: PC, q: Pid)
    requires p !in s.procs && q in s.procs && Knows(s, q, s.procs[q])
    ensures Knows(Goto(s, p, pc), q, s.procs[q])
  {
    OtherStillPending(s, q, p, pc);
    hide OtherPending;
  }

  lemma ArrivalKeepsInv(s: Pool, p: Pid, pc: PC, s': Pool)
    requires Inv(s) && p !in s.procs && Begins(pc) && s' == Goto(s, p, pc)
    ensures Inv(s')
  {
    ArrivalKeepsCap(s, p, pc);
    SameEntriesFit(s, s');
    forall q <- s'.procs ensures Knows(s', q, s'.procs[q]) {
      if q != p {
        ArrivalKeepsKnowledge(s, p, pc, q);
      }
    }
    hide CapKept, Balanced, LockOwned, EntriesFit, Knows;
  }

  lemma OtherStillPending(s: Pool, q: Pid, p: Pid, pc: PC)
    requires p !in s.procs
    ensures OtherPending(s, q) ==> OtherPending(Goto(s, p, pc), q)
  {
    if OtherPending(s, q) {
      var r :| r in s.procs && r != q && Pending(s.procs[r]);
      assert Pending(Goto(s, p, pc).procs[r]);
    }
  }

  lemma {:induction false} RunKeepsInv(s: Pool, es: seq<Event>, s': Pool)
    requires Inv(s) && Exec(s, es) == Some(s')
    ensures Inv(s')
    decreases |es|
  {
    if es != [] {
      hide Inv, Apply;
      var next := Apply(s, es[0]).value;
      ApplyKeepsInv(s, es[0], next);
      RunKeepsInv(next, es[1..], s');
    }
  }

  ghost predicate Reachable(s: Pool) {
    exists es :: Exec(INIT, es) == Some(s)
  }

  lemma InitFits()
    ensures Inv(INIT)
  {
    assert INIT.entries == map[] && |INIT.entries| == 0 && INIT.procs == map[];
  }

  lemma ReachableSatisfiesInv(s: Pool)
    requires Reachable(s)
    ensures Inv(s)
  {
    InitFits();
    hide Exec, Inv;
    var es :| Exec(INIT, es) == Some(s);
    RunKeepsInv(INIT, es, s);
  }

  // What callers may rely on

  /** Whenever the lock is free, the counter is the size of the map, and every entry ever inserted is
      still there, was counted as evicted, or was cleared. */
  lemma CountersBalance(s: Pool)
    requires Reachable(s) && s.lock == None
    ensures s.count == |s.entries|
    ensures s.inserts == |s.entries| + s.evictions + s.cleared
  {
    ReachableSatisfiesInv(s);
  }

  /** Whenever the lock is free and no call of SetPoolMaxEntries is half done, a positive cap holds. */
  lemma CapHolds(s: Pool)
    requires Reachable(s) && s.lock == None && s.cap > 0
    requires forall p <- s.procs :: !Pending(s.procs[p])
    ensures |s.entries| <= s.cap
  {
    ReachableSatisfiesInv(s);
  }

  ghost predicate StaysPooled(s: Pool, es: seq<Event>, key: Key) {
    forall i | 0 <= i <= |es| :: Exec(s, es[..i]).Some? && key in Exec(s, es[..i]).value.entries
  }

  /** What a step does to the entries and their access times: only building adds an entry, and besides it
      only hits store a time. */
  ghost predicate Effect(s: Pool, p: Pid, choice: Choice, s': Pool)
    requires p in s.procs
  {
    var pc := s.procs[p];
    && s.next <= s'.next && p in s'.procs && (s'.procs[p].Expiring? ==> pc.Rechecking?)
    && (!pc.Building? ==> forall k <- s'.entries :: k in s.entries && s'.entries[k] == s.entries[k])
    && (if pc.Touch? && choice.At? then s'.access == s.access[pc.entry := choice.time]
        else if pc.InCreate? && choice.At? && pc.key in s.entries then
          s'.access == s.access[s.entries[pc.key] := choice.time]
        else if pc.Building? && choice.Builds? && choice.ok then s'.access == s.access[s.next := choice.time]
        else s'.access == s.access)
  }

  lemma LookUpEffect(s: Pool, p: Pid, choice: Choice, s': Pool)
    requires p in s.procs && Step(s, p, choice) == Some(s')
    requires var pc := s.procs[p]; pc.Lookup? || pc.Touch? || pc.InCreate? || pc.Building? || pc.Inserted?
    ensures Effect(s, p, choice, s')
  {
    hide ScanningStep, EvictingStep, RecheckingStep, ExpiringStep, ClearingStep, ReadCapStep, StoreCapStep;
  }

  lemma CapEffect(s: Pool, p: Pid, choice: Choice, s': Pool)
    requires p in s.procs && Step(s, p, choice) == Some(s')
    requires var pc := s.procs[p]; pc.StoreCap? || pc.ReadCap? || pc.Evicting?
    ensures Effect(s, p, choice, s')
  {
    hide LookupStep, TouchStep, InCreateStep, BuildingStep, InsertedStep, RecheckingStep, ExpiringStep, ClearingStep;
    hide ScanningStep;
  }

  lemma ScanningEffect(s: Pool, p: Pid, after: After, cap: int, snapshot: map<Key, int>, choice: Choice, s': Pool)
    requires p in s.procs && s.procs[p] == Scanning(after, cap, snapshot)
    requires ScanningStep(s, p, after, cap, snapshot, choice) == Some(s')
    ensures Effect(s, p, choice, s')
  {
    hide LeastRecent, Overflow, Candidates;
    match choice
    case Pick(_) =>
    case Decide(_) =>
    case _ =>
  }

  lemma ScanningIs(s: Pool, p: Pid, choice: Choice)
    requires p in s.procs && s.procs[p].Scanning?
    ensures var pc := s.procs[p]; Step(s, p, choice) == ScanningStep(s, p, pc.after, pc.cap, pc.snapshot, choice)
  {
    hide ScanningStep;
  }

  lemma RemovalEffect(s: Pool, p: Pid, choice: Choice, s': Pool)
    requires p in s.procs && Step(s, p, choice) == Some(s')
    requires var pc := s.procs[p]; Wants(pc) || pc.Rechecking? || pc.Expiring? || pc.Clearing?
    ensures Effect(s, p, choice, s')
  {
    hide LookupStep, TouchStep, InCreateStep, BuildingStep, InsertedStep;
    hide ScanningStep, EvictingStep, ReadCapStep, StoreCapStep;
  }

  lemma StepEffect(s: Pool, p: Pid, choice: Choice, s': Pool)
    requires p in s.procs && Step(s, p, choice) == Some(s')
    ensures Effect(s, p, choice, s')
  {
    hide Effect;
    var pc := s.procs[p];
    if pc.Lookup? || pc.Touch? || pc.InCreate? || pc.Building? || pc.Inserted? {
      hide Step;
      LookUpEffect(s, p, choice, s');
    } else if pc.StoreCap? || pc.ReadCap? || pc.Evicting? {
      hide Step;
      CapEffect(s, p, choice, s');
    } else if pc.Scanning? {
      ScanningIs(s, p, choice);
      hide Step, ScanningStep;
      ScanningEffect(s, p, pc.after, pc.cap, pc.snapshot, choice, s');
    } else if Wants(pc) || pc.Rechecking? || pc.Expiring? || pc.Clearing? {
      hide Step;
      RemovalEffect(s, p, choice, s');
    }
  }

  lemma StepKeepsEntry(s: Pool, e: Event, s': Pool, key: Key)
    requires Inv(s) && Apply(s, e) == Some(s') && key in s.entries && key in s'.entries
    ensures s'.entries[key] == s.entries[key]
  {
    if e.Run? {
      assert Knows(s, e.p, s.procs[e.p]);
      hide Inv;
      if s.procs[e.p].Building? {
        assert BuildingStep(s, e.p, s.procs[e.p].key, e.choice) == Some(s');
      } else {
        StepEffect(s, e.p, e.choice, s');
        hide Step;
      }
    }
  }

  /** From one look-up to the next the client of a key stays the same until the key is removed: no
      interleaving of creations overwrites a pooled client. */
  lemma {:induction false} SameClientUntilRemoved(s: Pool, es: seq<Event>, s': Pool, key: Key)
    requires Reachable(s) && Exec(s, es) == Some(s') && StaysPooled(s, es, key)
    ensures key in s.entries && key in s'.entries && s'.entries[key] == s.entries[key]
  {
    ReachableSatisfiesInv(s);
    EntryStays(s, es, s', key);
  }

  lemma {:induction false} EntryStays(s: Pool, es: seq<Event>, s': Pool, key: Key)
    requires Inv(s) && Exec(s, es) == Some(s') && StaysPooled(s, es, key)
    ensures key in s.entries && key in s'.entries && s'.entries[key] == s.entries[key]
    decreases |es|
  {
    assert es[..0] == [] && key in Exec(s, es[..0]).value.entries;
    if es != [] {
      var next := Apply(s, es[0]).value;
      assert es[..1][0] == es[0] && es[..1][1..] == [] && key in Exec(s, es[..1]).value.entries;
      assert Exec(next, []) == Some(next) && Exec(s, es[..1]) == Some(next);
      ApplyKeepsInv(s, es[0], next);
      StepKeepsEntry(s, es[0], next, key);
      hide Inv, Apply;
      forall i | 0 <= i <= |es[1..]|
        ensures Exec(next, es[1..][..i]).Some? && key in Exec(next, es[1..][..i]).value.entries
      {
        assert es[..i + 1][1..] == es[1..][..i] && es[..i + 1][0] == es[0];
        assert Exec(s, es[..i + 1]) == Exec(next, es[1..][..i]);
      }
      EntryStays(next, es[1..], s', key);
    }
  }

  /** A look-up returns the pooled entry, whether it hit without the lock, hit under it, or created. */
  lemma LookupReturnsPooled(s: Pool, p: Pid, choice: Choice, s': Pool)
    requires Reachable(s) && p in s.procs && Step(s, p, choice) == Some(s')
    ensures p in s'.procs && (!s.procs[p].Touch? ==> Returns(s', s'.procs[p]))
  {
    ReachableSatisfiesInv(s);
    StepGood(s, p, choice, s');
    hide Step, Inv;
  }

  /** A step of `p` that is a look-up's answer: the entry it found without the lock, found under it, or
      created. */
  predicate Answers(s: Pool, p: Pid, s': Pool, key: Key, entry: Entry) {
    && p in s.procs && p in s'.procs && !s.procs[p].Touch? && s'.procs[p] != s.procs[p]
    && s'.procs[p] in {Touch(key, entry), Served(key, entry)}
  }

  /** Two look-ups of a key, by whatever goroutines and with whatever happens in between, are answered with
      the same entry, and so with the same client, as long as the key stays pooled. */
  lemma TwoLookUpsAgree(s: Pool, p: Pid, c: Choice, s1: Pool, es: seq<Event>, s2: Pool, q: Pid, d: Choice, s': Pool,
                        key: Key, first: Entry, second: Entry)
    requires Reachable(s) && p in s.procs && Step(s, p, c) == Some(s1) && Answers(s, p, s1, key, first)
    requires Exec(s1, es) == Some(s2) && StaysPooled(s1, es, key)
    requires q in s2.procs && Step(s2, q, d) == Some(s') && Answers(s2, q, s', key, second)
    ensures first == second
  {
    hide Step, Inv;
    ReachableSatisfiesInv(s);
    StepReturns(s, p, c, s1);
    ApplyKeepsInv(s, Run(p, c), s1);
    EntryStays(s1, es, s2, key);
    hide Exec;
    RunsKeepInv(s1, es, s2);
    StepReturns(s2, q, d, s');
    StepKeepsEntry(s2, Run(q, d), s', key);
  }

  lemma RunsKeepInv(s: Pool, es: seq<Event>, s': Pool)
    requires Inv(s) && Exec(s, es) == Some(s')
    ensures Inv(s')
  {
    RunKeepsInv(s, es, s');
  }

  lemma StepReturns(s: Pool, p: Pid, choice: Choice, s': Pool)
    requires Inv(s) && p in s.procs && Step(s, p, choice) == Some(s') && !s.procs[p].Touch?
    ensures p in s'.procs && Returns(s', s'.procs[p])
  {
    StepGood(s, p, choice, s');
    hide Step, Inv;
  }
}
