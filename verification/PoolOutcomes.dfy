/** What every step of the client pool does to it, which entries an eviction gives up, and that the pool
    never gets stuck. */
module PoolOutcomes {
  import opened Wrappers
  import opened PoolPolicy
  import opened PoolMachine
  import opened PoolSafety

  /** Which function a step of each program counter is. */
  lemma StepIs(s: Pool, p: Pid, choice: Choice)
    requires p in s.procs
    ensures var pc := s.procs[p];
            && (Wants(pc) ==> Step(s, p, choice) == if s.lock.None? && choice == Go
                                                    then Some(Goto(s, p, Granted(pc)).(lock := Some(p))) else None)
            && (pc.Lookup? ==> Step(s, p, choice) == LookupStep(s, p, pc.key))
            && (pc.Touch? ==> Step(s, p, choice) == TouchStep(s, p, pc.key, pc.entry, choice))
            && (pc.InCreate? ==> Step(s, p, choice) == InCreateStep(s, p, pc.key, choice))
            && (pc.Building? ==> Step(s, p, choice) == BuildingStep(s, p, pc.key, choice))
            && (pc.Inserted? ==> Step(s, p, choice) == InsertedStep(s, p, pc.key, pc.entry))
            && (pc.StoreCap? ==> Step(s, p, choice) == StoreCapStep(s, p, pc.entries))
            && (pc.ReadCap? ==> Step(s, p, choice) == ReadCapStep(s, p, pc.after))
            && (pc.Scanning? ==> Step(s, p, choice) == ScanningStep(s, p, pc.after, pc.cap, pc.snapshot, choice))
            && (pc.Evicting? ==> Step(s, p, choice) == EvictingStep(s, p, pc.after, pc.cap, pc.victims, pc.done))
            && (pc.Rechecking? ==> Step(s, p, choice) == RecheckingStep(s, p, pc.keys, pc.cutoff, pc.evicted))
            && (pc.Expiring? ==> Step(s, p, choice) == ExpiringStep(s, p, pc.keys, pc.cutoff, pc.evicted))
            && (pc.Clearing? ==> Step(s, p, choice) == ClearingStep(s, p, pc.removed, choice))
            && (pc.Served? || pc.Ended? ==> Step(s, p, choice) == None)
  {
    hide LookupStep, TouchStep, InCreateStep, BuildingStep, InsertedStep, StoreCapStep, ReadCapStep;
    hide ScanningStep, EvictingStep, RecheckingStep, ExpiringStep, ClearingStep, Granted;
  }

  /** Only a build that succeeds adds an entry, a new one; an eviction, the TTL scan and a clear each remove the
      one they are at. */
  function EntriesAfter(s: Pool, pc: PC, choice: Choice): map<Key, Entry> {
    match pc
    case Building(key) => if choice.Builds? && choice.ok then s.entries[key := s.next] else s.entries
    case Evicting(_, _, victims, _) => if victims != [] then s.entries - {victims[0]} else s.entries
    case Expiring(keys, _, _) => if keys != [] then s.entries - {keys[0]} else s.entries
    case Clearing(_) => if choice.Pick? then s.entries - {choice.key} else s.entries
    case _ => s.entries
  }

  lemma ScanLeavesThePool(s: Pool, p: Pid, after: After, cap: int, snapshot: map<Key, int>, choice: Choice, s': Pool)
    requires ScanningStep(s, p, after, cap, snapshot, choice) == Some(s')
    ensures s'.entries == s.entries && s'.cap == s.cap
  {
    hide LeastRecent, Overflow, Candidates;
  }

  ghost predicate PoolFollows(s: Pool, p: Pid, choice: Choice, s': Pool)
    requires p in s.procs
  {
    var pc := s.procs[p];
    && s'.entries == EntriesAfter(s, pc, choice)
    && s'.cap == if pc.StoreCap? then (if pc.entries < 0 then 1024 else pc.entries) else s.cap
  }

  lemma LookUpFollows(s: Pool, p: Pid, choice: Choice, s': Pool)
    requires p in s.procs && Step(s, p, choice) == Some(s')
    requires var pc := s.procs[p];
             || pc.Lookup? || pc.Touch? || pc.InCreate? || pc.Building? || pc.Inserted? || pc.StoreCap? || pc.ReadCap?
    ensures PoolFollows(s, p, choice, s')
  {
    StepIs(s, p, choice);
    hide Step, Granted;
  }

  lemma RemovalFollows(s: Pool, p: Pid, choice: Choice, s': Pool)
    requires p in s.procs && Step(s, p, choice) == Some(s')
    requires var pc := s.procs[p]; pc.Evicting? || pc.Rechecking? || pc.Expiring? || pc.Clearing?
    ensures PoolFollows(s, p, choice, s')
  {
    StepIs(s, p, choice);
    hide Step, Granted;
  }

  /** Every step, on the entries and the cap. */
  lemma WhatChangesThePool(s: Pool, p: Pid, choice: Choice, s': Pool)
    requires p in s.procs && Step(s, p, choice) == Some(s')
    ensures PoolFollows(s, p, choice, s')
  {
    StepIs(s, p, choice);
    var pc := s.procs[p];
    if Wants(pc) {
      hide Step, Granted;
    } else if pc.Scanning? {
      hide Step, ScanningStep;
      ScanLeavesThePool(s, p, pc.after, pc.cap, pc.snapshot, choice, s');
    } else if pc.Evicting? || pc.Rechecking? || pc.Expiring? || pc.Clearing? {
      hide Step, PoolFollows;
      RemovalFollows(s, p, choice, s');
    } else {
      hide Step, PoolFollows;
      LookUpFollows(s, p, choice, s');
    }
  }

  /** A look-up is answered without the lock if its key is pooled, and otherwise waits for the lock; under it, it
      takes what another has created meanwhile, and else builds once. A build that fails leaves the pool alone. */
  lemma HowLookUpsGo(s: Pool, p: Pid, choice: Choice, s': Pool)
    requires p in s.procs && Step(s, p, choice) == Some(s') && p in s'.procs
    ensures match s.procs[p]
            case Lookup(key) =>
              && s'.lock == s.lock
              && s'.procs[p] == if key in s.entries then Touch(key, s.entries[key]) else WantCreate(key)
            case Touch(key, entry) => s'.procs[p] == Served(key, entry) && s'.lock == s.lock
            case InCreate(key) =>
              if key in s.entries then s'.procs[p] == Served(key, s.entries[key]) && s'.lock == None
              else s'.procs[p] == Building(key) && s'.lock == s.lock
            case Building(key) =>
              choice.Builds? &&
              if choice.ok then s'.procs[p] == Inserted(key, s.next) && s'.inserts == s.inserts + 1
              else s'.procs[p] == Ended && s'.lock == None
            case Inserted(key, entry) => s'.procs[p] == ReadCap(Create(key, entry))
            case StoreCap(_) => s'.procs[p] == WantResize
            case _ => true
  {
    StepIs(s, p, choice);
    var pc := s.procs[p];
    hide Step, ScanningStep, EvictingStep, RecheckingStep, ExpiringStep, ClearingStep, ReadCapStep, Granted;
  }

  /** A creation ends with its entry served, and a change of the cap with nothing; both give up the lock. */
  predicate EvictionEnds(after: After, s': Pool, p: Pid) {
    p in s'.procs && s'.lock == None && s'.procs[p] == if after.Create? then Served(after.key, after.entry) else Ended
  }

  /** Nothing is evicted without a positive cap, and no more than what is over it. The victims are not the new
      entry, and each was used, as the scan read it, no later than any other entry that stays. Without a new
      entry the empty key is spared. */
  lemma WhatIsEvicted(s: Pool, p: Pid, choice: Choice, s': Pool)
    requires p in s.procs && Step(s, p, choice) == Some(s') && p in s'.procs
    ensures s.procs[p].ReadCap? ==>
              if s.cap <= 0 then EvictionEnds(s.procs[p].after, s', p)
              else s'.procs[p] == Scanning(s.procs[p].after, s.cap, map[])
    ensures s.procs[p].Scanning? ==>
              var pc, pc' := s.procs[p], s'.procs[p];
              var kept := if pc.after.Create? then pc.after.key else Key("");
              if choice.Pick? then
                && choice.key in s.entries && s.entries[choice.key] in s.access
                && pc' == pc.(snapshot := pc.snapshot[choice.key := s.access[s.entries[choice.key]]])
              else
                && pc.snapshot.Keys == s.entries.Keys && pc.cap > 0
                && (if |s.entries| <= pc.cap then EvictionEnds(pc.after, s', p)
                    else && pc'.Evicting? && pc'.done == 0
                         && OldestOf(pc.snapshot, kept, |s.entries| - pc.cap, pc'.victims))
  {
    StepIs(s, p, choice);
    var pc := s.procs[p];
    hide Step;
    if pc.Scanning? && choice.Decide? {
      DecidesOnOldest(s, p, pc.after, pc.cap, pc.snapshot, choice, s');
    }
    hide LeastRecent, Candidates, Overflow;
  }

  /** `n` different keys other than `kept` that were used no later than any other. */
  ghost predicate OldestOf(snapshot: map<Key, int>, kept: Key, n: nat, victims: seq<Key>) {
    && |victims| == n && (forall i, j | 0 <= i < j < n :: victims[i] != victims[j])
    && (forall v <- victims :: v in snapshot && v != kept)
    && forall v <- victims, k <- snapshot :: k in victims || k == kept || snapshot[v] <= snapshot[k]
  }

  lemma DecidesOnOldest(s: Pool, p: Pid, after: After, cap: int, snapshot: map<Key, int>, choice: Choice, s': Pool)
    requires ScanningStep(s, p, after, cap, snapshot, choice) == Some(s') && choice.Decide? && p in s'.procs
    ensures snapshot.Keys == s.entries.Keys && cap > 0
    ensures if |s.entries| <= cap then EvictionEnds(after, s', p)
            else && s'.procs[p].Evicting? && s'.procs[p].done == 0
                 && OldestOf(snapshot, ProtectedKey(after), |s.entries| - cap, s'.procs[p].victims)
  {
    assert |snapshot| == |snapshot.Keys| && |s.entries| == |s.entries.Keys|;
    if |s.entries| > cap {
      ClampNeverFires(snapshot, ProtectedKey(after), cap);
    }
  }

  /** The TTL scan deletes a key exactly when it is still pooled and stale as it looks again, and goes on with
      the next; an eviction deletes all its victims, and a clear goes on until nothing is left. */
  lemma HowRemovalsGo(s: Pool, p: Pid, choice: Choice, s': Pool)
    requires p in s.procs && Step(s, p, choice) == Some(s') && p in s'.procs
    ensures match s.procs[p]
            case Rechecking(keys, cutoff, evicted) =>
              if keys == [] then s'.procs[p] == Ended && s'.lock == None && s'.evictions == s.evictions + evicted
              else if keys[0] in s.entries && s.entries[keys[0]] in s.access && s.access[s.entries[keys[0]]] < cutoff
              then s'.procs[p] == Expiring(keys, cutoff, evicted)
              else s'.procs[p] == Rechecking(keys[1..], cutoff, evicted)
            case Expiring(keys, cutoff, evicted) =>
              keys != [] && s'.procs[p] == Rechecking(keys[1..], cutoff, evicted + 1) && s'.count == s.count - 1
            case Evicting(after, cap, victims, done) =>
              if victims == [] then EvictionEnds(after, s', p) && s'.evictions == s.evictions + done
              else s'.procs[p] == Evicting(after, cap, victims[1..], done + 1) && s'.count == s.count - 1
            case Clearing(removed) =>
              if choice.Pick? then choice.key in s.entries && s'.procs[p] == Clearing(removed + 1)
              else s.entries == map[] && s'.procs[p] == Ended && s'.lock == None && s'.count == 0
            case _ => true
  {
    StepIs(s, p, choice);
    hide Step, ScanningStep, LookupStep, TouchStep, InCreateStep, BuildingStep, InsertedStep, ReadCapStep, StoreCapStep;
    hide Granted;
  }

  // The pool never gets stuck

  lemma {:induction false} Oldest(keys: set<Key>, m: map<Key, int>) returns (k: Key)
    requires keys != {} && keys <= m.Keys
    ensures k in keys && forall j <- keys :: m[k] <= m[j]
    decreases |keys|
  {
    k :| k in keys;
    if keys != {k} {
      var rest := keys - {k};
      assert keys == rest + {k};
      var j := Oldest(rest, m);
      if m[j] < m[k] { k := j; }
    }
  }

  /** There is always a choice of victims. */
  lemma {:induction false} VictimsExist(snapshot: map<Key, int>, kept: Key, n: nat) returns (victims: seq<Key>)
    requires n <= |Candidates(snapshot, kept)|
    ensures LeastRecent(snapshot, kept, n, victims)
    decreases n
  {
    if n == 0 {
      victims := [];
    } else {
      var before := VictimsExist(snapshot, kept, n - 1);
      DistinctSize(before);
      var rest := Candidates(snapshot, kept) - SetOf(before);
      assert rest != {} by {
        if rest == {} { Covered(Candidates(snapshot, kept), SetOf(before)); }
      }
      var k := Oldest(rest, snapshot);
      victims := before + [k];
    }
  }

  lemma Covered(a: set<Key>, b: set<Key>)
    requires a - b == {}
    ensures |a| <= |b|
  {
    forall x <- a ensures x in b { assert x !in a - b; }
    assert a <= b;
    assert b == a + (b - a);
  }

  /** A scan has seen only entries that are there. */
  ghost predicate ScansFit(s: Pool) {
    forall p <- s.procs | s.procs[p].Scanning? :: s.procs[p].snapshot.Keys <= s.entries.Keys
  }

  lemma WhereScansComeFrom(s: Pool, p: Pid, choice: Choice, s': Pool)
    requires p in s.procs && Step(s, p, choice) == Some(s') && p in s'.procs && s'.procs[p].Scanning?
    ensures s'.procs[p].snapshot.Keys <= if s.procs[p].Scanning? then s.procs[p].snapshot.Keys + s.entries.Keys else {}
  {
    var pc := s.procs[p];
    HowLookUpsGo(s, p, choice, s');
    WhatIsEvicted(s, p, choice, s');
    HowRemovalsGo(s, p, choice, s');
    StepIs(s, p, choice);
    hide Step, LookupStep, TouchStep, InCreateStep, BuildingStep, InsertedStep, ReadCapStep, StoreCapStep;
    hide ScanningStep, EvictingStep, RecheckingStep, ExpiringStep, ClearingStep, OldestOf;
  }

  lemma ScansBegin(s: Pool, p: Pid, choice: Choice, s': Pool)
    requires p in s.procs && Step(s, p, choice) == Some(s') && p in s'.procs && s'.procs[p].Scanning?
    requires PoolFollows(s, p, choice, s')
    ensures s'.entries == s.entries
  {
    HowLookUpsGo(s, p, choice, s');
    HowRemovalsGo(s, p, choice, s');
    hide Step;
  }

  lemma StepKeepsScans(s: Pool, p: Pid, choice: Choice, s': Pool)
    requires Inv(s) && ScansFit(s) && p in s.procs && Step(s, p, choice) == Some(s')
    ensures ScansFit(s')
  {
    StepGood(s, p, choice, s');
    LocksExclude(s, p);
    hide Step, Inv;
    forall q <- s'.procs | s'.procs[q].Scanning? ensures s'.procs[q].snapshot.Keys <= s'.entries.Keys {
      if q == p {
        WhereScansComeFrom(s, p, choice, s');
        WhatChangesThePool(s, p, choice, s');
        ScansBegin(s, p, choice, s');
      } else {
        assert s'.procs[q] == s.procs[q];
      }
    }
  }

  lemma LocksExclude(s: Pool, p: Pid)
    requires Inv(s) && p in s.procs
    ensures forall q <- s.procs | q != p && Holds(s.procs[q]) :: !Holds(s.procs[p])
  {
  }

  lemma {:induction false} RunKeepsScans(s: Pool, es: seq<Event>, s': Pool)
    requires Inv(s) && ScansFit(s) && Exec(s, es) == Some(s')
    ensures Inv(s') && ScansFit(s')
    decreases |es|
  {
    if es != [] {
      hide Inv, Step;
      var next := Apply(s, es[0]).value;
      ApplyKeepsInv(s, es[0], next);
      match es[0] {
        case Run(p, choice) => StepKeepsScans(s, p, choice, next);
        case Arrive(_, _) =>
      }
      RunKeepsScans(next, es[1..], s');
    }
  }

  lemma DecideIsPossible(s: Pool, p: Pid, after: After, cap: int, snapshot: map<Key, int>) returns (choice: Choice)
    requires snapshot.Keys == s.entries.Keys && cap > 0
    ensures ScanningStep(s, p, after, cap, snapshot, choice).Some?
  {
    var n := Overflow(|s.entries|, cap, |Candidates(snapshot, ProtectedKey(after))|);
    assert |snapshot| == |snapshot.Keys| && |s.entries| == |s.entries.Keys|;
    if |s.entries| > cap { ClampNeverFires(snapshot, ProtectedKey(after), cap); }
    var victims := VictimsExist(snapshot, ProtectedKey(after), n);
    choice := Decide(victims);
    hide LeastRecent, Candidates, Overflow;
  }

  lemma Unseen(all: set<Key>, seen: set<Key>) returns (key: Key)
    requires seen <= all && seen != all
    ensures key in all && key !in seen
  {
    assert exists k :: k in all && k !in seen;
    key :| key in all && key !in seen;
  }

  lemma ScanCanMove(s: Pool, p: Pid, after: After, cap: int, snapshot: map<Key, int>) returns (choice: Choice)
    requires EntriesFit(s) && snapshot.Keys <= s.entries.Keys && cap > 0
    ensures ScanningStep(s, p, after, cap, snapshot, choice).Some?
  {
    if snapshot.Keys == s.entries.Keys {
      choice := DecideIsPossible(s, p, after, cap, snapshot);
    } else {
      var key := Unseen(s.entries.Keys, snapshot.Keys);
      choice := Pick(key);
    }
  }

  /** Whoever has the lock can go on. */
  lemma HolderCanMove(s: Pool, p: Pid) returns (choice: Choice)
    requires Inv(s) && ScansFit(s) && s.lock == Some(p)
    ensures p in s.procs && Step(s, p, choice).Some?
  {
    assert p in s.procs && Holds(s.procs[p]) && Knows(s, p, s.procs[p]);
    match s.procs[p]
    case Scanning(after, cap, snapshot) =>
      choice := ScanCanMove(s, p, after, cap, snapshot);
      StepIs(s, p, choice);
      hide Step, Inv;
    case InCreate(_) => choice := At(0);
    case Building(_) => choice := Builds(true, 0);
    case Clearing(_) =>
      if s.entries == map[] {
        choice := Go;
      } else {
        var key :| key in s.entries;
        choice := Pick(key);
      }
    case _ => choice := Go;
  }

  /** In every reachable state with a call that has not ended, some call can take a step. */
  lemma PoolNeverSticks(s: Pool, p: Pid) returns (q: Pid, choice: Choice)
    requires Reachable(s) && p in s.procs && !s.procs[p].Served? && !s.procs[p].Ended?
    ensures q in s.procs && Step(s, q, choice).Some?
  {
    InitFits();
    hide Inv, Exec;
    var es :| Exec(INIT, es) == Some(s);
    RunKeepsScans(INIT, es, s);
    if s.lock.Some? {
      q := s.lock.value;
      choice := HolderCanMove(s, q);
    } else {
      q := p;
      FreeLockLetsMove(s, p);
      choice := if s.procs[p].Touch? then At(0) else Go;
    }
  }

  lemma FreeLockLetsMove(s: Pool, p: Pid)
    requires Inv(s) && s.lock == None && p in s.procs && !s.procs[p].Served? && !s.procs[p].Ended?
    ensures Step(s, p, if s.procs[p].Touch? then At(0) else Go).Some?
  {
    assert !Holds(s.procs[p]);
    StepIs(s, p, if s.procs[p].Touch? then At(0) else Go);
    hide Step, Inv;
  }
}
