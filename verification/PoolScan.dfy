/** What the TTL scan deletes: its re-check, the moment between re-check and delete, and the delete. */
module PoolScan {
  import opened Wrappers
  import opened PoolPolicy
  import opened PoolMachine
  import opened PoolSafety

  /** The step of the scan that re-checks an entry and decides to delete it: the scan holds the lock, and
      at this moment the entry was last used before the cutoff. */
  lemma RecheckSeesStale(s: Pool, p: Pid, choice: Choice, s': Pool)
    requires Reachable(s) && p in s.procs && Step(s, p, choice) == Some(s')
    requires !s.procs[p].Expiring? && p in s'.procs && s'.procs[p].Expiring?
    ensures s.procs[p].Rechecking? && s.lock == s'.lock == Some(p)
    ensures s'.entries == s.entries && s'.access == s.access && s'.procs[p].keys != []
    ensures var k := s'.procs[p].keys[0];
            k in s.entries && s.entries[k] in s.access && s.access[s.entries[k]] < s'.procs[p].cutoff
  {
    ReachableSatisfiesInv(s);
    WhereDeletesStart(s, p, choice, s');
    assert Holds(s.procs[p]) && s.lock == Some(p);
    hide Inv, Reachable, Step;
  }

  lemma WhereDeletesStart(s: Pool, p: Pid, choice: Choice, s': Pool)
    requires p in s.procs && Step(s, p, choice) == Some(s') && p in s'.procs && s'.procs[p].Expiring?
    ensures s.procs[p].Rechecking?
    ensures RecheckingStep(s, p, s.procs[p].keys, s.procs[p].cutoff, s.procs[p].evicted) == Some(s')
  {
    StepEffect(s, p, choice, s');
    hide ScanningStep, EvictingStep, BuildingStep, InCreateStep;
  }

  ghost predicate JustRechecked(r: Pool, p: Pid) {
    exists s, choice ::
      && Reachable(s) && p in s.procs && !s.procs[p].Expiring? && Step(s, p, choice) == Some(r)
      && p in r.procs && r.procs[p].Expiring?
  }

  /** `p` takes no step. */
  predicate Waits(es: seq<Event>, p: Pid) {
    forall e <- es :: e.p != p
  }

  // Between the re-check and the delete

  lemma OthersLeaveItAlone(s: Pool, p: Pid, e: Event, s': Pool)
    requires Inv(s) && p in s.procs && s.procs[p].Expiring? && e.p != p && Apply(s, e) == Some(s')
    ensures p in s'.procs && s'.procs[p] == s.procs[p] && s'.entries == s.entries && s'.lock == s.lock == Some(p)
  {
    assert s.lock == Some(p);
    if e.Run? {
      assert !Holds(s.procs[e.p]);
      StepGood(s, e.p, e.choice, s');
      hide Step, Inv;
    }
  }

  /** Until the scan moves again, no run takes the entry from it, or changes any other. */
  lemma {:induction false} NothingMovesMeanwhile(r: Pool, p: Pid, es: seq<Event>, s: Pool)
    requires Inv(r) && p in r.procs && r.procs[p].Expiring? && Waits(es, p) && Exec(r, es) == Some(s)
    ensures p in s.procs && s.procs[p] == r.procs[p] && s.entries == r.entries && s.lock == Some(p)
    decreases |es|
  {
    if es == [] {
      assert r.lock == Some(p);
    } else {
      hide Inv, Apply;
      var next := Apply(r, es[0]).value;
      assert es[0] in es && forall e <- es[1..] :: e in es;
      OthersLeaveItAlone(r, p, es[0], next);
      ApplyKeepsInv(r, es[0], next);
      NothingMovesMeanwhile(next, p, es[1..], s);
    }
  }

  // When an entry was last used

  /** A hit, with or without the lock, stores the time of use. */
  predicate Refreshes(s: Pool, e: Event, entry: Entry) {
    e.Run? && e.p in s.procs && e.choice.At? &&
    var pc := s.procs[e.p];
    || (pc.Touch? && pc.entry == entry)
    || (pc.InCreate? && pc.key in s.entries && s.entries[pc.key] == entry)
  }

  /** The time the last hit in a run stored for `entry`. */
  function LastRefresh(r: Pool, es: seq<Event>, entry: Entry): Option<int> {
    if es == [] then None
    else
      var n := |es| - 1;
      var before := Exec(r, es[..n]);
      if before.Some? && Refreshes(before.value, es[n], entry) then Some(es[n].choice.time)
      else LastRefresh(r, es[..n], entry)
  }

  lemma {:induction false} ExecFront(r: Pool, es: seq<Event>, s: Pool) returns (m: Pool)
    requires Exec(r, es) == Some(s) && es != []
    ensures Exec(r, es[..|es| - 1]) == Some(m) && Apply(m, es[|es| - 1]) == Some(s)
    decreases |es|
  {
    hide Apply;
    var next := Apply(r, es[0]).value;
    if |es| == 1 {
      m := r;
      assert es[..0] == [] && es[1..] == [] && Exec(next, []) == Some(next);
    } else {
      m := ExecFront(next, es[1..], s);
      assert es[..|es| - 1][1..] == es[1..][..|es| - 2] && es[..|es| - 1][0] == es[0];
    }
  }

  lemma StepRefreshes(s: Pool, e: Event, s': Pool, entry: Entry)
    requires Apply(s, e) == Some(s') && entry in s.access && entry < s.next
    ensures entry in s'.access && entry < s'.next
    ensures s'.access[entry] == if Refreshes(s, e, entry) then e.choice.time else s.access[entry]
  {
    if e.Run? {
      StepEffect(s, e.p, e.choice, s');
      hide Step;
    }
  }

  /** Nothing but hits changes when an entry was last used. */
  lemma {:induction false} AccessIsLastRefresh(r: Pool, es: seq<Event>, s: Pool, entry: Entry)
    requires Exec(r, es) == Some(s) && entry in r.access && entry < r.next
    ensures entry in s.access && entry < s.next && s.access[entry] == LastRefresh(r, es, entry).GetOr(r.access[entry])
    decreases |es|
  {
    if es != [] {
      hide Apply, Refreshes;
      var m := ExecFront(r, es, s);
      AccessIsLastRefresh(r, es[..|es| - 1], m, entry);
      StepRefreshes(m, es[|es| - 1], s, entry);
    }
  }

  // From the delete back to its re-check

  lemma {:induction false} ExecSnoc(s: Pool, es: seq<Event>, e: Event, s1: Pool, s2: Pool)
    requires Exec(s, es) == Some(s1) && Apply(s1, e) == Some(s2)
    ensures Exec(s, es + [e]) == Some(s2)
    decreases |es|
  {
    hide Apply;
    if es == [] {
      assert Exec(s2, []) == Some(s2);
      assert ([] + [e])[1..] == [];
    } else {
      assert (es + [e])[1..] == es[1..] + [e];
      ExecSnoc(Apply(s, es[0]).value, es[1..], e, s1, s2);
    }
  }

  lemma Next(s: Pool, e: Event, s': Pool)
    requires Reachable(s) && Apply(s, e) == Some(s')
    ensures Reachable(s')
  {
    hide Apply, Exec;
    var es :| Exec(INIT, es) == Some(s);
    ExecSnoc(INIT, es, e, s, s');
  }

  lemma BeforeLast(s: Pool, p: Pid, e: Event, m: Pool)
    requires Inv(m) && Apply(m, e) == Some(s) && p in s.procs && s.procs[p].Expiring?
    ensures e.p != p ==> p in m.procs && m.procs[p] == s.procs[p]
    ensures e.p == p ==> e.Run? && p in m.procs && m.procs[p].Rechecking? && Step(m, p, e.choice) == Some(s)
  {
    if e.Run? {
      StepGood(m, e.p, e.choice, s);
      StepEffect(m, e.p, e.choice, s);
      hide Step, Inv;
    }
  }

  lemma {:induction false} FindRecheck(run: seq<Event>, s: Pool, p: Pid) returns (r: Pool, es: seq<Event>)
    requires Exec(INIT, run) == Some(s) && p in s.procs && s.procs[p].Expiring?
    ensures JustRechecked(r, p) && Waits(es, p) && Exec(r, es) == Some(s)
    decreases |run|
  {
    assert run != [];
    var n := |run| - 1;
    var m := ExecFront(INIT, run, s);
    assert Reachable(m);
    ReachableSatisfiesInv(m);
    BeforeLast(s, p, run[n], m);
    hide Inv, Reachable, Apply, Step;
    if run[n].p == p {
      r, es := s, [];
      assert JustRechecked(r, p);
      assert Exec(s, []) == Some(s);
    } else {
      var before;
      r, before := FindRecheck(run[..n], m, p);
      es := before + [run[n]];
      ExecSnoc(r, before, run[n], m, s);
      hide Exec, JustRechecked;
    }
  }

  /** Every delete of the TTL scan, under the lock, goes back to a re-check of the same entry under the same
      lock that saw it last used before the cutoff. At the delete it is fresh if and only if a hit in between
      stored a time at or after the cutoff: the re-check catches refreshes before it, and none after. */
  lemma ScanDeletesOnlyStale(s: Pool, p: Pid, s': Pool) returns (r: Pool, es: seq<Event>)
    requires Reachable(s) && p in s.procs && s.procs[p].Expiring? && Step(s, p, Go) == Some(s')
    ensures JustRechecked(r, p) && Waits(es, p) && Exec(r, es) == Some(s) && s.lock == Some(p)
    ensures s.procs[p].keys != [] && s.procs[p].keys[0] in s.entries
    ensures var k, cutoff := s.procs[p].keys[0], s.procs[p].cutoff;
            var e := s.entries[k];
            && s'.entries == s.entries - {k}
            && k in r.entries && r.entries[k] == e && e in r.access && r.access[e] < cutoff && e in s.access
            && (s.access[e] >= cutoff <==> LastRefresh(r, es, e).Some? && LastRefresh(r, es, e).value >= cutoff)
  {
    assert s'.entries == s.entries - {s.procs[p].keys[0]};
    var run :| Exec(INIT, run) == Some(s);
    r, es := FindRecheck(run, s, p);
    hide Exec, Step;
    var k := RecheckedEntry(r, p);
    NothingMovesMeanwhile(r, p, es, s);
    AccessIsLastRefresh(r, es, s, r.entries[k]);
  }

  lemma RecheckedEntry(r: Pool, p: Pid) returns (k: Key)
    requires JustRechecked(r, p)
    ensures Inv(r) && p in r.procs && r.procs[p].Expiring? && r.procs[p].keys != [] && k == r.procs[p].keys[0]
    ensures k in r.entries && r.entries[k] in r.access && r.entries[k] < r.next
    ensures r.access[r.entries[k]] < r.procs[p].cutoff
  {
    hide Step, Inv, Reachable;
    var s, choice :| Reachable(s) && p in s.procs && !s.procs[p].Expiring? && Step(s, p, choice) == Some(r)
                     && p in r.procs && r.procs[p].Expiring?;
    RecheckSeesStale(s, p, choice, r);
    Next(s, Run(p, choice), r);
    ReachableSatisfiesInv(r);
    k := r.procs[p].keys[0];
    assert EntriesFit(r) by { InvHasEntries(r); }
  }

  lemma InvHasEntries(s: Pool)
    requires Inv(s)
    ensures EntriesFit(s)
  {
  }

  // The window is real

  /** From any reachable state with the lock free and a stale entry pooled, a hit that stores the time `now`
      can fall between re-check and delete: the entry is then deleted although it was just used. */
  lemma FreshEntryCanBeDeleted(s: Pool, k: Key, p: Pid, q: Pid, cutoff: int, now: int) returns (s1: Pool, s2: Pool)
    requires Reachable(s) && s.lock == None && k in s.entries && s.entries[k] in s.access
    requires p !in s.procs && q !in s.procs && p != q && s.access[s.entries[k]] < cutoff <= now
    ensures Reachable(s1) && s1.entries == s.entries && s1.access == s.access[s.entries[k] := now]
    ensures p in s1.procs && s1.procs[p] == Expiring([k], cutoff, 0) && Step(s1, p, Go) == Some(s2)
    ensures s2.entries == s.entries - {k} && q in s2.procs && s2.procs[q] == Served(k, s.entries[k])
  {
    hide Reachable;
    var e := s.entries[k];
    var a := Goto(s, p, WantScan([k], cutoff));
    Next(s, Arrive(p, WantScan([k], cutoff)), a);
    var b := Goto(a, p, Rechecking([k], cutoff, 0)).(lock := Some(p));
    Next(a, Run(p, Go), b);
    var c := Goto(b, p, Expiring([k], cutoff, 0));
    Next(b, Run(p, Go), c);
    s1 := HitNow(c, q, k, now);
    s2 := ExpiringStep(s1, p, [k], cutoff, 0).value;
  }

  lemma HitNow(s: Pool, q: Pid, k: Key, now: int) returns (s': Pool)
    requires Reachable(s) && q !in s.procs && k in s.entries
    ensures Reachable(s') && s'.procs == s.procs[q := Served(k, s.entries[k])]
    ensures s'.entries == s.entries && s'.access == s.access[s.entries[k] := now] && s'.lock == s.lock
  {
    hide Reachable;
    var e := s.entries[k];
    var a := Goto(s, q, Lookup(k));
    Next(s, Arrive(q, Lookup(k)), a);
    var b := Goto(a.(given := a.given[k := e]), q, Touch(k, e));
    Next(a, Run(q, Go), b);
    s' := Goto(b.(access := b.access[e := now]), q, Served(k, e));
    Next(b, Run(q, At(now)), s');
  }
}
