/** The guarantees the comments of the round tripper promise, as facts about every run. */
module TransportCacheTheorems {
  import opened Wrappers
  import opened TransportCache
  import opened TransportCacheSafety

  ghost predicate Reachable(s: World) {
    exists es :: Exec(INIT, es) == Some(s)
  }

  lemma ReachableSatisfiesInv(s: World)
    requires Reachable(s)
    ensures Inv(s)
  {
    var es :| Exec(INIT, es) == Some(s);
    ReachableInv(INIT, es, s);
  }

  /** No interleaving reaches the panic in getTransport: a set-up dial never finds a stashed
      connection, and every stashed connection fits the transport cached at its address. */
  lemma PanicIsUnreachable(s: World)
    requires Reachable(s)
    ensures forall p <- s.procs :: !s.procs[p].pc.Panicked?
    ensures forall p <- s.procs | s.procs[p].pc.InSetup? :: s.procs[p].addr !in s.c.stash
    ensures forall a <- s.c.stash ::
              ByAddr(a) in s.c.transports && s.c.transports[ByAddr(a)].kind == s.c.stash[a]
  {
    ReachableSatisfiesInv(s);
    forall p <- s.procs ensures Knows(s, s.procs[p]) {}
  }

  lemma NoStoreWithoutTransportsLck(s: World)
    requires Inv(s) && s.locks.transports == None
    ensures s.h.storing == None
  {
    if s.locks.embedded.Some? {
      var p := s.locks.Owner(Embedded).value;
      assert Holds(s.procs[p].pc, Embedded);
      assert Holds(s.procs[p].pc, TransportsLck) <==> s.locks.Owner(TransportsLck) == Some(p);
      assert Knows(s, s.procs[p]);
    }
  }

  /** Whenever nobody holds cachedTransportsLck, a recorded kind is the kind of the cached transport,
      at every address that was only requested over https. */
  lemma RecordedKindIsCachedKind(s: World, a: Addr)
    requires Reachable(s) && s.locks.transports == None && a !in s.h.plain
    requires a in s.c.kinds && ByAddr(a) in s.c.transports
    ensures s.c.kinds[a] == s.c.transports[ByAddr(a)].kind
  {
    ReachableSatisfiesInv(s);
    NoStoreWithoutTransportsLck(s);
  }

  /** No two goroutines hold one lock, and a step that changes a shared map is taken by the goroutine
      that holds the lock guarding it. */
  lemma WritesAreGuarded(s: World, p: Pid, choice: Choice, s': World)
    requires Reachable(s) && p in s.procs && Step(s, p, choice) == Some(s')
    ensures s'.c.transports != s.c.transports ==> s.locks.transports == Some(p)
    ensures s'.c.stash != s.c.stash ==> s.locks.embedded == Some(p)
    ensures s'.c.kinds != s.c.kinds ==> s.locks.kinds == Some(p)
    ensures s'.protocols != s.protocols ==> s.locks.protocol == Some(p)
    ensures forall q <- s.procs, l: Lock | q != p :: !(Holds(s.procs[p].pc, l) && Holds(s.procs[q].pc, l))
  {
    hide Step, Shared, Knows;
    ReachableSatisfiesInv(s);
    StepGood(s, p, choice, s');
    var r := RegionOf(s.procs[p].pc);
    assert forall l: Lock :: r.Holds(l) <==> s.locks.Owner(l) == Some(p);
    assert s.locks.Owner(TransportsLck) == s.locks.transports && s.locks.Owner(Embedded) == s.locks.embedded;
    assert s.locks.Owner(KindsLck) == s.locks.kinds && s.locks.Owner(ProtocolMu) == s.locks.protocol;
    forall q <- s.procs, l: Lock | q != p ensures !(r.Holds(l) && Holds(s.procs[q].pc, l)) {
      assert Holds(s.procs[q].pc, l) <==> s.locks.Owner(l) == Some(q);
    }
  }
}
