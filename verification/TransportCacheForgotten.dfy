/** What the second half of a late drop does to the transport that replaced the dropped one. */
module TransportCacheForgotten {
  import opened Wrappers
  import opened TransportCache
  import opened TransportCacheSafety
  import opened TransportCacheTheorems
  import opened TransportCacheRuns
  import opened RoundTripper

  /** A reconnect begun by the cached transport that negotiates the transport's own kind is refused
      exactly when no kind is recorded at its comparison; otherwise it gets its connection. */
  lemma OwnKindRefusedIffForgotten(s: World, p: Pid, t: Transport, s': World)
    requires Reachable(s) && p in s.procs && s.procs[p].pc == DialInKinds(t, true, t.kind) && t.addr !in s.h.plain
    requires Step(s, p, Go) == Some(s')
    ensures s'.procs[p].pc == if t.addr in s.c.kinds then DialGot(t, true, t.kind) else DialFailed(t)
    ensures t in s'.h.failed <==> t in s.h.failed || t.addr !in s.c.kinds
  {
    ReachableSatisfiesInv(s);
    assert Knows(s, s.procs[p]);
    StepAt(s, p, Go);
    hide Step, Inv, Shared, RegionOf, Reachable;
  }

  /** The first half of a drop is done: no transport is cached, and the kind of the dropped one is still
      recorded. */
  lemma HalfDropped(a: Addr) returns (s: World)
    ensures Reached(s, [Http1, Http2]) && Idle(s) && s.c == Caches(map[], map[a := Http1], map[], 1)
    ensures s.h.plain == {} && s.h.storing == None && s.h.failed == {Transport(0, a, Http1)}
    ensures s.procs.Keys == {0, 1, 2} && s.procs[0] == Proc(a, Https, Plain, DropWantKinds)
    ensures s.procs[1].addr == s.procs[2].addr == a && s.procs[1].pc.DialGot? && s.procs[2].pc.DialFailed?
  {
    hide Reached;
    var first := Transport(0, a, Http1);
    StartIsReached();
    assert [] + [Http1] == [Http1] && [Http1] + [Http2] == [Http1, Http2];
    var s1 := RunSetUp(INIT, [], 0, a, Http1);
    var s2 := RunTakeStash(s1, [Http1], 1, first);
    var s3 := RunRefused(s2, [Http1], 2, first, Http2);
    s := RunDropTransport(s3, [Http1, Http2], 0, first);
    assert s.c.transports == map[] && s.c.stash == map[];
  }

  /** All locks are free, a transport is cached and its connection stashed, and no kind is recorded for
      it: a drop of the transport before it took its time. */
  lemma ReplacementIsForgotten(a: Addr) returns (s: World, t: Transport)
    ensures Reached(s, [Http1, Http2, Http2]) && Idle(s) && t == Transport(1, a, Http2)
    ensures s.c == Caches(map[ByAddr(a) := t], map[], map[a := Http2], 2) && s.h.plain == {} && s.h.storing == None
    ensures t in s.h.issued && t !in s.h.failed && s.procs.Keys == {0, 1, 2, 3}
    ensures forall p <- s.procs :: s.procs[p].addr == a
    ensures s.procs[0].pc == Done(Failure(ProtocolChanged)) && s.procs[3] == Proc(a, Https, Plain, Flight(t))
    ensures s.procs[1].pc.DialGot? && s.procs[2].pc.DialFailed?
  {
    hide Reached;
    t := Transport(1, a, Http2);
    var s1 := HalfDropped(a);
    assert [Http1, Http2] + [Http2] == [Http1, Http2, Http2];
    var s2 := RunSetUp(s1, [Http1, Http2], 3, a, Http2);
    assert s2.c.kinds == map[a := Http2];
    s := RunDropKind(s2, [Http1, Http2, Http2], 0);
    assert s.c.kinds == map[];
  }

  /** The bound of `Serve` needs its requests one after the other: here the server changes kind once, and
      two requests fail with errProtocolChanged, the second by a dial that negotiated the kind of its own
      cached transport. */
  lemma TwoFailuresForOneChange(a: Addr) returns (s: World, hs: seq<Kind>)
    ensures Reached(s, hs) && Changes(hs) == 1 && s.h.plain == {} && forall p <- s.procs :: s.procs[p].addr == a
    ensures |set p | p in s.procs && s.procs[p].pc == Done(Failure(ProtocolChanged))| == 2
  {
    hide Reached;
    hs := [Http1, Http2, Http2, Http2];
    assert [Http1, Http2, Http2] + [Http2] == hs;
    var s1, t := ReplacementIsForgotten(a);
    var s2 := RunTakeStash(s1, [Http1, Http2, Http2], 4, t);
    var s3 := RunRefused(s2, [Http1, Http2, Http2], 5, t, Http2);
    s := RunDrop(s3, hs, 3, t);
    OneChange();
    assert (set p | p in s.procs && s.procs[p].pc == Done(Failure(ProtocolChanged))) == {0, 3};
  }

  lemma OneChange()
    ensures Changes([Http1, Http2, Http2, Http2]) == 1
  {
    var hs := [Http1, Http2, Http2, Http2];
    assert hs[..3] == [Http1, Http2, Http2] && hs[..3][..2] == [Http1, Http2] && [Http1, Http2][..1] == [Http1];
    assert Changes([Http1]) == 0;
    assert Changes([Http1, Http2]) == 1;
    assert Changes([Http1, Http2, Http2]) == 1;
  }
}
