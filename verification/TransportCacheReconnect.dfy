/** Exactly which reconnect dials can hand a transport a connection it does not speak. */
module TransportCacheReconnect {
  import opened Wrappers
  import opened TransportCache
  import opened TransportCacheSafety
  import opened TransportCacheRuns
  import opened TransportCacheTheorems

  /** Another goroutine's drop is about to delete the kind recorded for `a`. */
  ghost predicate BeingForgotten(s: World, a: Addr) {
    s.locks.kinds.Some? && s.locks.kinds.value in s.procs &&
    s.procs[s.locks.kinds.value].pc.DropInKinds? && s.procs[s.locks.kinds.value].addr == a
  }

  ghost predicate WrongKindRecorded(s: World, t: Transport) {
    t.addr in s.c.kinds && s.c.kinds[t.addr] != t.kind && !BeingForgotten(s, t.addr)
  }

  /** What a dial by `t` can see when it takes the embedded mutex and that makes it go wrong. */
  ghost predicate Misled(s: World, t: Transport) {
    if t.addr in s.c.stash then s.c.stash[t.addr] != t.kind else WrongKindRecorded(s, t)
  }

  /** The dial `p` of `t` is under way and has not been misled. */
  ghost predicate OnCourse(s: World, p: Pid, t: Transport) {
    p in s.procs && s.procs[p].addr == t.addr &&
    match s.procs[p].pc
    case DialInEmbedded(u, _) => u == t && !Misled(s, t)
    case DialWantKinds(u, _, _) => u == t && !WrongKindRecorded(s, t)
    case DialInKinds(u, _, _) => u == t && !WrongKindRecorded(s, t)
    case DialGot(u, _, kind) => u == t && kind == t.kind
    case DialFailed(u) => u == t
    case _ => false
  }

  lemma FirstStepStaysOnCourse(s: World, p: Pid, t: Transport, own: bool, choice: Choice, s': World)
    requires OnCourse(s, p, t) && s.procs[p].pc == DialInEmbedded(t, own)
    requires DialInEmbeddedStep(s, p, t, own, choice) == Some(s')
    ensures OnCourse(s', p, t)
  {
    hide RegionOf;
  }

  lemma LastStepStaysOnCourse(s: World, p: Pid, t: Transport, own: bool, kind: Kind, s': World)
    requires OnCourse(s, p, t) && s.procs[p].pc == DialInKinds(t, own, kind)
    requires DialInKindsStep(s, p, t, own, kind) == Some(s')
    requires s.locks.Owner(KindsLck) == Some(p)
    ensures OnCourse(s', p, t)
  {
    hide RegionOf;
  }

  lemma MiddleStepStaysOnCourse(s: World, p: Pid, t: Transport, own: bool, kind: Kind, s': World)
    requires OnCourse(s, p, t) && s.procs[p].pc == DialWantKinds(t, own, kind)
    requires AcquireStep(s, p, KindsLck) == Some(s')
    ensures OnCourse(s', p, t)
  {
    hide RegionOf;
  }

  lemma OwnStepStaysOnCourse(s: World, p: Pid, t: Transport, choice: Choice, s': World)
    requires Inv(s) && OnCourse(s, p, t) && Step(s, p, choice) == Some(s')
    ensures OnCourse(s', p, t)
  {
    assert Holds(s.procs[p].pc, KindsLck) <==> s.locks.Owner(KindsLck) == Some(p);
    hide Inv, Misled, WrongKindRecorded, DialInEmbeddedStep, DialInKindsStep, AcquireStep;
    match s.procs[p].pc
    case DialInEmbedded(_, own) => FirstStepStaysOnCourse(s, p, t, own, choice, s');
    case DialWantKinds(_, own, kind) => MiddleStepStaysOnCourse(s, p, t, own, kind, s');
    case DialInKinds(_, own, kind) => LastStepStaysOnCourse(s, p, t, own, kind, s');
    case _ =>
  }

  lemma DropStep(s: World, q: Pid, choice: Choice, s': World)
    requires q in s.procs && s.procs[q].pc.DropInKinds? && Step(s, q, choice) == Some(s')
    ensures s'.c == s.c.DropKind(s.procs[q].addr)
  {
    hide RegionOf;
  }

  lemma OtherStepStaysOnCourse(s: World, p: Pid, t: Transport, q: Pid, choice: Choice, s': World)
    requires Inv(s) && OnCourse(s, p, t) && q in s.procs && q != p && Step(s, q, choice) == Some(s')
    ensures OnCourse(s', p, t)
  {
    hide Step, Knows, Shared;
    StepGood(s, q, choice, s');
    var r := RegionOf(s.procs[q].pc);
    assert Holds(s.procs[p].pc, Embedded) <==> s.locks.Owner(Embedded) == Some(p);
    assert Holds(s.procs[q].pc, Embedded) <==> s.locks.Owner(Embedded) == Some(q);
    if Holds(s.procs[p].pc, Embedded) && BeingForgotten(s, t.addr) {
      var f := s.locks.kinds.value;
      if f == q {
        DropStep(s, q, choice, s');
      } else {
        assert s'.procs[f] == s.procs[f];
        assert Holds(s.procs[f].pc, KindsLck) && s.locks.Owner(KindsLck) == Some(f);
        assert Holds(s.procs[q].pc, KindsLck) <==> s.locks.Owner(KindsLck) == Some(q);
        assert s'.locks.Owner(KindsLck) == Some(f);
      }
    }
  }

  lemma {:induction false} RunStaysOnCourse(s: World, p: Pid, t: Transport, es: seq<Event>, s': World)
    requires Inv(s) && OnCourse(s, p, t) && Exec(s, es) == Some(s')
    ensures OnCourse(s', p, t)
    decreases |es|
  {
    if es != [] {
      hide Inv, Step, Misled, WrongKindRecorded;
      var next := Apply(s, es[0]).value;
      ApplyKeepsInv(s, es[0], next);
      match es[0] {
      case Run(q, choice) =>
        if q == p {
          OwnStepStaysOnCourse(s, p, t, choice, next);
        } else {
          OtherStepStaysOnCourse(s, p, t, q, choice, next);
        }
      case Arrive(q, _, _, _) => NewcomerStaysOnCourse(s, p, t, q, next);
      case Dial(q, _) => NewcomerStaysOnCourse(s, p, t, q, next);
      }
      RunStaysOnCourse(next, p, t, es[1..], s');
    }
  }

  lemma NewcomerStaysOnCourse(s: World, p: Pid, t: Transport, q: Pid, s': World)
    requires Inv(s) && OnCourse(s, p, t) && q !in s.procs && q in s'.procs
    requires s' == s.(procs := s.procs[q := s'.procs[q]])
    ensures OnCourse(s', p, t)
  {
    if s.locks.kinds.Some? {
      assert s.locks.Owner(KindsLck).value in s.procs;
    }
  }

  /** Some run from `s` ends with the dial `p` of `t` returning a connection of another kind. */
  ghost predicate CanGoWrong(s: World, p: Pid, t: Transport) {
    exists es, s' ::
      && Exec(s, es) == Some(s') && p in s'.procs
      && s'.procs[p].pc.DialGot? && s'.procs[p].pc.kind != t.kind
  }

  lemma WrongStash(s: World, p: Pid, t: Transport, own: bool)
    requires p in s.procs && s.procs[p].addr == t.addr && s.procs[p].pc == DialInEmbedded(t, own)
    requires t.addr in s.c.stash && s.c.stash[t.addr] != t.kind
    ensures CanGoWrong(s, p, t)
  {
    hide RegionOf, Shared, Inv;
    var es := [Run(p, Go)];
    var s' := DialInEmbeddedStep(s, p, t, own, Go).value;
    assert Apply(s, es[0]) == Some(s') && Exec(s', es[1..]) == Some(s');
    assert Exec(s, es) == Some(s');
  }

  lemma ThreeEvents(s: World, e1: Event, e2: Event, e3: Event, s1: World, s2: World, s3: World)
    requires Apply(s, e1) == Some(s1) && Apply(s1, e2) == Some(s2) && Apply(s2, e3) == Some(s3)
    ensures Exec(s, [e1, e2, e3]) == Some(s3)
  {
    hide Apply;
    var es := [e1, e2, e3];
    assert es[1..][0] == e2 && es[2..][0] == e3 && es[1..][1..] == es[2..] && es[2..][1..] == [];
    assert Exec(s3, []) == Some(s3) && Exec(s2, es[2..]) == Some(s3) && Exec(s1, es[1..]) == Some(s3);
  }

  lemma WrongCompare(s: World, p: Pid, t: Transport, own: bool, kind: Kind) returns (s1: World, s2: World)
    requires p in s.procs && s.procs[p].addr == t.addr && s.procs[p].pc == DialWantKinds(t, own, kind)
    requires t.addr in s.c.kinds && s.c.kinds[t.addr] == kind && s.locks.kinds == None
    ensures Apply(s, Run(p, Go)) == Some(s1) && Apply(s1, Run(p, Go)) == Some(s2)
    ensures p in s2.procs && s2.procs[p].pc == DialGot(t, own, kind)
  {
    hide RegionOf;
    s1 := AcquireStep(s, p, KindsLck).value;
    s2 := DialInKindsStep(s1, p, t, own, kind).value;
  }

  lemma Negotiates(s: World, p: Pid, t: Transport, own: bool, kind: Kind) returns (s1: World)
    requires p in s.procs && s.procs[p].addr == t.addr && s.procs[p].pc == DialInEmbedded(t, own)
    requires t.addr !in s.c.stash && s.locks.kinds == None
    ensures Apply(s, Run(p, Handshake(kind, true))) == Some(s1) && s1.c == s.c && s1.locks.kinds == None
    ensures p in s1.procs && s1.procs[p] == s.procs[p].(pc := DialWantKinds(t, own, kind))
  {
    hide RegionOf;
    s1 := DialInEmbeddedStep(s, p, t, own, Handshake(kind, true)).value;
  }

  lemma WrongKind(s: World, p: Pid, t: Transport, own: bool)
    requires p in s.procs && s.procs[p].addr == t.addr && s.procs[p].pc == DialInEmbedded(t, own)
    requires t.addr !in s.c.stash && t.addr in s.c.kinds && s.c.kinds[t.addr] != t.kind && s.locks.kinds == None
    ensures CanGoWrong(s, p, t)
  {
    hide Apply, Exec;
    var kind := s.c.kinds[t.addr];
    var s1 := Negotiates(s, p, t, own, kind);
    var s2, s3 := WrongCompare(s1, p, t, own, kind);
    ThreeEvents(s, Run(p, Handshake(kind, true)), Run(p, Go), Run(p, Go), s1, s2, s3);
  }

  lemma EventBefore(s: World, e: Event, next: World, p: Pid, t: Transport)
    requires Apply(s, e) == Some(next) && CanGoWrong(next, p, t)
    ensures CanGoWrong(s, p, t)
  {
    hide Apply;
    var es, s' :| Exec(next, es) == Some(s') && p in s'.procs
                  && s'.procs[p].pc.DialGot? && s'.procs[p].pc.kind != t.kind;
    assert ([e] + es)[1..] == es && ([e] + es)[0] == e;
    assert Exec(s, [e] + es) == Some(s');
  }

  /** While the dial `p` holds the embedded mutex, only a drop can hold cachedKindsLck. */
  lemma OnlyADropHoldsKinds(s: World, p: Pid, q: Pid)
    requires LocksOwned(s) && p in s.procs && s.procs[p].pc.DialInEmbedded? && s.locks.kinds == Some(q)
    ensures q in s.procs && s.procs[q].pc.DropInKinds?
  {
    assert s.locks.Owner(KindsLck) == Some(q);
    assert Holds(s.procs[q].pc, KindsLck);
    assert Holds(s.procs[p].pc, Embedded) && s.locks.Owner(Embedded) == Some(p);
    assert Holds(s.procs[q].pc, Embedded) <==> s.locks.Owner(Embedded) == Some(q);
  }

  lemma WrongKindLater(s: World, p: Pid, t: Transport, own: bool)
    requires Inv(s) && p in s.procs && s.procs[p].addr == t.addr && s.procs[p].pc == DialInEmbedded(t, own)
    requires t.addr !in s.c.stash && WrongKindRecorded(s, t)
    ensures CanGoWrong(s, p, t)
  {
    if s.locks.kinds == None {
      WrongKind(s, p, t, own);
    } else {
      var q := s.locks.kinds.value;
      OnlyADropHoldsKinds(s, p, q);
      StepAt(s, q, Go);
      hide Inv, Step, RegionOf, CanGoWrong;
      var next := DropInKindsStep(s, q).value;
      WrongKind(next, p, t, own);
      EventBefore(s, Run(q, Go), next, p, t);
    }
  }

  /** The exact condition: a reconnect can end with a connection of a kind its transport does not speak
      if and only if it was misled when it took the embedded mutex. */
  lemma ReconnectGoesWrongIffMisled(s: World, p: Pid, t: Transport, own: bool)
    requires Reachable(s) && p in s.procs && s.procs[p].pc == DialInEmbedded(t, own)
    ensures CanGoWrong(s, p, t) <==> Misled(s, t)
  {
    ReachableSatisfiesInv(s);
    assert Knows(s, s.procs[p]);
    if Misled(s, t) {
      if t.addr in s.c.stash { WrongStash(s, p, t, own); } else { WrongKindLater(s, p, t, own); }
    } else {
      OnCourseGoesRight(s, p, t);
    }
  }

  lemma OnCourseGoesRight(s: World, p: Pid, t: Transport)
    requires Inv(s) && OnCourse(s, p, t)
    ensures !CanGoWrong(s, p, t)
  {
    hide Inv, Exec;
    if CanGoWrong(s, p, t) {
      var es, s' :| Exec(s, es) == Some(s') && p in s'.procs
                    && s'.procs[p].pc.DialGot? && s'.procs[p].pc.kind != t.kind;
      RunStaysOnCourse(s, p, t, es, s');
    }
  }

  /** A reconnect begun by the transport that is cached at that moment never goes wrong, even when a
      drop by another goroutine is half done, as long as the address was only requested over https. */
  lemma CachedTransportReconnectsRight(s: World, p: Pid, t: Transport, s': World)
    requires Reachable(s) && p in s.procs && s.procs[p].pc == DialWantEmbedded(t)
    requires s.c.IsCached(t) && t.addr !in s.h.plain
    requires Step(s, p, Go) == Some(s')
    ensures s'.procs[p].pc == DialInEmbedded(t, true) && !CanGoWrong(s', p, t)
  {
    ReachableSatisfiesInv(s);
    StepAt(s, p, Go);
    StepKeepsInv(s, p, Go, s');
    assert Knows(s', s'.procs[p]);
    hide Step, CanGoWrong, Reachable, RegionOf;
    OnCourseGoesRight(s', p, t);
  }

  // A run in which a transport that was dropped while in flight takes its successor's connection

  /** A transport that a request still knows after it was dropped from the cache. */
  lemma DroppedInFlight(a: Addr) returns (s: World, t: Transport)
    ensures Reached(s, [Http1, Http2]) && Idle(s) && t == Transport(0, a, Http1) && t in s.h.issued
    ensures s.h.storing == None
    ensures s.c == Caches(map[], map[], map[], 1) && s.procs.Keys == {0, 1, 2}
  {
    hide Reached;
    t := Transport(0, a, Http1);
    StartIsReached();
    assert [] + [Http1] == [Http1] && [Http1] + [Http2] == [Http1, Http2];
    var s1 := RunSetUp(INIT, [], 0, a, Http1);
    var s2 := RunTakeStash(s1, [Http1], 1, t);
    var s3 := RunRefused(s2, [Http1], 2, t, Http2);
    s := RunDrop(s3, [Http1, Http2], 0, t);
    assert s.c.transports == map[] && s.c.kinds == map[] && s.c.stash == map[];
  }

  /** The condition in `CachedTransportReconnectsRight` is needed: an HTTP/1 transport that was dropped
      while in flight can be handed the HTTP/2 connection of the transport that replaced it. */
  lemma StaleTransportCanGoWrong(a: Addr) returns (s: World, d: Pid, t: Transport)
    ensures Reachable(s) && d in s.procs && s.procs[d].pc == DialInEmbedded(t, false)
    ensures t == Transport(0, a, Http1) && !s.c.IsCached(t) && CanGoWrong(s, d, t)
  {
    hide Reached, Reachable, CanGoWrong;
    var s1;
    s1, t := DroppedInFlight(a);
    assert [Http1, Http2] + [Http2] == [Http1, Http2, Http2];
    var s2 := RunSetUp(s1, [Http1, Http2], 3, a, Http2);
    d := 4;
    s := BeginDial(s2, [Http1, Http2, Http2], d, t);
    ReachedIsReachable(s, [Http1, Http2, Http2]);
    assert Misled(s, t);
    ReconnectGoesWrongIffMisled(s, d, t, false);
  }
}
