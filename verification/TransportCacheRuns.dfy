/** Runs, built one undisturbed stretch after another, with the handshakes they contain. */
module TransportCacheRuns {
  import opened Wrappers
  import opened TransportCache
  import opened TransportCacheTheorems

  /** The kinds negotiated in a run, in order. */
  function Handshakes(es: seq<Event>): seq<Kind> {
    if es == [] then []
    else
      var e := es[|es| - 1];
      Handshakes(es[..|es| - 1]) + if e.Run? && e.choice.Handshake? then [e.choice.kind] else []
  }

  /** Some run from the empty cache reaches `s`, with these handshakes. */
  ghost predicate Reached(s: World, hs: seq<Kind>) {
    exists es :: Exec(INIT, es) == Some(s) && Handshakes(es) == hs
  }

  lemma ReachedIsReachable(s: World, hs: seq<Kind>)
    requires Reached(s, hs)
    ensures Reachable(s)
  {
  }

  lemma StartIsReached()
    ensures Reached(INIT, [])
  {
    assert Exec(INIT, []) == Some(INIT) && Handshakes([]) == [];
  }

  lemma {:induction false} ExecSnoc(s: World, es: seq<Event>, e: Event, s1: World, s2: World)
    requires Exec(s, es) == Some(s1) && Apply(s1, e) == Some(s2)
    ensures Exec(s, es + [e]) == Some(s2)
    decreases |es|
  {
    hide Apply;
    if es == [] {
      assert Exec(s2, []) == Some(s2);
      assert ([] + [e])[1..] == [];
    } else {
      assert (es + [e])[1..] == es[1..] + [e];
      ExecSnoc(Apply(s, es[0]).value, es[1..], e, s1, s2);
    }
  }

  lemma Next(s: World, hs: seq<Kind>, e: Event, s': World)
    requires Reached(s, hs) && Apply(s, e) == Some(s')
    ensures Reached(s', hs + if e.Run? && e.choice.Handshake? then [e.choice.kind] else [])
  {
    hide Apply, Exec;
    var es :| Exec(INIT, es) == Some(s) && Handshakes(es) == hs;
    ExecSnoc(INIT, es, e, s, s');
    assert (es + [e])[..|es|] == es;
  }

  lemma NextStep(s: World, hs: seq<Kind>, p: Pid, choice: Choice, s': World)
    requires Reached(s, hs) && p in s.procs && Step(s, p, choice) == Some(s') && !choice.Handshake?
    ensures Reached(s', hs)
  {
    hide Step, Reached;
    Next(s, hs, Run(p, choice), s');
    assert hs + [] == hs;
  }

  lemma NextHandshake(s: World, hs: seq<Kind>, p: Pid, kind: Kind, s': World)
    requires Reached(s, hs) && p in s.procs && Step(s, p, Handshake(kind, true)) == Some(s')
    ensures Reached(s', hs + [kind])
  {
    hide Step, Reached;
    Next(s, hs, Run(p, Handshake(kind, true)), s');
  }

  /** Which section each program counter runs, for the sections these runs go through. */
  lemma StepAt(s: World, p: Pid, choice: Choice)
    requires p in s.procs
    ensures var pc := s.procs[p].pc;
            && (Wants(pc).Some? ==> Step(s, p, choice) == GoOnly(choice, AcquireStep(s, p, Wants(pc).value)))
            && (pc.InTransports? ==> Step(s, p, choice) == InTransportsStep(s, p, choice))
            && (pc.InSetup? ==> Step(s, p, choice) == InSetupStep(s, p, choice))
            && (pc.InKinds? ==> Step(s, p, choice) == GoOnly(choice, InKindsStep(s, p, pc.t)))
            && (pc.Stashing? ==> Step(s, p, choice) == GoOnly(choice, StashingStep(s, p, pc.t)))
            && (pc.Publishing? ==> Step(s, p, choice) == GoOnly(choice, PublishingStep(s, p)))
            && (pc.Flight? && choice.Reply? ==> Step(s, p, choice) == FlightStep(s, p, pc.t, choice.outcome))
            && (pc.DropInTransports? ==> Step(s, p, choice) == GoOnly(choice, DropInTransportsStep(s, p, pc.t)))
            && (pc.DropInKinds? ==> Step(s, p, choice) == GoOnly(choice, DropInKindsStep(s, p)))
            && (pc.DialInEmbedded? ==> Step(s, p, choice) == DialInEmbeddedStep(s, p, pc.t, pc.own, choice))
            && (pc.DialInKinds? ==> Step(s, p, choice) == GoOnly(choice, DialInKindsStep(s, p, pc.t, pc.own, pc.kind)))
  {
    hide InTransportsStep, InSetupStep, InKindsStep, StashingStep, PublishingStep, AbortingStep;
    hide FlightStep, DropInTransportsStep, DropInKindsStep, DialInEmbeddedStep, DialInKindsStep;
    hide LookupInStep, ClearInStep, StartingStep, WaitingStep, WinInStep, StoreInStep, SendingStep, AcquireStep;
  }

  /** `p` takes a free lock. */
  lemma NextLock(s: World, hs: seq<Kind>, p: Pid, l: Lock, s': World)
    requires Reached(s, hs) && p in s.procs && Wants(s.procs[p].pc) == Some(l) && s.locks.Owner(l) == None
    requires s' == Goto(s.(locks := s.locks.Set(l, Some(p))), p, Granted(s, s.procs[p].pc))
    ensures Reached(s', hs)
  {
    StepAt(s, p, Go);
    hide Step, Reached, Granted;
    NextStep(s, hs, p, Go, s');
  }

  ghost predicate Idle(s: World) {
    s.locks == Locks(None, None, None, None)
  }

  // A first request to an address

  lemma RunLookUp(s: World, hs: seq<Kind>, p: Pid, a: Addr) returns (s': World)
    requires Reached(s, hs) && Idle(s) && p !in s.procs && ByAddr(a) !in s.c.transports
    ensures Reached(s', hs)
    ensures s' == s.(locks := Locks(Some(p), None, None, None),
                     procs := s.procs[p := Proc(a, Https, Plain, WantEmbedded)])
  {
    hide Reached, Step, RegionOf;
    var s0 := s.(procs := s.procs[p := Proc(a, Https, Plain, WantTransports)]);
    Next(s, hs, Arrive(p, a, Https, false), s0);
    assert hs + [] == hs;
    var s1 := Goto(s0.(locks := s0.locks.Set(TransportsLck, Some(p))), p, InTransports);
    NextLock(s0, hs, p, TransportsLck, s1);
    StepAt(s1, p, Go);
    s' := Goto(s1, p, WantEmbedded);
    NextStep(s1, hs, p, Go, s');
  }

  /** The handshake is done and the transport stored. */
  lemma RunHandshake(s: World, hs: seq<Kind>, p: Pid, a: Addr, kind: Kind) returns (s': World)
    requires Reached(s, hs) && Idle(s) && p !in s.procs && ByAddr(a) !in s.c.transports && a !in s.c.stash
    ensures Reached(s', hs + [kind])
    ensures s' == s.(c := s.c.Put(ByAddr(a), kind), h := s.h.(storing := Some(a)),
                     locks := Locks(Some(p), Some(p), None, None),
                     procs := s.procs[p := Proc(a, Https, Plain, WantKinds(s.c.Built(ByAddr(a), kind)))])
  {
    hide Reached, Step, RegionOf;
    var s2 := RunLookUp(s, hs, p, a);
    var s3 := Goto(s2.(locks := s2.locks.Set(Embedded, Some(p))), p, InSetup);
    NextLock(s2, hs, p, Embedded, s3);
    StepAt(s3, p, Handshake(kind, true));
    s' := InSetupStep(s3, p, Handshake(kind, true)).value;
    NextHandshake(s3, hs, p, kind, s');
  }

  /** Then the kind is recorded. */
  lemma RunRecord(s: World, hs: seq<Kind>, p: Pid, t: Transport) returns (s': World)
    requires Reached(s, hs) && s.locks == Locks(Some(p), Some(p), None, None)
    requires p in s.procs && s.procs[p] == Proc(t.addr, Https, Plain, WantKinds(t))
    ensures Reached(s', hs)
    ensures s' == s.(c := s.c.PutKind(t.addr, t.kind), h := s.h.(storing := None),
                     procs := s.procs[p := Proc(t.addr, Https, Plain, Stashing(t))])
  {
    hide Reached, Step, RegionOf;
    var s1 := Goto(s.(locks := s.locks.Set(KindsLck, Some(p))), p, InKinds(t));
    NextLock(s, hs, p, KindsLck, s1);
    StepAt(s1, p, Go);
    s' := InKindsStep(s1, p, t).value;
    NextStep(s1, hs, p, Go, s');
  }

  /** And the connection stashed, and the transport in flight. */
  lemma RunPublish(s: World, hs: seq<Kind>, p: Pid, t: Transport) returns (s': World)
    requires Reached(s, hs) && s.locks == Locks(Some(p), Some(p), None, None)
    requires p in s.procs && s.procs[p] == Proc(t.addr, Https, Plain, Stashing(t)) && s.c.IsCached(t)
    ensures Reached(s', hs) && Idle(s')
    ensures s' == s.(c := s.c.PutStash(t.addr, t.kind), h := s.h.(issued := s.h.issued + {t}), locks := s'.locks,
                     procs := s.procs[p := Proc(t.addr, Https, Plain, Flight(t))])
  {
    hide Reached, Step, RegionOf;
    StepAt(s, p, Go);
    var s1 := StashingStep(s, p, t).value;
    NextStep(s, hs, p, Go, s1);
    StepAt(s1, p, Go);
    s' := PublishingStep(s1, p).value;
    NextStep(s1, hs, p, Go, s');
  }

  /** A first request that nobody disturbs leaves the new transport, its kind and its connection. */
  lemma RunSetUp(s: World, hs: seq<Kind>, p: Pid, a: Addr, kind: Kind) returns (s': World)
    requires Reached(s, hs) && Idle(s) && p !in s.procs && ByAddr(a) !in s.c.transports && a !in s.c.stash
    requires s.h.storing == None
    ensures Reached(s', hs + [kind]) && Idle(s')
    ensures var t := s.c.Built(ByAddr(a), kind);
            s' == s.(c := s.c.Put(ByAddr(a), kind).PutKind(a, kind).PutStash(a, kind),
                     h := s.h.(issued := s.h.issued + {t}),
                     procs := s.procs[p := Proc(a, Https, Plain, Flight(t))])
  {
    hide Reached;
    var t := s.c.Built(ByAddr(a), kind);
    var s1 := RunHandshake(s, hs, p, a, kind);
    var s2 := RunRecord(s1, hs + [kind], p, t);
    s' := RunPublish(s2, hs + [kind], p, t);
  }

  // Dials of a transport

  lemma BeginDial(s: World, hs: seq<Kind>, d: Pid, t: Transport) returns (s': World)
    requires Reached(s, hs) && Idle(s) && d !in s.procs && t in s.h.issued && t.kind != Http3
    ensures Reached(s', hs)
    ensures s' == s.(locks := s.locks.Set(Embedded, Some(d)),
                     procs := s.procs[d := Proc(t.addr, Https, Dialing, DialInEmbedded(t, s.c.IsCached(t)))])
  {
    hide Reached, Step, RegionOf;
    var s0 := s.(procs := s.procs[d := Proc(t.addr, Https, Dialing, DialWantEmbedded(t))]);
    Next(s, hs, Dial(d, t), s0);
    assert hs + [] == hs;
    s' := Goto(s0.(locks := s0.locks.Set(Embedded, Some(d))), d, DialInEmbedded(t, s0.c.IsCached(t)));
    NextLock(s0, hs, d, Embedded, s');
  }

  /** The cached transport's first dial takes the stashed connection. */
  lemma RunTakeStash(s: World, hs: seq<Kind>, d: Pid, t: Transport) returns (s': World)
    requires Reached(s, hs) && Idle(s) && d !in s.procs && t in s.h.issued && t.kind != Http3 && t.addr in s.c.stash
    ensures Reached(s', hs) && Idle(s')
    ensures s' == s.(c := s.c.TakeStash(t.addr),
                     procs := s.procs[d := Proc(t.addr, Https, Dialing,
                                                DialGot(t, s.c.IsCached(t), s.c.stash[t.addr]))])
  {
    hide Reached, Step, RegionOf;
    var s1 := BeginDial(s, hs, d, t);
    StepAt(s1, d, Go);
    s' := DialInEmbeddedStep(s1, d, t, s.c.IsCached(t), Go).value;
    NextStep(s1, hs, d, Go, s');
  }

  lemma RunNegotiate(s: World, hs: seq<Kind>, d: Pid, t: Transport, kind: Kind) returns (s': World)
    requires Reached(s, hs) && Idle(s) && d !in s.procs && t in s.h.issued && t.kind != Http3 && t.addr !in s.c.stash
    ensures Reached(s', hs + [kind])
    ensures s' == s.(locks := s.locks.Set(Embedded, Some(d)),
                     procs := s.procs[d := Proc(t.addr, Https, Dialing, DialWantKinds(t, s.c.IsCached(t), kind))])
  {
    hide Reached, Step, RegionOf;
    var s1 := BeginDial(s, hs, d, t);
    StepAt(s1, d, Handshake(kind, true));
    s' := Goto(s1, d, DialWantKinds(t, s.c.IsCached(t), kind));
    NextHandshake(s1, hs, d, kind, s');
  }

  /** A later dial opens a connection of its own, and asks which kind is recorded. */
  lemma RunCompare(s: World, hs: seq<Kind>, d: Pid, t: Transport, kind: Kind) returns (s': World)
    requires Reached(s, hs) && Idle(s) && d !in s.procs && t in s.h.issued && t.kind != Http3 && t.addr !in s.c.stash
    ensures Reached(s', hs + [kind])
    ensures s' == s.(locks := Locks(None, Some(d), Some(d), None),
                     procs := s.procs[d := Proc(t.addr, Https, Dialing, DialInKinds(t, s.c.IsCached(t), kind))])
  {
    hide Reached, Step, RegionOf;
    var s1 := RunNegotiate(s, hs, d, t, kind);
    s' := Goto(s1.(locks := s1.locks.Set(KindsLck, Some(d))), d, DialInKinds(t, s.c.IsCached(t), kind));
    NextLock(s1, hs + [kind], d, KindsLck, s');
  }

  /** When another kind is recorded, or none, the dial fails, and only the transport is marked. */
  lemma RunRefused(s: World, hs: seq<Kind>, d: Pid, t: Transport, kind: Kind) returns (s': World)
    requires Reached(s, hs) && Idle(s) && d !in s.procs && t in s.h.issued && t.kind != Http3 && t.addr !in s.c.stash
    requires !(t.addr in s.c.kinds && s.c.kinds[t.addr] == kind)
    ensures Reached(s', hs + [kind]) && Idle(s')
    ensures s' == s.(h := s.h.(failed := s.h.failed + {t}),
                     procs := s.procs[d := Proc(t.addr, Https, Dialing, DialFailed(t))])
  {
    hide Reached, Step, RegionOf;
    var s1 := RunCompare(s, hs, d, t, kind);
    StepAt(s1, d, Go);
    s' := DialInKindsStep(s1, d, t, s.c.IsCached(t), kind).value;
    NextStep(s1, hs + [kind], d, Go, s');
  }

  // The two critical sections of a drop

  /** The request in flight fails, and its transport is removed. */
  lemma RunDropTransport(s: World, hs: seq<Kind>, p: Pid, t: Transport) returns (s': World)
    requires Reached(s, hs) && Idle(s) && p in s.procs && s.procs[p] == Proc(t.addr, Https, Plain, Flight(t))
    requires t in s.h.failed
    ensures Reached(s', hs) && Idle(s')
    ensures s' == s.(c := s.c.DropTransport(t.addr, t),
                     procs := s.procs[p := Proc(t.addr, Https, Plain, DropWantKinds)])
  {
    hide Reached, Step, RegionOf;
    StepAt(s, p, Reply(Failure(ProtocolChanged)));
    var s1 := Goto(s, p, DropWantTransports(t));
    NextStep(s, hs, p, Reply(Failure(ProtocolChanged)), s1);
    var s2 := Goto(s1.(locks := s1.locks.Set(TransportsLck, Some(p))), p, DropInTransports(t));
    NextLock(s1, hs, p, TransportsLck, s2);
    StepAt(s2, p, Go);
    s' := DropInTransportsStep(s2, p, t).value;
    NextStep(s2, hs, p, Go, s');
  }

  /** At any later time the recorded kind is removed, whichever transport it belongs to by then. */
  lemma RunDropKind(s: World, hs: seq<Kind>, p: Pid) returns (s': World)
    requires Reached(s, hs) && Idle(s) && p in s.procs && s.procs[p].pc == DropWantKinds && s.procs[p].who == Plain
    ensures Reached(s', hs) && Idle(s')
    ensures s' == s.(c := s.c.DropKind(s.procs[p].addr),
                     procs := s.procs[p := s.procs[p].(pc := Done(Failure(ProtocolChanged)))])
  {
    hide Reached, Step, RegionOf;
    var s1 := Goto(s.(locks := s.locks.Set(KindsLck, Some(p))), p, DropInKinds);
    NextLock(s, hs, p, KindsLck, s1);
    StepAt(s1, p, Go);
    s' := DropInKindsStep(s1, p).value;
    NextStep(s1, hs, p, Go, s');
  }

  lemma RunDrop(s: World, hs: seq<Kind>, p: Pid, t: Transport) returns (s': World)
    requires Reached(s, hs) && Idle(s) && p in s.procs && s.procs[p] == Proc(t.addr, Https, Plain, Flight(t))
    requires t in s.h.failed
    ensures Reached(s', hs) && Idle(s')
    ensures s' == s.(c := s.c.DropTransport(t.addr, t).DropKind(t.addr),
                     procs := s.procs[p := Proc(t.addr, Https, Plain, Done(Failure(ProtocolChanged)))])
  {
    hide Reached;
    var s1 := RunDropTransport(s, hs, p, t);
    s' := RunDropKind(s1, hs, p);
  }
}
