/** The order in which the four locks are taken, and what follows from it. */
module TransportCacheProgress {
  import opened Wrappers
  import opened TransportCache
  import opened TransportCacheSafety
  import opened TransportCacheTheorems
  import opened TransportCacheRace

  function Rank(l: Lock): nat {
    match l
    case TransportsLck => 0
    case Embedded => 1
    case KindsLck => 2
    case ProtocolMu => 3
  }

  /** A goroutine takes cachedTransportsLck before the embedded mutex before cachedKindsLck, never one
      it holds, and protocolCacheMu neither while holding another lock nor the other way round. */
  lemma LockOrder(pc: PC, held: Lock, wanted: Lock)
    requires Holds(pc, held) && Wants(pc) == Some(wanted)
    ensures Rank(held) < Rank(wanted) && held != ProtocolMu && wanted != ProtocolMu
  {
  }

  predicate Finished(pc: PC) {
    pc.Done? || pc.Won? || pc.Sent? || pc.DialGot? || pc.DialFailed?
  }

  lemma FreshPids(taken: set<Pid>) returns (a: Pid, b: Pid)
    ensures a !in taken && b !in taken && a != b
  {
    var n := Bound(taken);
    a, b := n, n + 1;
  }

  lemma {:induction false} Bound(taken: set<Pid>) returns (n: Pid)
    ensures forall p <- taken :: p < n
  {
    if taken == {} {
      n := 0;
    } else {
      var p :| p in taken;
      var m := Bound(taken - {p});
      n := if p < m then m else p + 1;
      assert taken == (taken - {p}) + {p};
    }
  }

  lemma SectionMoves(s: World, p: Pid) returns (choice: Choice)
    requires p in s.procs && Knows(s, s.procs[p]) && RegionOf(s.procs[p].pc) != Outside && Wants(s.procs[p].pc).None?
    ensures Step(s, p, choice).Some?
  {
    var pr := s.procs[p];
    choice := Go;
    match pr.pc
    case InTransports =>
      if TransportKey(pr.who, pr.addr) !in s.c.transports && pr.who == Cached(H3) { choice := Builds(true); }
    case InSetup => if pr.addr !in s.c.stash { choice := NoConnection; }
    case DialInEmbedded(_, _) => if pr.addr !in s.c.stash { choice := NoConnection; }
    case _ =>
  }

  lemma OpenMoves(s: World, p: Pid) returns (choice: Choice)
    requires RaceInv(s) && p in s.procs && !Finished(s.procs[p].pc)
    requires RegionOf(s.procs[p].pc) == Outside && Wants(s.procs[p].pc).None?
    ensures Step(s, p, choice).Some?
  {
    hide RaceInv, SendingStep;
    choice := Go;
    match s.procs[p].pc
    case Flight(_) => choice := Reply(Failure(RequestFailed));
    case Starting =>
      var quic, tcp := FreshPids(s.procs.Keys);
      choice := Fork(quic, tcp);
    case Waiting(i, _) => if i < 2 { choice := Expire; }
    case Storing(_) => choice := Builds(false);
    case QuicTry => choice := Reply(Failure(RequestFailed));
    case Sending(result) => SenderMoves(s, p, result);
    case _ =>
  }

  /** A goroutine that neither waits for a held lock nor has finished has a step. */
  lemma UnblockedMoves(s: World, p: Pid) returns (choice: Choice)
    requires Inv(s) && RaceInv(s) && p in s.procs && !Finished(s.procs[p].pc)
    requires Wants(s.procs[p].pc).Some? ==> s.locks.Owner(Wants(s.procs[p].pc).value) == None
    ensures Step(s, p, choice).Some?
  {
    assert Knows(s, s.procs[p]);
    hide Inv, RaceInv, RegionOf, Knows;
    if Wants(s.procs[p].pc).Some? {
      choice := Go;
      assert AcquireStep(s, p, Wants(s.procs[p].pc).value).Some?;
    } else if RegionOf(s.procs[p].pc) != Outside {
      hide Step;
      choice := SectionMoves(s, p);
    } else {
      hide Step;
      choice := OpenMoves(s, p);
    }
  }

  lemma SenderMoves(s: World, p: Pid, result: RacingResult)
    requires RaceInv(s) && p in s.procs && s.procs[p].pc == Sending(result)
    ensures SendingStep(s, p, result).Some?
  {
    hide LogFits, Unread, RegionOf;
    assert PlaysPart(s, p, s.procs[p]);
    SendersAreAttempts(s, p, s.procs[p]);
    AttemptPlays(s, p, s.procs[p]);
    hide RaceInv, PlaysPart, RaceFits;
    ChannelHasRoom(s, s.procs[p].who.race, p);
  }

  lemma SendersAreAttempts(s: World, p: Pid, pr: Proc)
    requires PlaysPart(s, p, pr) && pr.pc.Sending?
    ensures IsAttempt(pr.who)
  {
  }

  /** While one of the two attempts has not sent, the channel is not full. */
  lemma ChannelHasRoom(s: World, w: Pid, p: Pid)
    requires RaceInv(s) && w in s.races && p in s.procs && p in {s.races[w].quic, s.races[w].tcp}
    requires !s.procs[p].pc.Sent?
    ensures |s.races[w].channel| < CHANNEL_CAPACITY
  {
    hide RaceInv, PlaysPart, SentBy;
    LogOfRace(s, w);
    assert Unread(s.races[w]);
  }

  lemma HoldersAreBusy(pc: PC, l: Lock)
    requires Holds(pc, l)
    ensures !Finished(pc)
  {
  }

  /** The holder of a lock, or somebody it waits for in turn, can move. */
  lemma {:induction false} HolderMoves(s: World, l: Lock) returns (p: Pid, choice: Choice)
    requires Inv(s) && RaceInv(s) && s.locks.Owner(l).Some?
    ensures p in s.procs && Step(s, p, choice).Some?
    decreases 3 - Rank(l)
  {
    hide RaceInv, Step, RegionOf, Shared;
    HoldersAreBusy(s.procs[s.locks.Owner(l).value].pc, l);
    p := s.locks.Owner(l).value;
    var pc := s.procs[p].pc;
    assert Holds(pc, l) && Knows(s, s.procs[p]);
    hide Inv, RaceInv, Step, Knows;
    if Wants(pc).Some? {
      LockOrder(pc, l, Wants(pc).value);
      if s.locks.Owner(Wants(pc).value).Some? {
        p, choice := HolderMoves(s, Wants(pc).value);
      } else {
        choice := UnblockedMoves(s, p);
      }
    } else {
      choice := UnblockedMoves(s, p);
    }
  }

  /** No reachable state is deadlocked: while any goroutine is unfinished, some goroutine can move. */
  lemma NoDeadlock(s: World, p: Pid) returns (q: Pid, choice: Choice)
    requires Reachable(s) && p in s.procs && !Finished(s.procs[p].pc)
    ensures q in s.procs && Step(s, q, choice).Some?
  {
    ReachableSatisfiesInv(s);
    ReachableSatisfiesRaceInv(s);
    hide Inv, RaceInv, Step, Reachable;
    var pc := s.procs[p].pc;
    if Wants(pc).Some? && s.locks.Owner(Wants(pc).value).Some? {
      q, choice := HolderMoves(s, Wants(pc).value);
    } else {
      q := p;
      choice := UnblockedMoves(s, p);
    }
  }
}
