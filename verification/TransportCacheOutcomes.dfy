/** How requests end, what their transports are, and what changes the maps, for every reachable step. */
module TransportCacheOutcomes {
  import opened Wrappers
  import opened TransportCache
  import opened TransportCacheSafety
  import opened TransportCacheTheorems
  import opened TransportCacheRace
  import opened TransportCacheRuns

  // What the waiter of a race has heard

  /** The first `i` results were failures, and `lastErr` is that of the last of them. */
  predicate Heard(log: seq<RacingResult>, i: nat, lastErr: Option<Error>) {
    && i <= |log| && (forall k | 0 <= k < i :: log[k].outcome.Failure?)
    && lastErr == if i == 0 then None else Some(log[i - 1].outcome.error)
  }

  ghost predicate HeardFits(s: World, p: Pid, pc: PC) {
    pc.Waiting? ==> p in s.races && Heard(s.races[p].log, pc.i, pc.lastErr)
  }

  ghost predicate WaitersHeard(s: World) {
    forall p <- s.procs :: HeardFits(s, p, s.procs[p].pc)
  }

  lemma HeardGrows(log: seq<RacingResult>, more: seq<RacingResult>, i: nat, lastErr: Option<Error>)
    requires Heard(log, i, lastErr)
    ensures Heard(log + more, i, lastErr)
  {
  }

  lemma HearsOneMore(race: Race, i: nat, lastErr: Option<Error>, error: Error)
    requires Unread(race) && i + |race.channel| == |race.log| && Heard(race.log, i, lastErr)
    requires race.channel != [] && race.channel[0].outcome == Failure(error)
    ensures Heard(race.log, i + 1, Some(error))
  {
    assert race.log[i] == race.channel[0];
  }

  /** What a step of a race is, beside the steps of a request that `StepAt` spells out. */
  lemma RaceStepAt(s: World, p: Pid, choice: Choice)
    requires p in s.procs
    ensures var pc := s.procs[p].pc;
            && (pc.Aborting? ==> Step(s, p, choice) == GoOnly(choice, AbortingStep(s, p)))
            && (pc.LookupIn? ==> Step(s, p, choice) == GoOnly(choice, LookupInStep(s, p)))
            && (pc.ClearIn? ==> Step(s, p, choice) == GoOnly(choice, ClearInStep(s, p)))
            && (pc.Starting? && choice.Fork? ==> Step(s, p, choice) == StartingStep(s, p, choice.quic, choice.tcp))
            && (pc.Starting? && !choice.Fork? ==> Step(s, p, choice) == None)
            && (pc.Waiting? ==> Step(s, p, choice) == WaitingStep(s, p, pc.i, pc.lastErr, choice))
            && (pc.WinIn? ==> Step(s, p, choice) == GoOnly(choice, WinInStep(s, p, pc.win)))
            && (pc.StoreIn? ==> Step(s, p, choice) == GoOnly(choice, StoreInStep(s, p, pc.win)))
            && (pc.Sending? ==> Step(s, p, choice) == GoOnly(choice, SendingStep(s, p, pc.result)))
            && (pc.Flight? && !choice.Reply? ==> Step(s, p, choice) == None)
            && (Ended(pc) ==> Step(s, p, choice) == None)
  {
    hide InTransportsStep, InSetupStep, InKindsStep, StashingStep, PublishingStep, AbortingStep;
    hide FlightStep, DropInTransportsStep, DropInKindsStep, DialInEmbeddedStep, DialInKindsStep;
    hide LookupInStep, ClearInStep, StartingStep, WaitingStep, WinInStep, StoreInStep, SendingStep, AcquireStep;
  }

  predicate Ended(pc: PC) {
    pc.Done? || pc.Panicked? || pc.Won? || pc.Sent? || pc.DialGot? || pc.DialFailed?
  }

  lemma FinishIsNoRace(who: Who, outcome: Outcome)
    ensures var pc := Finish(who, outcome); pc.Sending? || pc.Done? || pc.ClearWant?
  {
  }

  lemma RequestStepsDoNotWait(s: World, p: Pid, choice: Choice, s': World)
    requires p in s.procs && Step(s, p, choice) == Some(s') && p in s'.procs && Wants(s.procs[p].pc).None?
    requires StageOf(s.procs[p].pc).Obtain?
    ensures !s'.procs[p].pc.Waiting?
  {
    StepAt(s, p, choice);
    RaceStepAt(s, p, choice);
    hide Step, RegionOf, Finish;
    FinishIsNoRace(s.procs[p].who, Failure(Refused));
    FinishIsNoRace(s.procs[p].who, Failure(BadScheme));
    FinishIsNoRace(s.procs[p].who, Failure(ProtocolChanged));
    if choice.Reply? {
      FinishIsNoRace(s.procs[p].who, choice.outcome);
    }
  }

  lemma DialStepsDoNotWait(s: World, p: Pid, choice: Choice, s': World)
    requires p in s.procs && Step(s, p, choice) == Some(s') && p in s'.procs && Wants(s.procs[p].pc).None?
    requires StageOf(s.procs[p].pc).Dials?
    ensures !s'.procs[p].pc.Waiting?
  {
    StepAt(s, p, choice);
    RaceStepAt(s, p, choice);
    hide Step, RegionOf;
  }

  lemma RaceStepsDoNotWait(s: World, p: Pid, choice: Choice, s': World)
    requires p in s.procs && Step(s, p, choice) == Some(s') && p in s'.procs && Wants(s.procs[p].pc).None?
    requires !s.procs[p].pc.Starting? && !s.procs[p].pc.Waiting?
    requires !StageOf(s.procs[p].pc).Obtain? && !StageOf(s.procs[p].pc).Dials?
    ensures !s'.procs[p].pc.Waiting?
  {
    RaceStepAt(s, p, choice);
    if !s.procs[p].pc.QuicTry? && !s.procs[p].pc.Storing? {
      hide Step;
    }
    if choice.Reply? {
      FinishIsNoRace(s.procs[p].who, choice.outcome);
    }
    hide RegionOf, Finish;
  }

  /** Only a start or a failed attempt before leads to waiting. */
  lemma WhereWaitersComeFrom(s: World, p: Pid, choice: Choice, s': World)
    requires p in s.procs && Step(s, p, choice) == Some(s') && p in s'.procs && s'.procs[p].pc.Waiting?
    ensures s.procs[p].pc.Starting? || s.procs[p].pc.Waiting?
  {
    var pc := s.procs[p].pc;
    StepAt(s, p, choice);
    hide Step;
    if Wants(pc).Some? {
      GrantedStage(s, pc);
      StageAt(s'.procs[p].pc);
    } else if StageOf(pc).Obtain? {
      RequestStepsDoNotWait(s, p, choice, s');
    } else if StageOf(pc).Dials? {
      DialStepsDoNotWait(s, p, choice, s');
    } else if !pc.Starting? && !pc.Waiting? {
      RaceStepsDoNotWait(s, p, choice, s');
    }
  }

  /** Results are only ever added to a log. */
  lemma LogsGrow(s: World, p: Pid, choice: Choice, s': World, q: Pid)
    requires RaceInv(s) && p in s.procs && Step(s, p, choice) == Some(s') && q != p && q in s.races
    ensures q in s'.races && s.races[q].log <= s'.races[q].log
  {
    assert PlaysPart(s, p, s.procs[p]);
    RacingSteps(s, p, choice, s');
    hide Step, StartingStep, WaitingStep, SendingStep, PlaysPart, RaceInv;
    var pc := s.procs[p].pc;
    if pc.Starting? {
      ForkLeavesRaces(s, p, choice.quic, choice.tcp, s', q);
    } else if pc.Waiting? {
      WaitLeavesLogs(s, p, pc.i, pc.lastErr, choice, s', q);
    } else if pc.Sending? {
      SendGrows(s, p, pc.result, s', q);
    } else {
      StepIsQuiet(s, p, choice, s');
    }
  }

  lemma ForkLeavesRaces(s: World, p: Pid, quic: Pid, tcp: Pid, s': World, q: Pid)
    requires p in s.procs && StartingStep(s, p, quic, tcp) == Some(s') && q != p && q in s.races
    ensures q in s'.races && s'.races[q] == s.races[q]
  {
    ForkEffect(s, p, quic, tcp, s');
  }

  lemma WaitLeavesLogs(s: World, p: Pid, i: nat, lastErr: Option<Error>, choice: Choice, s': World, q: Pid)
    requires p in s.procs && WaitingStep(s, p, i, lastErr, choice) == Some(s') && q in s.races
    ensures q in s'.races && s'.races[q].log == s.races[q].log
  {
  }

  lemma WaiterKnows(s: World, p: Pid)
    requires RaceInv(s) && WaitersHeard(s) && p in s.procs && s.procs[p].pc.Waiting?
    ensures p in s.races
    ensures var race, pc := s.races[p], s.procs[p].pc;
            && Unread(race) && pc.i + |race.channel| == |race.log| <= 2 && Heard(race.log, pc.i, pc.lastErr)
  {
    assert HeardFits(s, p, s.procs[p].pc);
    assert PlaysPart(s, p, s.procs[p]);
    hide Heard, Unread;
    LogOfRace(s, p);
    hide RaceInv, WaitersHeard, LogFits;
  }

  lemma WaiterMoves(s: World, p: Pid, choice: Choice, s': World)
    requires RaceInv(s) && WaitersHeard(s) && p in s.procs && s.procs[p].pc.Waiting? && p in s'.procs
    requires WaitingStep(s, p, s.procs[p].pc.i, s.procs[p].pc.lastErr, choice) == Some(s') && s'.procs[p].pc.Waiting?
    ensures HeardFits(s', p, s'.procs[p].pc)
  {
    hide RaceInv, WaitersHeard, WaitingStep, Heard, Unread;
    var pc := s.procs[p].pc;
    WaiterKnows(s, p);
    WaitsOn(s, p, pc.i, pc.lastErr, choice, s');
    HearsOneMore(s.races[p], pc.i, pc.lastErr, s.races[p].channel[0].outcome.error);
  }

  /** What the goroutine that moves has heard. */
  lemma MoverHeard(s: World, p: Pid, choice: Choice, s': World)
    requires RaceInv(s) && WaitersHeard(s) && p in s.procs && Step(s, p, choice) == Some(s') && p in s'.procs
    ensures HeardFits(s', p, s'.procs[p].pc)
  {
    hide RaceInv, WaitersHeard, Step, Heard, WaitingStep, StartingStep;
    if s'.procs[p].pc.Waiting? {
      WhereWaitersComeFrom(s, p, choice, s');
      RacingSteps(s, p, choice, s');
      if s.procs[p].pc.Starting? {
        StartsUnheard(s, p, choice.quic, choice.tcp, s');
      } else {
        WaiterMoves(s, p, choice, s');
      }
    }
  }

  lemma StartsUnheard(s: World, p: Pid, quic: Pid, tcp: Pid, s': World)
    requires p in s.procs && StartingStep(s, p, quic, tcp) == Some(s') && p in s'.procs
    ensures HeardFits(s', p, s'.procs[p].pc)
  {
  }

  lemma WaitsOn(s: World, p: Pid, i: nat, lastErr: Option<Error>, choice: Choice, s': World)
    requires p in s.procs && WaitingStep(s, p, i, lastErr, choice) == Some(s') && p in s'.procs
    requires s'.procs[p].pc.Waiting?
    ensures p in s.races && s.races[p].channel != [] && s.races[p].channel[0].outcome.Failure?
    ensures s'.procs[p].pc == Waiting(i + 1, Some(s.races[p].channel[0].outcome.error))
    ensures p in s'.races && s'.races[p].log == s.races[p].log
  {
  }

  lemma OthersStay(s: World, p: Pid, choice: Choice, s': World)
    requires Inv(s) && p in s.procs && Step(s, p, choice) == Some(s')
    ensures p in s'.procs
    ensures forall q <- s'.procs | q != p && s'.procs[q].pc.Waiting? :: q in s.procs && s'.procs[q] == s.procs[q]
  {
    StepGood(s, p, choice, s');
    hide Inv, Step, Shared, Knows, Guarded, Passes;
  }

  lemma WaiterStillKnows(s: World, p: Pid, choice: Choice, s': World, q: Pid)
    requires RaceInv(s) && p in s.procs && Step(s, p, choice) == Some(s') && q != p && q in s.procs
    requires HeardFits(s, q, s.procs[q].pc)
    ensures HeardFits(s', q, s.procs[q].pc)
  {
    hide RaceInv, Step, Heard;
    if s.procs[q].pc.Waiting? {
      LogsGrow(s, p, choice, s', q);
      var log, log' := s.races[q].log, s'.races[q].log;
      assert log' == log + log'[|log|..];
      HeardGrows(log, log'[|log|..], s.procs[q].pc.i, s.procs[q].pc.lastErr);
    }
  }

  lemma StepKeepsHeard(s: World, p: Pid, choice: Choice, s': World)
    requires Inv(s) && RaceInv(s) && WaitersHeard(s) && p in s.procs && Step(s, p, choice) == Some(s')
    ensures WaitersHeard(s')
  {
    hide Inv, RaceInv, Step;
    OthersStay(s, p, choice, s');
    MoverHeard(s, p, choice, s');
    forall q <- s'.procs ensures HeardFits(s', q, s'.procs[q].pc) {
      if q != p && s'.procs[q].pc.Waiting? {
        WaiterStillKnows(s, p, choice, s', q);
      }
    }
  }

  lemma {:induction false} RunKeepsHeard(s: World, es: seq<Event>, s': World)
    requires Inv(s) && RaceInv(s) && WaitersHeard(s) && Exec(s, es) == Some(s')
    ensures WaitersHeard(s')
    decreases |es|
  {
    if es != [] {
      hide Inv, RaceInv, WaitersHeard, Step;
      var next := Apply(s, es[0]).value;
      ApplyKeepsInv(s, es[0], next);
      ApplyKeepsRaces(s, es[0], next);
      match es[0] {
        case Run(p, choice) => StepKeepsHeard(s, p, choice, next);
        case Arrive(p, _, _, _) => NewcomerHeard(s, p, next);
        case Dial(p, _) => NewcomerHeard(s, p, next);
      }
      RunKeepsHeard(next, es[1..], s');
    }
  }

  lemma NewcomerHeard(s: World, p: Pid, s': World)
    requires WaitersHeard(s) && p in s'.procs && s' == s.(procs := s.procs[p := s'.procs[p]])
    requires !s'.procs[p].pc.Waiting?
    ensures WaitersHeard(s')
  {
    hide Heard;
    forall q <- s'.procs ensures HeardFits(s', q, s'.procs[q].pc) {
      if q != p { assert HeardFits(s, q, s.procs[q].pc); }
    }
  }

  lemma ReachableWaitersHeard(s: World)
    requires Reachable(s)
    ensures WaitersHeard(s)
  {
    var es :| Exec(INIT, es) == Some(s);
    InitFits();
    hide Exec, Inv, RaceInv;
    RunKeepsHeard(INIT, es, s);
  }

  lemma InitFits()
    ensures Inv(INIT) && RaceInv(INIT) && WaitersHeard(INIT)
  {
    assert Exec(INIT, []) == Some(INIT);
    ReachableSatisfiesInv(INIT);
    ReachableSatisfiesRaceInv(INIT);
    hide Inv, RaceInv, Reachable;
  }

  /** What a waiter that gives up at the deadline reports. */
  function LastHeard(race: Race): Error {
    var heard := |race.log| - |race.channel|;
    if 0 < heard <= |race.log| && race.log[heard - 1].outcome.Failure? then race.log[heard - 1].outcome.error
    else TimedOut
  }

  ghost predicate EndsARace(race: Race, choice: Choice, pc: PC) {
    match pc
    case WinWant(win) => choice == Receive && race.channel != [] && win == race.channel[0] && win.outcome.Answer?
    case Waiting(i, lastErr) =>
      && choice == Receive && race.channel != [] && lastErr.Some?
      && race.channel[0].outcome == Failure(lastErr.value)
    case Done(outcome) =>
      || (choice == Expire && outcome == Failure(LastHeard(race)))
      || (race.channel == [] && |race.log| == 2 && race.log[0].outcome.Failure? && race.log[1].outcome.Failure?
          && outcome == race.log[1].outcome)
    case _ => false
  }

  lemma WaitingEnds(s: World, p: Pid, i: nat, lastErr: Option<Error>, choice: Choice, s': World)
    requires p in s.procs && WaitingStep(s, p, i, lastErr, choice) == Some(s') && p in s'.procs && p in s.races
    requires i + |s.races[p].channel| == |s.races[p].log| <= 2 && Heard(s.races[p].log, i, lastErr)
    ensures EndsARace(s.races[p], choice, s'.procs[p].pc)
  {
    match choice
    case Receive =>
    case Expire =>
    case Go =>
    case _ =>
  }

  /** How a race ends: with the first answer that is heard; or when both attempts have failed, with the error
      of the second; or at the deadline, with the last error heard. One failure alone does not end it. */
  lemma HowRacesEnd(s: World, p: Pid, choice: Choice, s': World)
    requires Reachable(s) && p in s.procs && s.procs[p].pc.Waiting? && Step(s, p, choice) == Some(s') && p in s'.procs
    ensures p in s.races && EndsARace(s.races[p], choice, s'.procs[p].pc)
  {
    hide RaceInv, WaitersHeard, Reachable, Step, EndsARace, Heard, WaitingStep, Unread;
    ReachableWaitersHeard(s);
    ReachableSatisfiesRaceInv(s);
    WaiterKnows(s, p);
    RaceStepAt(s, p, choice);
    WaitingEnds(s, p, s.procs[p].pc.i, s.procs[p].pc.lastErr, choice, s');
  }

  /** A result in the channel can be received, whatever came before. */
  lemma WaiterCanReceive(s: World, p: Pid)
    requires Reachable(s) && p in s.procs && s.procs[p].pc.Waiting?
    ensures p in s.races && (s.races[p].channel != [] ==> Step(s, p, Receive).Some?)
  {
    hide RaceInv, WaitersHeard, Reachable, Step;
    ReachableWaitersHeard(s);
    ReachableSatisfiesRaceInv(s);
    WaiterKnows(s, p);
    RaceStepAt(s, p, Receive);
    hide RegionOf, LogFits;
  }

  // What a request is about

  /** A racing request first tries the protocol that is recorded for its address, if one is, and races
      otherwise; the look-up changes nothing. */
  lemma RecordedProtocolIsTried(s: World, p: Pid, choice: Choice, s': World)
    requires p in s.procs && s.procs[p].pc == LookupIn && Step(s, p, choice) == Some(s')
    ensures s'.c == s.c && s'.protocols == s.protocols && s'.races == s.races && p in s'.procs
    ensures var pr := s.procs[p];
            s'.procs[p] == if pr.addr in s.protocols
                           then Proc(pr.addr, pr.scheme, Cached(s.protocols[pr.addr]), WantTransports)
                           else Proc(pr.addr, pr.scheme, pr.who, Starting)
  {
    RaceStepAt(s, p, choice);
    hide Step, RegionOf;
  }

  ghost predicate OnlyMoves(s: World, p: Pid, s': World) {
    p in s.procs && p in s'.procs && s'.procs[p] == s.procs[p].(pc := s'.procs[p].pc)
  }

  lemma RequestOnlyMoves(s: World, p: Pid, choice: Choice, s': World)
    requires p in s.procs && Step(s, p, choice) == Some(s') && p in s'.procs && Wants(s.procs[p].pc).None?
    requires var pc := s.procs[p].pc;
             || pc.InTransports? || pc.InSetup? || pc.InKinds? || pc.Stashing? || pc.Publishing? || pc.Aborting?
             || pc.Flight? || pc.DropInTransports? || pc.DropInKinds?
    ensures OnlyMoves(s, p, s')
  {
    StepAt(s, p, choice);
    RaceStepAt(s, p, choice);
    hide Step, RegionOf, Finish, TransportKey;
  }

  lemma RacerOnlyMoves(s: World, p: Pid, choice: Choice, s': World)
    requires p in s.procs && Step(s, p, choice) == Some(s') && p in s'.procs && Wants(s.procs[p].pc).None?
    requires var pc := s.procs[p].pc;
             || pc.ClearIn? || pc.Starting? || pc.Waiting? || pc.WinIn? || pc.Storing? || pc.StoreIn? || pc.QuicTry?
             || pc.Sending? || pc.DialInEmbedded? || pc.DialInKinds?
    ensures OnlyMoves(s, p, s')
  {
    StepAt(s, p, choice);
    RaceStepAt(s, p, choice);
    if !s.procs[p].pc.QuicTry? && !s.procs[p].pc.Storing? {
      hide Step;
    }
    hide RegionOf, Finish;
  }

  /** The look-up is the only step that changes what a goroutine is: on whose behalf it runs, its address and its
      scheme stay. */
  lemma NothingElseChangesARequest(s: World, p: Pid, choice: Choice, s': World)
    requires p in s.procs && Step(s, p, choice) == Some(s') && p in s'.procs && s.procs[p].pc != LookupIn
    ensures s'.procs[p] == s.procs[p].(pc := s'.procs[p].pc)
  {
    var pc := s.procs[p].pc;
    StepAt(s, p, choice);
    RaceStepAt(s, p, choice);
    hide Step, Granted;
    if Wants(pc).Some? {
    } else if pc.InTransports? || pc.InSetup? || pc.InKinds? || pc.Stashing? || pc.Publishing? || pc.Aborting?
              || pc.Flight? || pc.DropInTransports? || pc.DropInKinds? {
      RequestOnlyMoves(s, p, choice, s');
    } else {
      RacerOnlyMoves(s, p, choice, s');
    }
  }

  /** The transport a request is sent with is the one cached for its address, or the HTTP/3 one cached beside
      it when HTTP/3 is the recorded protocol that is tried; and the cache lock is given up with it. */
  lemma SentWithItsTransport(s: World, p: Pid, choice: Choice, s': World)
    requires Reachable(s) && p in s.procs && Step(s, p, choice) == Some(s') && p in s'.procs
    requires s.procs[p].pc == Publishing
    ensures var key := if s.procs[p].who == Cached(H3) then ByAddrQuic(s.procs[p].addr) else ByAddr(s.procs[p].addr);
            && key in s.c.transports && s'.procs[p].pc == Flight(s.c.transports[key]) && s'.c == s.c
            && s.locks.transports == Some(p) && s'.locks.transports == None
  {
    ReachableSatisfiesInv(s);
    assert Holds(s.procs[p].pc, TransportsLck) && s.locks.Owner(TransportsLck) == Some(p);
    StepAt(s, p, choice);
    hide Step, Inv, RegionOf, Reachable;
  }

  // How attempts end

  /** Where an attempt with this outcome leaves the goroutine that made it. */
  predicate EndsAs(who: Who, outcome: Outcome, pc: PC) {
    match who
    case QuicAttempt(_) => pc == Sending(RacingResult(H3, outcome))
    case TcpAttempt(_) => pc == Sending(RacingResult(H2, outcome))
    case Cached(_) => if outcome.Answer? then pc == Done(outcome) else pc == ClearWant
    case _ => pc == Done(outcome)
  }

  /** An attempt ends with what its transport replied; with the refusal of its first dial; with an unknown
      scheme; or with errProtocolChanged, after the drop. */
  lemma HowAttemptsEnd(s: World, p: Pid, choice: Choice, s': World)
    requires p in s.procs && Step(s, p, choice) == Some(s') && p in s'.procs
    ensures var pr, pc := s.procs[p], s'.procs[p].pc;
            match pr.pc
            case Flight(t) =>
              choice.Reply? && (if choice.outcome != Failure(ProtocolChanged) then EndsAs(pr.who, choice.outcome, pc)
                                else t in s.h.failed && pc == DropWantTransports(t))
            case QuicTry => choice.Reply? && EndsAs(pr.who, choice.outcome, pc)
            case Aborting => EndsAs(pr.who, Failure(Refused), pc)
            case DropInKinds => EndsAs(pr.who, Failure(ProtocolChanged), pc)
            case _ => true
  {
    StepAt(s, p, choice);
    RaceStepAt(s, p, choice);
    var pc := s.procs[p].pc;
    if pc.Flight? || pc.Aborting? || pc.DropInKinds? {
      hide Step;
    }
    hide RegionOf;
  }

  /** And no other step ends a request, except the refusal of an unknown scheme and the end of a race. */
  lemma NothingElseEndsARequest(s: World, p: Pid, choice: Choice, s': World)
    requires p in s.procs && Step(s, p, choice) == Some(s') && p in s'.procs && s'.procs[p].pc.Done?
    ensures var pc := s.procs[p].pc;
            || pc.Flight? || pc.QuicTry? || pc.Aborting? || pc.DropInKinds? || pc.Waiting?
            || (pc.InTransports? && s.procs[p].scheme == OtherScheme)
  {
    StepAt(s, p, choice);
    RaceStepAt(s, p, choice);
    var pc := s.procs[p].pc;
    if Wants(pc).Some? {
      GrantedIsNotDone(s, pc);
      hide Step, Granted;
    } else if !pc.QuicTry? && !pc.Storing? {
      hide Step;
    }
    hide RegionOf, Finish;
  }

  lemma GrantedIsNotDone(s: World, pc: PC)
    requires Wants(pc).Some?
    ensures !Granted(s, pc).Done?
  {
  }

  // What changes the maps

  /** A transport is cached by a set-up dial whose handshake completes, with the kind that was negotiated; by
      the http branch; and, under its own key, by HTTP/3 being tried or having won. It leaves the cache only by
      a drop, and only if it is the one dropped. */
  function TransportsAfter(s: World, pr: Proc, choice: Choice): map<Key, Transport> {
    var a, cached := pr.addr, s.c.transports;
    match pr.pc
    case InTransports =>
      if pr.who == Cached(H3) then
        (if ByAddrQuic(a) !in cached && choice == Builds(true)
         then cached[ByAddrQuic(a) := Transport(s.c.nextId, a, Http3)] else cached)
      else if ByAddr(a) !in cached && pr.scheme == Http then cached[ByAddr(a) := Transport(s.c.nextId, a, Http1)]
      else cached
    case InSetup =>
      if a !in s.c.stash && choice.Handshake? && (choice.kind != Http3 || choice.builds)
      then cached[ByAddr(a) := Transport(s.c.nextId, a, choice.kind)] else cached
    case StoreIn(_) => cached[ByAddrQuic(a) := Transport(s.c.nextId, a, Http3)]
    case DropInTransports(t) =>
      if ByAddr(a) in cached && cached[ByAddr(a)] == t then cached - {ByAddr(a)} else cached
    case _ => cached
  }

  ghost predicate MapsFollow(s: World, p: Pid, choice: Choice, s': World)
    requires p in s.procs
  {
    var a, pc := s.procs[p].addr, s.procs[p].pc;
    && s'.c.transports == TransportsAfter(s, s.procs[p], choice)
    && s'.c.kinds == (if pc.InKinds? then s.c.kinds[a := pc.t.kind]
                      else if pc.DropInKinds? then s.c.kinds - {a} else s.c.kinds)
    && s'.c.stash == (if pc.Stashing? then s.c.stash[a := pc.t.kind]
                      else if (pc.InSetup? || pc.DialInEmbedded?) && a in s.c.stash then s.c.stash - {a} else s.c.stash)
    && s'.protocols == (if pc.WinIn? then s.protocols[a := pc.win.protocol]
                        else if pc.ClearIn? then s.protocols - {a} else s.protocols)
  }

  lemma OtherMapsStay(s: World, p: Pid, choice: Choice, s': World)
    requires p in s.procs && s.procs[p].pc.InTransports? && InTransportsStep(s, p, choice) == Some(s')
    ensures s'.c.kinds == s.c.kinds && s'.c.stash == s.c.stash && s'.protocols == s.protocols
  {
    hide RegionOf, Finish;
  }

  lemma AlreadyCached(s: World, p: Pid, choice: Choice, s': World)
    requires p in s.procs && s.procs[p].pc.InTransports? && InTransportsStep(s, p, choice) == Some(s')
    requires TransportKey(s.procs[p].who, s.procs[p].addr) in s.c.transports
    ensures s'.c.transports == TransportsAfter(s, s.procs[p], choice)
  {
    hide RegionOf, Finish;
  }

  lemma QuicIsCached(s: World, p: Pid, choice: Choice, s': World)
    requires p in s.procs && s.procs[p].pc.InTransports? && InTransportsStep(s, p, choice) == Some(s')
    requires s.procs[p].who == Cached(H3) && ByAddrQuic(s.procs[p].addr) !in s.c.transports
    ensures s'.c.transports == TransportsAfter(s, s.procs[p], choice)
  {
    hide RegionOf, Finish;
  }

  lemma PlainIsCached(s: World, p: Pid, choice: Choice, s': World)
    requires p in s.procs && s.procs[p].pc.InTransports? && InTransportsStep(s, p, choice) == Some(s')
    requires s.procs[p].who != Cached(H3) && ByAddr(s.procs[p].addr) !in s.c.transports
    ensures s'.c.transports == TransportsAfter(s, s.procs[p], choice)
  {
    hide RegionOf, Finish;
  }

  lemma TransportIsCached(s: World, p: Pid, choice: Choice, s': World)
    requires p in s.procs && s.procs[p].pc.InTransports? && InTransportsStep(s, p, choice) == Some(s')
    ensures s'.c.transports == TransportsAfter(s, s.procs[p], choice)
  {
    hide InTransportsStep, TransportsAfter;
    if TransportKey(s.procs[p].who, s.procs[p].addr) in s.c.transports {
      AlreadyCached(s, p, choice, s');
    } else if s.procs[p].who == Cached(H3) {
      QuicIsCached(s, p, choice, s');
    } else {
      PlainIsCached(s, p, choice, s');
    }
  }

  lemma InTransportsMaps(s: World, p: Pid, choice: Choice, s': World)
    requires p in s.procs && s.procs[p].pc.InTransports? && Step(s, p, choice) == Some(s')
    ensures MapsFollow(s, p, choice, s')
  {
    hide Step, InTransportsStep, TransportsAfter;
    StepAt(s, p, choice);
    OtherMapsStay(s, p, choice, s');
    TransportIsCached(s, p, choice, s');
  }

  lemma SetUpIsCached(s: World, p: Pid, choice: Choice, s': World)
    requires p in s.procs && s.procs[p].pc.InSetup? && InSetupStep(s, p, choice) == Some(s')
    ensures MapsFollow(s, p, choice, s')
  {
    hide RegionOf, Finish;
  }

  lemma InSetupMaps(s: World, p: Pid, choice: Choice, s': World)
    requires p in s.procs && s.procs[p].pc.InSetup? && Step(s, p, choice) == Some(s')
    ensures MapsFollow(s, p, choice, s')
  {
    hide Step, InSetupStep, MapsFollow;
    StepAt(s, p, choice);
    SetUpIsCached(s, p, choice, s');
  }

  lemma InKindsMaps(s: World, p: Pid, choice: Choice, s': World)
    requires p in s.procs && s.procs[p].pc.InKinds? && Step(s, p, choice) == Some(s')
    ensures MapsFollow(s, p, choice, s')
  {
    StepAt(s, p, choice);
    hide Step, RegionOf, Finish;
  }

  lemma StashingMaps(s: World, p: Pid, choice: Choice, s': World)
    requires p in s.procs && s.procs[p].pc.Stashing? && Step(s, p, choice) == Some(s')
    ensures MapsFollow(s, p, choice, s')
  {
    StepAt(s, p, choice);
    hide Step, RegionOf, Finish;
  }

  lemma DropInTransportsMaps(s: World, p: Pid, choice: Choice, s': World)
    requires p in s.procs && s.procs[p].pc.DropInTransports? && Step(s, p, choice) == Some(s')
    ensures MapsFollow(s, p, choice, s')
  {
    StepAt(s, p, choice);
    hide Step, RegionOf, Finish;
  }

  lemma DropInKindsMaps(s: World, p: Pid, choice: Choice, s': World)
    requires p in s.procs && s.procs[p].pc.DropInKinds? && Step(s, p, choice) == Some(s')
    ensures MapsFollow(s, p, choice, s')
  {
    StepAt(s, p, choice);
    hide Step, RegionOf, Finish;
  }

  lemma DialInEmbeddedMaps(s: World, p: Pid, choice: Choice, s': World)
    requires p in s.procs && s.procs[p].pc.DialInEmbedded? && Step(s, p, choice) == Some(s')
    ensures MapsFollow(s, p, choice, s')
  {
    StepAt(s, p, choice);
    hide Step, RegionOf, Finish;
  }

  lemma WinInMaps(s: World, p: Pid, choice: Choice, s': World)
    requires p in s.procs && s.procs[p].pc.WinIn? && Step(s, p, choice) == Some(s')
    ensures MapsFollow(s, p, choice, s')
  {
    RaceStepAt(s, p, choice);
    hide Step, RegionOf, Finish;
  }

  lemma ClearInMaps(s: World, p: Pid, choice: Choice, s': World)
    requires p in s.procs && s.procs[p].pc.ClearIn? && Step(s, p, choice) == Some(s')
    ensures MapsFollow(s, p, choice, s')
  {
    RaceStepAt(s, p, choice);
    hide Step, RegionOf, Finish;
  }

  lemma StoreInMaps(s: World, p: Pid, choice: Choice, s': World)
    requires p in s.procs && s.procs[p].pc.StoreIn? && Step(s, p, choice) == Some(s')
    ensures MapsFollow(s, p, choice, s')
  {
    RaceStepAt(s, p, choice);
    hide Step, RegionOf, Finish;
  }

  predicate LeavesMaps(pc: PC) {
    || pc.Publishing? || pc.Aborting? || pc.Flight? || pc.DialInKinds? || pc.LookupIn? || pc.Starting? || pc.Waiting?
    || pc.Storing? || pc.QuicTry? || pc.Sending?
  }

  lemma OthersLeaveTheMaps(s: World, p: Pid, choice: Choice, s': World)
    requires p in s.procs && Step(s, p, choice) == Some(s') && (Wants(s.procs[p].pc).Some? || LeavesMaps(s.procs[p].pc))
    ensures s'.c == s.c && s'.protocols == s.protocols
  {
    StepAt(s, p, choice);
    RaceStepAt(s, p, choice);
    if !s.procs[p].pc.QuicTry? && !s.procs[p].pc.Storing? {
      hide Step;
    }
    hide RegionOf, Finish, Granted;
  }

  lemma NothingChanges(s: World, p: Pid, choice: Choice, s': World)
    requires p in s.procs && (Wants(s.procs[p].pc).Some? || LeavesMaps(s.procs[p].pc))
    requires s'.c == s.c && s'.protocols == s.protocols
    ensures MapsFollow(s, p, choice, s')
  {
  }

  /** Every step, on the four maps. */
  lemma WhatChangesTheMaps(s: World, p: Pid, choice: Choice, s': World)
    requires p in s.procs && Step(s, p, choice) == Some(s')
    ensures MapsFollow(s, p, choice, s')
  {
    RaceStepAt(s, p, choice);
    hide Step, MapsFollow;
    match s.procs[p].pc {
      case InTransports => InTransportsMaps(s, p, choice, s');
      case InSetup => InSetupMaps(s, p, choice, s');
      case InKinds(_) => InKindsMaps(s, p, choice, s');
      case Stashing(_) => StashingMaps(s, p, choice, s');
      case DropInTransports(_) => DropInTransportsMaps(s, p, choice, s');
      case DropInKinds => DropInKindsMaps(s, p, choice, s');
      case DialInEmbedded(_, _) => DialInEmbeddedMaps(s, p, choice, s');
      case WinIn(_) => WinInMaps(s, p, choice, s');
      case ClearIn => ClearInMaps(s, p, choice, s');
      case StoreIn(_) => StoreInMaps(s, p, choice, s');
      case _ =>
        OthersLeaveTheMaps(s, p, choice, s');
        NothingChanges(s, p, choice, s');
    }
  }

  // The other steps of a race and of a dial

  /** Both attempts start at once, each with nothing sent, and the request waits for them. */
  lemma HowRacesStart(s: World, p: Pid, choice: Choice, s': World)
    requires p in s.procs && s.procs[p].pc.Starting? && Step(s, p, choice) == Some(s')
    ensures choice.Fork? && choice.quic !in s.procs && choice.tcp !in s.procs
    ensures p in s'.races && s'.races[p] == Race(choice.quic, choice.tcp, [], []) && s'.c == s.c
    ensures var pr := s.procs[p];
            && p in s'.procs && s'.procs[p] == pr.(pc := Waiting(0, None))
            && choice.quic in s'.procs && choice.tcp in s'.procs
            && s'.procs[choice.quic] == Proc(pr.addr, pr.scheme, QuicAttempt(p), QuicTry)
            && s'.procs[choice.tcp] == Proc(pr.addr, pr.scheme, TcpAttempt(p), WantTransports)
  {
    RaceStepAt(s, p, choice);
    hide Step;
  }

  /** An attempt adds its result at the end of its own race's channel. */
  lemma HowResultsAreSent(s: World, p: Pid, choice: Choice, s': World)
    requires p in s.procs && s.procs[p].pc.Sending? && Step(s, p, choice) == Some(s')
    requires IsAttempt(s.procs[p].who)
    ensures var w, result := s.procs[p].who.race, s.procs[p].pc.result;
            && w in s.races && p in s'.procs && s'.procs[p].pc == Sent(result)
            && s'.races == s.races[w := s.races[w].(channel := s.races[w].channel + [result],
                                                   log := s.races[w].log + [result])]
  {
    RaceStepAt(s, p, choice);
    hide Step;
  }

  /** The answer a race is won with is the one returned; HTTP/3 is stored first if it can be built again. */
  lemma HowRacesAreWon(s: World, p: Pid, choice: Choice, s': World)
    requires p in s.procs && Step(s, p, choice) == Some(s') && p in s'.procs
    ensures match s.procs[p].pc
            case WinWant(win) => s'.procs[p].pc == WinIn(win)
            case WinIn(win) => s'.procs[p].pc == if win.protocol == H3 then Storing(win) else Won(win)
            case Storing(win) => choice.Builds? && s'.procs[p].pc == if choice.ok then StoreWant(win) else Won(win)
            case StoreWant(win) => s'.procs[p].pc == StoreIn(win)
            case StoreIn(win) => s'.procs[p].pc == Won(win)
            case _ => true
  {
    StepAt(s, p, choice);
    RaceStepAt(s, p, choice);
    if !s.procs[p].pc.Storing? {
      hide Step;
    }
    hide RegionOf;
  }

  /** A dial takes the stashed connection if there is one; otherwise it fails without a connection, and with
      one it asks which kind is recorded. Only a kind that is not the recorded one marks its transport. */
  lemma HowDialsEnd(s: World, p: Pid, choice: Choice, s': World)
    requires p in s.procs && Step(s, p, choice) == Some(s') && p in s'.procs
    ensures var a, pc, pc' := s.procs[p].addr, s.procs[p].pc, s'.procs[p].pc;
            && (pc.DialInEmbedded? ==>
                  && s'.h.failed == s.h.failed
                  && pc' == if a in s.c.stash then DialGot(pc.t, pc.own, s.c.stash[a])
                            else if choice.Handshake? then DialWantKinds(pc.t, pc.own, choice.kind)
                            else DialFailed(pc.t))
            && (pc.DialInKinds? ==>
                  var fits := a in s.c.kinds && s.c.kinds[a] == pc.kind;
                  && pc' == (if fits then DialGot(pc.t, pc.own, pc.kind) else DialFailed(pc.t))
                  && s'.h.failed == if fits then s.h.failed else s.h.failed + {pc.t})
  {
    StepAt(s, p, choice);
    var pc := s.procs[p].pc;
    if pc.DialInEmbedded? || pc.DialInKinds? {
      hide Step;
    }
    hide RegionOf;
  }

  /** A first dial fails without a connection and when an HTTP/3 transport cannot be built, and leaves the cache
      lock to the end of the attempt; otherwise its transport is recorded, stashed and published in turn. */
  lemma HowSetUpsGo(s: World, p: Pid, choice: Choice, s': World)
    requires p in s.procs && Step(s, p, choice) == Some(s') && p in s'.procs
    ensures match s.procs[p].pc
            case InSetup =>
              if s.procs[p].addr in s.c.stash then s'.procs[p].pc == Panicked
              else if choice.Handshake? && (choice.kind != Http3 || choice.builds)
              then s'.procs[p].pc == WantKinds(Transport(s.c.nextId, s.procs[p].addr, choice.kind))
              else s'.procs[p].pc == Aborting
            case InKinds(t) => s'.procs[p].pc == Stashing(t)
            case Stashing(t) => s'.procs[p].pc == Publishing
            case DropInTransports(t) => s'.procs[p].pc == DropWantKinds
            case ClearIn => s'.procs[p].pc == Starting
            case InTransports =>
              var key := if s.procs[p].who == Cached(H3) then ByAddrQuic(s.procs[p].addr) else ByAddr(s.procs[p].addr);
              if key in s.c.transports then s'.procs[p].pc == Publishing
              else if s.procs[p].who == Cached(H3) then
                choice.Builds? && s'.procs[p].pc == if choice.ok then Publishing else Aborting
              else if s.procs[p].scheme == Http then s'.procs[p].pc == Publishing
              else if s.procs[p].scheme == Https then s'.procs[p].pc == WantEmbedded
              else EndsAs(s.procs[p].who, Failure(BadScheme), s'.procs[p].pc)
            case _ => true
  {
    StepAt(s, p, choice);
    RaceStepAt(s, p, choice);
    var pc := s.procs[p].pc;
    if pc.InSetup? || pc.InKinds? || pc.Stashing? || pc.DropInTransports? || pc.ClearIn? || pc.InTransports? {
      hide Step;
    }
    hide RegionOf;
  }

  // The network is free

  /** Nothing but the state of the maps decides what a dial, a reply, a build or the deadline may bring. */
  lemma EveryDialCanHappen(s: World, p: Pid, kind: Kind, ok: bool)
    requires p in s.procs && (s.procs[p].pc.InSetup? || s.procs[p].pc.DialInEmbedded?)
    ensures if s.procs[p].addr in s.c.stash then Step(s, p, Go).Some?
            else Step(s, p, NoConnection).Some? && Step(s, p, Handshake(kind, ok)).Some?
  {
    StepAt(s, p, Go);
    StepAt(s, p, NoConnection);
    StepAt(s, p, Handshake(kind, ok));
    hide Step, RegionOf;
  }

  lemma EveryOutcomeCanHappen(s: World, p: Pid, ok: bool, outcome: Outcome, quic: Pid, tcp: Pid)
    requires p in s.procs
    ensures var pr, pc := s.procs[p], s.procs[p].pc;
            && (pc.Flight? ==>
                  (Step(s, p, Reply(outcome)).Some? <==> outcome != Failure(ProtocolChanged) || pc.t in s.h.failed))
            && (pc.QuicTry? ==> (Step(s, p, Reply(outcome)).Some? <==> outcome != Failure(ProtocolChanged)))
            && (pc.Storing? ==> Step(s, p, Builds(ok)).Some?)
            && (pc.InTransports? && pr.who == Cached(H3) && ByAddrQuic(pr.addr) !in s.c.transports ==>
                  Step(s, p, Builds(ok)).Some?)
            && (pc.Waiting? && pc.i < 2 ==> Step(s, p, Expire).Some?)
            && (pc.Starting? && quic !in s.procs && tcp !in s.procs && quic != tcp ==>
                  Step(s, p, Fork(quic, tcp)).Some?)
  {
    StepAt(s, p, Reply(outcome));
    StepAt(s, p, Builds(ok));
    RaceStepAt(s, p, Expire);
    RaceStepAt(s, p, Fork(quic, tcp));
    var pc := s.procs[p].pc;
    if !pc.QuicTry? && !pc.Storing? {
      hide Step;
    }
    hide RegionOf, Finish;
  }

  /** A racing https request looks up the recorded protocol; every other request goes to the cache; and any
      transport that was ever handed out may dial, except those of HTTP/3. */
  lemma HowGoroutinesBegin(s: World, p: Pid, addr: Addr, scheme: Scheme, racing: bool, t: Transport)
    requires p !in s.procs
    ensures var pr := if racing && scheme == Https then Proc(addr, scheme, Racing, LookupWant)
                      else Proc(addr, scheme, Plain, WantTransports);
            Apply(s, Arrive(p, addr, scheme, racing)) == Some(s.(procs := s.procs[p := pr]))
    ensures var pr := Proc(t.addr, Https, Dialing, DialWantEmbedded(t));
            Apply(s, Dial(p, t)) ==
              if t in s.h.issued && t.kind != Http3 then Some(s.(procs := s.procs[p := pr])) else None
  {
  }
}
