/** Racing HTTP/3 against HTTP/2: the channel of capacity two, the two attempts and the waiter. */
module TransportCacheRace {
  import opened Wrappers
  import opened TransportCache
  import opened TransportCacheSafety
  import opened TransportCacheTheorems
  import opened TransportCacheRuns

  /** Where a goroutine of each role can be. */
  datatype Stage = Look | Obtain | Dials | Clear | Wait | Win | Answered | Attempt | Send | End

  function StageOf(pc: PC): Stage {
    if pc.LookupWant? || pc.LookupIn? then Look
    else if pc.DialWantEmbedded? || pc.DialInEmbedded? || pc.DialWantKinds? || pc.DialInKinds?
            || pc.DialGot? || pc.DialFailed?
    then Dials
    else if pc.ClearWant? || pc.ClearIn? then Clear
    else if pc.Starting? || pc.Waiting? then Wait
    else if pc.WinWant? || pc.WinIn? then Win
    else if pc.Storing? || pc.StoreWant? || pc.StoreIn? || pc.Won? then Answered
    else if pc.QuicTry? then Attempt
    else if pc.Sending? || pc.Sent? then Send
    else if pc.Done? then End
    else Obtain
  }

  predicate IsAttempt(who: Who) {
    who.QuicAttempt? || who.TcpAttempt?
  }

  predicate Fitting(who: Who, pc: PC) {
    var stage := StageOf(pc);
    match who
    case QuicAttempt(_) => stage.Attempt? || (stage.Send? && pc.result.protocol == H3)
    case TcpAttempt(_) => stage.Obtain? || (stage.Send? && pc.result.protocol == H2)
    case Plain => stage.Obtain? || stage.End?
    case Racing => stage.Look? || stage.Wait? || stage.Win? || stage.Answered? || stage.End?
    case Cached(_) => stage.Obtain? || stage.Clear? || stage.Wait? || stage.Win? || stage.Answered? || stage.End?
    case Dialing => stage.Dials?
  }

  /** The channel log holds exactly the results of the attempts that have sent, in either order. */
  predicate LogFits(quic: PC, tcp: PC, log: seq<RacingResult>) {
    if quic.Sent? then
      (if tcp.Sent? then log == [quic.result, tcp.result] || log == [tcp.result, quic.result] else log == [quic.result])
    else if tcp.Sent? then log == [tcp.result]
    else log == []
  }

  /** The channel is what was sent and not yet received. */
  predicate Unread(race: Race) {
    |race.channel| <= |race.log| && race.channel == race.log[|race.log| - |race.channel|..]
  }

  ghost predicate RaceFits(s: World, w: Pid) {
    w in s.races && Unread(s.races[w]) &&
    var race := s.races[w];
    && race.quic in s.procs && race.tcp in s.procs && w in s.procs && race.quic != w && race.tcp != w
    && s.procs[race.quic].who == QuicAttempt(w) && s.procs[race.tcp].who == TcpAttempt(w)
    && LogFits(s.procs[race.quic].pc, s.procs[race.tcp].pc, race.log)
  }

  predicate Started(pc: PC) {
    var stage := StageOf(pc);
    pc.Waiting? || stage.Win? || stage.Answered? || stage.End?
  }

  /** What the goroutine `p` itself contributes. */
  ghost predicate PlaysPart(s: World, p: Pid, pr: Proc) {
    && Fitting(pr.who, pr.pc)
    && (pr.who.QuicAttempt? ==> pr.who.race in s.races && s.races[pr.who.race].quic == p)
    && (pr.who.TcpAttempt? ==> pr.who.race in s.races && s.races[pr.who.race].tcp == p)
    && (p in s.races ==> Started(pr.pc) && !IsAttempt(pr.who))
    && (pr.who.Cached? && (pr.pc.Starting? || p in s.races) ==> p in s.h.cleared)
    && match pr.pc
       case Waiting(i, _) => p in s.races && i + |s.races[p].channel| == |s.races[p].log|
       case WinWant(win) => p in s.races && win in s.races[p].log && win.outcome.Answer?
       case WinIn(win) => p in s.races && win in s.races[p].log && win.outcome.Answer?
       case Storing(win) => Earned(s, p, pr, win)
       case StoreWant(win) => Earned(s, p, pr, win)
       case StoreIn(win) => Earned(s, p, pr, win)
       case Won(win) => Earned(s, p, pr, win)
       case _ => true
  }

  /** The response was sent by an attempt, and its protocol is recorded for the address. */
  ghost predicate Earned(s: World, p: Pid, pr: Proc, win: RacingResult) {
    p in s.races && win in s.races[p].log && win.outcome.Answer? && (p, pr.addr, win.protocol) in s.h.recorded
  }

  ghost predicate RaceInv(s: World) {
    && (forall w <- s.races :: RaceFits(s, w))
    && (forall p <- s.procs :: PlaysPart(s, p, s.procs[p]))
  }

  /** A step that neither sends nor receives, starts a race nor ends one. */
  ghost predicate Quiet(s: World, p: Pid, s': World) {
    && p in s.procs && p in s'.procs && s'.races == s.races
    && s'.procs == s.procs[p := s'.procs[p]]
    && s'.procs[p].addr == s.procs[p].addr
    && (IsAttempt(s.procs[p].who) ==> s'.procs[p].who == s.procs[p].who)
    && !s.procs[p].pc.Sent? && !s'.procs[p].pc.Sent? && PlaysPart(s', p, s'.procs[p])
    && s.h.cleared <= s'.h.cleared && s.h.recorded <= s'.h.recorded
  }

  lemma QuietKeepsRace(s: World, p: Pid, s': World, w: Pid)
    requires RaceFits(s, w) && Quiet(s, p, s')
    ensures RaceFits(s', w)
  {
    hide PlaysPart, Unread;
  }

  lemma QuietKeepsPart(s: World, p: Pid, s': World, q: Pid)
    requires q in s.procs && q != p && PlaysPart(s, q, s.procs[q]) && Quiet(s, p, s')
    ensures q in s'.procs && PlaysPart(s', q, s'.procs[q])
  {
    hide Fitting, StageOf;
  }

  lemma QuietKeepsRaces(s: World, p: Pid, s': World)
    requires RaceInv(s) && Quiet(s, p, s')
    ensures RaceInv(s')
  {
    hide LogFits;
    hide RaceFits, PlaysPart;
    forall w <- s'.races ensures RaceFits(s', w) {
      QuietKeepsRace(s, p, s', w);
    }
    forall q <- s'.procs ensures PlaysPart(s', q, s'.procs[q]) {
      if q != p {
        QuietKeepsPart(s, p, s', q);
      }
    }
  }

  lemma GrantedStage(s: World, pc: PC)
    requires Wants(pc).Some?
    ensures StageOf(Granted(s, pc)) == StageOf(pc) && !StageOf(pc).Send? && !StageOf(pc).Wait?
  {
  }

  lemma AcquireIsQuiet(s: World, p: Pid, l: Lock, s': World)
    requires p in s.procs && Wants(s.procs[p].pc) == Some(l) && AcquireStep(s, p, l) == Some(s')
    requires PlaysPart(s, p, s.procs[p])
    ensures Quiet(s, p, s')
  {
    GrantedStage(s, s.procs[p].pc);
    StageAt(s.procs[p].pc);
    StageAt(s'.procs[p].pc);
    hide StageOf, RegionOf;
    match l
    case TransportsLck =>
    case Embedded =>
    case KindsLck =>
    case ProtocolMu =>
  }

  /** The stages, spelled out once so that the proofs about single steps need not unfold them. */
  lemma StageAt(pc: PC)
    ensures (pc.WantTransports? || pc.InTransports? || pc.WantEmbedded? || pc.InSetup? || pc.WantKinds? || pc.InKinds?
             || pc.Stashing? || pc.Publishing? || pc.Aborting? || pc.Flight? || pc.DropWantTransports?
             || pc.DropInTransports? || pc.DropWantKinds? || pc.DropInKinds? || pc.Panicked?) ==> StageOf(pc).Obtain?
    ensures (pc.DialWantEmbedded? || pc.DialInEmbedded? || pc.DialWantKinds? || pc.DialInKinds? || pc.DialGot?
             || pc.DialFailed?) ==> StageOf(pc).Dials?
    ensures (pc.LookupWant? || pc.LookupIn?) ==> StageOf(pc).Look?
    ensures (pc.ClearWant? || pc.ClearIn?) ==> StageOf(pc).Clear?
    ensures (pc.Starting? || pc.Waiting?) ==> StageOf(pc).Wait?
    ensures (pc.WinWant? || pc.WinIn?) ==> StageOf(pc).Win?
    ensures (pc.Storing? || pc.StoreWant? || pc.StoreIn? || pc.Won?) ==> StageOf(pc).Answered?
    ensures pc.QuicTry? ==> StageOf(pc).Attempt?
    ensures (pc.Sending? || pc.Sent?) ==> StageOf(pc).Send?
    ensures pc.Done? ==> StageOf(pc).End?
  {
  }

  lemma InTransportsIsQuiet(s: World, p: Pid, choice: Choice, s': World)
    requires p in s.procs && s.procs[p].pc == InTransports && InTransportsStep(s, p, choice) == Some(s')
    requires PlaysPart(s, p, s.procs[p])
    ensures Quiet(s, p, s')
  {
    StageAt(s.procs[p].pc);
    StageAt(s'.procs[p].pc);
    hide RegionOf, StageOf;
  }

  lemma InSetupIsQuiet(s: World, p: Pid, choice: Choice, s': World)
    requires p in s.procs && s.procs[p].pc == InSetup && InSetupStep(s, p, choice) == Some(s')
    requires PlaysPart(s, p, s.procs[p])
    ensures Quiet(s, p, s')
  {
    StageAt(s.procs[p].pc);
    StageAt(s'.procs[p].pc);
    hide RegionOf, StageOf;
  }

  lemma InKindsIsQuiet(s: World, p: Pid, t: Transport, s': World)
    requires p in s.procs && s.procs[p].pc == InKinds(t) && InKindsStep(s, p, t) == Some(s')
    requires PlaysPart(s, p, s.procs[p])
    ensures Quiet(s, p, s')
  {
    StageAt(s.procs[p].pc);
    StageAt(s'.procs[p].pc);
    hide RegionOf, StageOf;
  }

  lemma StashingIsQuiet(s: World, p: Pid, t: Transport, s': World)
    requires p in s.procs && s.procs[p].pc == Stashing(t) && StashingStep(s, p, t) == Some(s')
    requires PlaysPart(s, p, s.procs[p])
    ensures Quiet(s, p, s')
  {
    StageAt(s.procs[p].pc);
    StageAt(s'.procs[p].pc);
    hide RegionOf, StageOf;
  }

  lemma PublishingIsQuiet(s: World, p: Pid, s': World)
    requires p in s.procs && s.procs[p].pc == Publishing && PublishingStep(s, p) == Some(s')
    requires PlaysPart(s, p, s.procs[p])
    ensures Quiet(s, p, s')
  {
    StageAt(s.procs[p].pc);
    StageAt(s'.procs[p].pc);
    hide RegionOf, StageOf;
  }

  lemma AbortingIsQuiet(s: World, p: Pid, s': World)
    requires p in s.procs && s.procs[p].pc == Aborting && AbortingStep(s, p) == Some(s')
    requires PlaysPart(s, p, s.procs[p])
    ensures Quiet(s, p, s')
  {
    StageAt(s.procs[p].pc);
    StageAt(s'.procs[p].pc);
    hide RegionOf, StageOf;
  }

  lemma FlightIsQuiet(s: World, p: Pid, t: Transport, outcome: Outcome, s': World)
    requires p in s.procs && s.procs[p].pc == Flight(t) && FlightStep(s, p, t, outcome) == Some(s')
    requires PlaysPart(s, p, s.procs[p])
    ensures Quiet(s, p, s')
  {
    StageAt(s.procs[p].pc);
    StageAt(s'.procs[p].pc);
    hide RegionOf, StageOf;
  }

  lemma DropInTransportsIsQuiet(s: World, p: Pid, t: Transport, s': World)
    requires p in s.procs && s.procs[p].pc == DropInTransports(t) && DropInTransportsStep(s, p, t) == Some(s')
    requires PlaysPart(s, p, s.procs[p])
    ensures Quiet(s, p, s')
  {
    StageAt(s.procs[p].pc);
    StageAt(s'.procs[p].pc);
    hide RegionOf, StageOf;
  }

  lemma DropInKindsIsQuiet(s: World, p: Pid, s': World)
    requires p in s.procs && s.procs[p].pc == DropInKinds && DropInKindsStep(s, p) == Some(s')
    requires PlaysPart(s, p, s.procs[p])
    ensures Quiet(s, p, s')
  {
    StageAt(s.procs[p].pc);
    StageAt(s'.procs[p].pc);
    hide RegionOf, StageOf;
  }

  lemma DialInEmbeddedIsQuiet(s: World, p: Pid, t: Transport, own: bool, choice: Choice, s': World)
    requires p in s.procs && s.procs[p].pc == DialInEmbedded(t, own)
    requires DialInEmbeddedStep(s, p, t, own, choice) == Some(s')
    requires PlaysPart(s, p, s.procs[p])
    ensures Quiet(s, p, s')
  {
    StageAt(s.procs[p].pc);
    StageAt(s'.procs[p].pc);
    hide RegionOf, StageOf;
  }

  lemma DialInKindsIsQuiet(s: World, p: Pid, t: Transport, own: bool, kind: Kind, s': World)
    requires p in s.procs && s.procs[p].pc == DialInKinds(t, own, kind)
    requires DialInKindsStep(s, p, t, own, kind) == Some(s')
    requires PlaysPart(s, p, s.procs[p])
    ensures Quiet(s, p, s')
  {
    StageAt(s.procs[p].pc);
    StageAt(s'.procs[p].pc);
    hide RegionOf, StageOf;
  }

  lemma LookupInIsQuiet(s: World, p: Pid, s': World)
    requires p in s.procs && s.procs[p].pc == LookupIn && LookupInStep(s, p) == Some(s')
    requires PlaysPart(s, p, s.procs[p])
    ensures Quiet(s, p, s')
  {
    StageAt(s.procs[p].pc);
    StageAt(s'.procs[p].pc);
    hide RegionOf, StageOf;
  }

  lemma ClearInIsQuiet(s: World, p: Pid, s': World)
    requires p in s.procs && s.procs[p].pc == ClearIn && ClearInStep(s, p) == Some(s')
    requires PlaysPart(s, p, s.procs[p])
    ensures Quiet(s, p, s')
  {
    StageAt(s.procs[p].pc);
    StageAt(s'.procs[p].pc);
    hide RegionOf, StageOf;
  }

  lemma WinInIsQuiet(s: World, p: Pid, win: RacingResult, s': World)
    requires p in s.procs && s.procs[p].pc == WinIn(win) && WinInStep(s, p, win) == Some(s')
    requires PlaysPart(s, p, s.procs[p])
    ensures Quiet(s, p, s')
  {
    StageAt(s.procs[p].pc);
    StageAt(s'.procs[p].pc);
    hide RegionOf, StageOf;
  }

  lemma StoringIsQuiet(s: World, p: Pid, win: RacingResult, choice: Choice, s': World)
    requires p in s.procs && s.procs[p].pc == Storing(win) && Step(s, p, choice) == Some(s')
    requires PlaysPart(s, p, s.procs[p])
    ensures Quiet(s, p, s')
  {
    StageAt(s.procs[p].pc);
    StageAt(s'.procs[p].pc);
    hide RegionOf, StageOf;
  }

  lemma StoreInIsQuiet(s: World, p: Pid, win: RacingResult, s': World)
    requires p in s.procs && s.procs[p].pc == StoreIn(win) && StoreInStep(s, p, win) == Some(s')
    requires PlaysPart(s, p, s.procs[p])
    ensures Quiet(s, p, s')
  {
    StageAt(s.procs[p].pc);
    StageAt(s'.procs[p].pc);
    hide RegionOf, StageOf;
  }

  lemma QuicTryIsQuiet(s: World, p: Pid, choice: Choice, s': World)
    requires p in s.procs && s.procs[p].pc == QuicTry && Step(s, p, choice) == Some(s')
    requires PlaysPart(s, p, s.procs[p])
    ensures Quiet(s, p, s')
  {
    StageAt(s.procs[p].pc);
    StageAt(s'.procs[p].pc);
    hide RegionOf, StageOf;
  }

  // The steps that fork, send and receive

  /** Between two worlds the log of `q`'s race may grow, by as much as its channel does. */
  ghost predicate Grows(s: World, s': World, q: Pid) {
    && (forall w <- s.races ::
          && w in s'.races && s'.races[w].quic == s.races[w].quic && s'.races[w].tcp == s.races[w].tcp
          && s.races[w].log <= s'.races[w].log)
    && (q in s'.races ==>
          && q in s.races
          && |s'.races[q].log| - |s.races[q].log| == |s'.races[q].channel| - |s.races[q].channel|)
    && s'.h == s.h
  }

  lemma PartSurvives(s: World, s': World, q: Pid)
    requires q in s.procs && q in s'.procs && s'.procs[q] == s.procs[q]
    requires PlaysPart(s, q, s.procs[q]) && Grows(s, s', q)
    ensures PlaysPart(s', q, s'.procs[q])
  {
    hide Fitting, StageOf;
  }

  lemma RaceSurvives(s: World, p: Pid, s': World, w: Pid)
    requires RaceFits(s, w) && w in s'.races && s'.races[w] == s.races[w]
    requires p in s.procs && p in s'.procs && s'.procs[p].who == s.procs[p].who
    requires IsAttempt(s.procs[p].who) ==> s.procs[p].who.race != w
    requires forall q <- s.procs | q != p :: q in s'.procs && s'.procs[q] == s.procs[q]
    ensures RaceFits(s', w)
  {
    hide Unread;
  }

  lemma ForkShape(s: World, p: Pid, quic: Pid, tcp: Pid, s': World)
    requires p in s.procs && StartingStep(s, p, quic, tcp) == Some(s')
    ensures quic != p && tcp != p && {p, quic, tcp} <= s'.procs.Keys
    ensures p in s'.races && s'.races[p] == Race(quic, tcp, [], [])
    ensures s'.procs[quic].who == QuicAttempt(p) && s'.procs[quic].pc.QuicTry?
    ensures s'.procs[tcp].who == TcpAttempt(p) && s'.procs[tcp].pc.WantTransports?
  {
    hide RegionOf;
  }

  lemma Fork(s: World, p: Pid, quic: Pid, tcp: Pid, s': World)
    requires p in s.procs && s.procs[p].pc.Starting? && StartingStep(s, p, quic, tcp) == Some(s')
    ensures RaceFits(s', p)
  {
    hide StartingStep, RegionOf, Unread, LogFits;
    ForkShape(s, p, quic, tcp, s');
    NothingSent(s'.races[p]);
  }

  lemma NothingSent(race: Race)
    requires race.channel == race.log == []
    ensures Unread(race) && forall quic: PC, tcp: PC | !quic.Sent? && !tcp.Sent? :: LogFits(quic, tcp, race.log)
  {
  }

  lemma ForkEffect(s: World, p: Pid, quic: Pid, tcp: Pid, s': World)
    requires p in s.procs && StartingStep(s, p, quic, tcp) == Some(s')
    ensures quic !in s.procs && tcp !in s.procs && s'.procs.Keys == s.procs.Keys + {quic, tcp}
    ensures s'.procs[p].who == s.procs[p].who && forall q <- s.procs | q != p :: s'.procs[q] == s.procs[q]
    ensures s'.races.Keys == s.races.Keys + {p} && forall w <- s.races | w != p :: s'.races[w] == s.races[w]
  {
  }

  lemma ForkParts(s: World, p: Pid, quic: Pid, tcp: Pid, s': World)
    requires p in s.procs && s.procs[p].pc.Starting? && StartingStep(s, p, quic, tcp) == Some(s')
    requires PlaysPart(s, p, s.procs[p]) && quic !in s.races && tcp !in s.races
    ensures PlaysPart(s', p, s'.procs[p])
    ensures PlaysPart(s', quic, s'.procs[quic]) && PlaysPart(s', tcp, s'.procs[tcp])
  {
    StageAt(s.procs[p].pc);
    StageAt(s'.procs[p].pc);
    StageAt(s'.procs[quic].pc);
    StageAt(s'.procs[tcp].pc);
    hide StageOf, RegionOf;
  }

  lemma Popped(race: Race, race': Race)
    requires Unread(race) && race.channel != [] && race' == race.(channel := race.channel[1..])
    ensures Unread(race') && race.channel[0] in race.log
  {
    assert race.channel[0] == race.log[|race.log| - |race.channel|];
  }

  lemma Pushed(race: Race, result: RacingResult, race': Race)
    requires Unread(race) && race' == race.(channel := race.channel + [result], log := race.log + [result])
    ensures Unread(race')
  {
  }

  lemma Receives(s: World, p: Pid, i: nat, lastErr: Option<Error>, s': World)
    requires p in s.procs && s.procs[p].pc == Waiting(i, lastErr) && WaitingStep(s, p, i, lastErr, Receive) == Some(s')
    requires RaceFits(s, p) && PlaysPart(s, p, s.procs[p])
    ensures RaceFits(s', p) && PlaysPart(s', p, s'.procs[p])
  {
    hide LogFits;
    Popped(s.races[p], s'.races[p]);
    hide Unread;
    match s.races[p].channel[0].outcome
    case Answer(_) =>
    case Failure(_) =>
  }

  lemma GivesUp(s: World, p: Pid, i: nat, lastErr: Option<Error>, choice: Choice, s': World)
    requires p in s.procs && s.procs[p].pc == Waiting(i, lastErr) && WaitingStep(s, p, i, lastErr, choice) == Some(s')
    requires PlaysPart(s, p, s.procs[p]) && choice != Receive
    ensures Quiet(s, p, s')
  {
    hide LogFits;
    match choice
    case Expire =>
    case Go =>
    case _ =>
  }

  lemma LogGrows(quic: PC, tcp: PC, log: seq<RacingResult>, result: RacingResult)
    requires LogFits(quic, tcp, log)
    ensures quic.Sending? ==> LogFits(Sent(result), tcp, log + [result])
    ensures tcp.Sending? ==> LogFits(quic, Sent(result), log + [result])
  {
  }

  lemma Sends(s: World, p: Pid, result: RacingResult, s': World)
    requires p in s.procs && s.procs[p].pc == Sending(result) && SendingStep(s, p, result) == Some(s')
    requires PlaysPart(s, p, s.procs[p]) && RaceFits(s, s.procs[p].who.race)
    ensures RaceFits(s', s.procs[p].who.race)
  {
    hide Unread, Fitting, LogFits, RegionOf;
    var w := s.procs[p].who.race;
    var race := s.races[w];
    Pushed(race, result, s'.races[w]);
    LogGrows(s.procs[race.quic].pc, s.procs[race.tcp].pc, race.log, result);
  }

  lemma SenderIsDone(s: World, p: Pid, result: RacingResult, s': World)
    requires p in s.procs && s.procs[p].pc == Sending(result) && SendingStep(s, p, result) == Some(s')
    requires PlaysPart(s, p, s.procs[p])
    ensures PlaysPart(s', p, s'.procs[p])
  {
    hide LogFits;
  }

  lemma RacesHaveOwners(s: World)
    requires RaceInv(s)
    ensures s.races.Keys <= s.procs.Keys
  {
    hide Unread, LogFits, PlaysPart;
    forall w <- s.races ensures w in s.procs { assert RaceFits(s, w); }
  }

  lemma RacersAreRequests(s: World, p: Pid, pr: Proc)
    requires PlaysPart(s, p, pr) && (pr.pc.Starting? || pr.pc.Waiting?)
    ensures !IsAttempt(pr.who) && (p in s.races <==> pr.pc.Waiting?)
  {
    hide LogFits;
  }

  lemma ForkGrows(s: World, p: Pid, quic: Pid, tcp: Pid, s': World, q: Pid)
    requires p in s.procs && p !in s.races && StartingStep(s, p, quic, tcp) == Some(s') && q != p
    ensures Grows(s, s', q)
  {
  }

  lemma ReceiveGrows(s: World, p: Pid, i: nat, lastErr: Option<Error>, s': World, q: Pid)
    requires p in s.procs && WaitingStep(s, p, i, lastErr, Receive) == Some(s') && q != p
    ensures Grows(s, s', q)
  {
  }

  lemma SendGrows(s: World, p: Pid, result: RacingResult, s': World, q: Pid)
    requires p in s.procs && SendingStep(s, p, result) == Some(s')
    ensures Grows(s, s', q)
  {
  }

  lemma ForkKeepsFits(s: World, p: Pid, quic: Pid, tcp: Pid, s': World)
    requires RaceInv(s) && p in s.procs && s.procs[p].pc.Starting? && StartingStep(s, p, quic, tcp) == Some(s')
    requires !IsAttempt(s.procs[p].who)
    ensures forall w <- s'.races :: RaceFits(s', w)
  {
    hide PlaysPart, RaceFits;
    Fork(s, p, quic, tcp, s');
    ForkEffect(s, p, quic, tcp, s');
    hide StartingStep;
    forall w <- s'.races ensures RaceFits(s', w) {
      if w != p {
        RaceSurvives(s, p, s', w);
      }
    }
  }

  lemma ForkKeepsParts(s: World, p: Pid, quic: Pid, tcp: Pid, s': World)
    requires RaceInv(s) && p in s.procs && s.procs[p].pc.Starting? && StartingStep(s, p, quic, tcp) == Some(s')
    requires p !in s.races && quic !in s.races && tcp !in s.races
    ensures forall q <- s'.procs :: PlaysPart(s', q, s'.procs[q])
  {
    hide PlaysPart, RaceFits, Grows;
    ForkParts(s, p, quic, tcp, s');
    ForkEffect(s, p, quic, tcp, s');
    forall q | q in s.procs && q != p ensures Grows(s, s', q) {
      ForkGrows(s, p, quic, tcp, s', q);
    }
    hide StartingStep;
    forall q <- s'.procs ensures PlaysPart(s', q, s'.procs[q]) {
      if q in s.procs && q != p {
        PartSurvives(s, s', q);
      }
    }
  }

  lemma ForkKeepsRaces(s: World, p: Pid, quic: Pid, tcp: Pid, s': World)
    requires RaceInv(s) && p in s.procs && s.procs[p].pc.Starting? && StartingStep(s, p, quic, tcp) == Some(s')
    ensures RaceInv(s')
  {
    hide PlaysPart, RaceFits;
    RacesHaveOwners(s);
    assert PlaysPart(s, p, s.procs[p]);
    RacersAreRequests(s, p, s.procs[p]);
    ForkEffect(s, p, quic, tcp, s');
    ForkKeepsFits(s, p, quic, tcp, s');
    ForkKeepsParts(s, p, quic, tcp, s');
    hide StartingStep;
  }

  lemma WaitKeepsRaces(s: World, p: Pid, i: nat, lastErr: Option<Error>, choice: Choice, s': World)
    requires RaceInv(s) && p in s.procs && s.procs[p].pc == Waiting(i, lastErr)
    requires WaitingStep(s, p, i, lastErr, choice) == Some(s')
    ensures RaceInv(s')
  {
    hide LogFits;
    assert PlaysPart(s, p, s.procs[p]);
    if choice != Receive {
      GivesUp(s, p, i, lastErr, choice, s');
      QuietKeepsRaces(s, p, s');
    } else {
      ReceiveKeepsRaces(s, p, i, lastErr, s');
    }
  }

  lemma ReceiveKeepsRaces(s: World, p: Pid, i: nat, lastErr: Option<Error>, s': World)
    requires RaceInv(s) && p in s.procs && s.procs[p].pc == Waiting(i, lastErr)
    requires WaitingStep(s, p, i, lastErr, Receive) == Some(s')
    ensures RaceInv(s')
  {
    hide LogFits;
    hide RaceFits, Grows, PlaysPart, Fitting, StageOf, Unread, LogFits;
    assert PlaysPart(s, p, s.procs[p]) && RaceFits(s, p);
    RacersAreRequests(s, p, s.procs[p]);
    Receives(s, p, i, lastErr, s');
    forall w <- s'.races ensures RaceFits(s', w) {
      if w != p {
        assert RaceFits(s, w);
        RaceSurvives(s, p, s', w);
      }
    }
    forall q <- s'.procs ensures PlaysPart(s', q, s'.procs[q]) {
      if q != p {
        assert PlaysPart(s, q, s.procs[q]);
        ReceiveGrows(s, p, i, lastErr, s', q);
        PartSurvives(s, s', q);
      }
    }
  }

  lemma SendKeepsRaces(s: World, p: Pid, result: RacingResult, s': World)
    requires RaceInv(s) && p in s.procs && s.procs[p].pc == Sending(result)
    requires SendingStep(s, p, result) == Some(s')
    ensures RaceInv(s')
  {
    hide LogFits;
    hide RaceFits, Grows, PlaysPart, Fitting, StageOf, Unread, LogFits;
    var sent := s.procs[p].who.race;
    assert PlaysPart(s, p, s.procs[p]) && RaceFits(s, sent);
    Sends(s, p, result, s');
    SenderIsDone(s, p, result, s');
    forall w <- s'.races ensures RaceFits(s', w) {
      if w != sent {
        assert RaceFits(s, w);
        RaceSurvives(s, p, s', w);
      }
    }
    forall q <- s'.procs ensures PlaysPart(s', q, s'.procs[q]) {
      if q != p {
        assert PlaysPart(s, q, s.procs[q]);
        SendGrows(s, p, result, s', q);
        PartSurvives(s, s', q);
      }
    }
  }

  lemma StepIsQuiet(s: World, p: Pid, choice: Choice, s': World)
    requires p in s.procs && PlaysPart(s, p, s.procs[p]) && Step(s, p, choice) == Some(s')
    requires var pc := s.procs[p].pc; !pc.Starting? && !pc.Waiting? && !pc.Sending?
    ensures Quiet(s, p, s')
  {
    hide InTransportsStep, InSetupStep, InKindsStep, StashingStep, PublishingStep, AbortingStep;
    hide FlightStep, DropInTransportsStep, DropInKindsStep, DialInEmbeddedStep, DialInKindsStep;
    hide LookupInStep, ClearInStep, WinInStep, StoreInStep, AcquireStep;
    hide PlaysPart, Quiet;
    var pc := s.procs[p].pc;
    if Wants(pc).Some? {
      AcquireIsQuiet(s, p, Wants(pc).value, s');
    } else {
      match pc
      case InTransports => InTransportsIsQuiet(s, p, choice, s');
      case InSetup => InSetupIsQuiet(s, p, choice, s');
      case InKinds(t) => InKindsIsQuiet(s, p, t, s');
      case Stashing(t) => StashingIsQuiet(s, p, t, s');
      case Publishing => PublishingIsQuiet(s, p, s');
      case Aborting => AbortingIsQuiet(s, p, s');
      case Flight(t) => FlightIsQuiet(s, p, t, choice.outcome, s');
      case DropInTransports(t) => DropInTransportsIsQuiet(s, p, t, s');
      case DropInKinds => DropInKindsIsQuiet(s, p, s');
      case DialInEmbedded(t, own) => DialInEmbeddedIsQuiet(s, p, t, own, choice, s');
      case DialInKinds(t, own, kind) => DialInKindsIsQuiet(s, p, t, own, kind, s');
      case LookupIn => LookupInIsQuiet(s, p, s');
      case ClearIn => ClearInIsQuiet(s, p, s');
      case WinIn(win) => WinInIsQuiet(s, p, win, s');
      case Storing(win) => StoringIsQuiet(s, p, win, choice, s');
      case StoreIn(win) => StoreInIsQuiet(s, p, win, s');
      case QuicTry => QuicTryIsQuiet(s, p, choice, s');
      case _ =>
    }
  }

  lemma RacingSteps(s: World, p: Pid, choice: Choice, s': World)
    requires p in s.procs && Step(s, p, choice) == Some(s')
    ensures s.procs[p].pc.Starting? ==> choice.Fork? && StartingStep(s, p, choice.quic, choice.tcp) == Some(s')
    ensures s.procs[p].pc.Waiting? ==> WaitingStep(s, p, s.procs[p].pc.i, s.procs[p].pc.lastErr, choice) == Some(s')
    ensures s.procs[p].pc.Sending? ==> SendingStep(s, p, s.procs[p].pc.result) == Some(s')
  {
    hide StartingStep, WaitingStep, SendingStep;
  }

  lemma StepKeepsRaces(s: World, p: Pid, choice: Choice, s': World)
    requires RaceInv(s) && p in s.procs && Step(s, p, choice) == Some(s')
    ensures RaceInv(s')
  {
    assert PlaysPart(s, p, s.procs[p]);
    RacingSteps(s, p, choice, s');
    hide Step, StartingStep, WaitingStep, SendingStep, PlaysPart, RaceFits, Quiet, RaceInv;
    var pc := s.procs[p].pc;
    if pc.Starting? {
      ForkKeepsRaces(s, p, choice.quic, choice.tcp, s');
    } else if pc.Waiting? {
      WaitKeepsRaces(s, p, pc.i, pc.lastErr, choice, s');
    } else if pc.Sending? {
      SendKeepsRaces(s, p, pc.result, s');
    } else {
      StepIsQuiet(s, p, choice, s');
      QuietKeepsRaces(s, p, s');
    }
  }

  lemma ApplyKeepsRaces(s: World, e: Event, s': World)
    requires RaceInv(s) && Apply(s, e) == Some(s')
    ensures RaceInv(s')
  {
    hide RaceInv, Step, RegionOf;
    match e
    case Run(p, choice) => StepKeepsRaces(s, p, choice, s');
    case Arrive(p, _, _, _) =>
      StageAt(s'.procs[p].pc);
      NewcomerKeepsRaces(s, p, s');
    case Dial(p, _) =>
      StageAt(s'.procs[p].pc);
      NewcomerKeepsRaces(s, p, s');
  }

  lemma NewcomerKeepsRaces(s: World, p: Pid, s': World)
    requires RaceInv(s) && p !in s.procs && p in s'.procs && s' == s.(procs := s.procs[p := s'.procs[p]])
    requires !IsAttempt(s'.procs[p].who) && !s'.procs[p].who.Cached?
    requires Fitting(s'.procs[p].who, s'.procs[p].pc)
    requires var pc := s'.procs[p].pc; pc.LookupWant? || pc.WantTransports? || pc.DialWantEmbedded?
    ensures RaceInv(s')
  {
    hide LogFits, Unread, Fitting, StageOf;
    RacesHaveOwners(s);
    forall w <- s'.races ensures RaceFits(s', w) {
      assert RaceFits(s, w);
    }
    forall q <- s'.procs ensures PlaysPart(s', q, s'.procs[q]) {
      if q != p { assert PlaysPart(s, q, s.procs[q]); }
    }
  }

  lemma {:induction false} ReachableRaceInv(s: World, es: seq<Event>, s': World)
    requires RaceInv(s) && Exec(s, es) == Some(s')
    ensures RaceInv(s')
    decreases |es|
  {
    if es != [] {
      hide RaceInv, Apply;
      var next := Apply(s, es[0]).value;
      ApplyKeepsRaces(s, es[0], next);
      ReachableRaceInv(next, es[1..], s');
    }
  }

  lemma ReachableSatisfiesRaceInv(s: World)
    requires Reachable(s)
    ensures RaceInv(s)
  {
    var es :| Exec(INIT, es) == Some(s);
    ReachableRaceInv(INIT, es, s);
  }

  // What a caller of race may rely on

  lemma AttemptPlays(s: World, p: Pid, pr: Proc)
    requires PlaysPart(s, p, pr) && IsAttempt(pr.who)
    ensures pr.who.race in s.races && !pr.pc.Done? && !pr.pc.Won?
    ensures p == if pr.who.QuicAttempt? then s.races[pr.who.race].quic else s.races[pr.who.race].tcp
    ensures pr.pc.Sent? ==> pr.pc.result.protocol == if pr.who.QuicAttempt? then H3 else H2
  {
  }

  lemma InLog(quic: PC, tcp: PC, log: seq<RacingResult>, win: RacingResult)
    requires LogFits(quic, tcp, log) && win in log
    ensures quic == Sent(win) || tcp == Sent(win)
  {
  }

  /** A response that race returns was sent by one of its own two attempts, and before it is returned
      the protocol of that attempt is recorded for the address. */
  lemma WinnerIsAnAttempt(s: World, p: Pid, win: RacingResult)
    requires Reachable(s) && p in s.procs && s.procs[p].pc == Won(win)
    ensures win.outcome.Answer? && (p, s.procs[p].addr, win.protocol) in s.h.recorded
    ensures exists a <- s.procs ::
              && s.procs[a].pc == Sent(win)
              && s.procs[a].who == (if win.protocol == H3 then QuicAttempt(p) else TcpAttempt(p))
  {
    ReachableSatisfiesRaceInv(s);
    hide Reachable, RaceInv, PlaysPart, RaceFits;
    WonIsSent(s, p, win);
  }

  lemma WonIsSent(s: World, p: Pid, win: RacingResult)
    requires RaceInv(s) && p in s.procs && s.procs[p].pc == Won(win)
    ensures win.outcome.Answer? && (p, s.procs[p].addr, win.protocol) in s.h.recorded
    ensures exists a <- s.procs ::
              && s.procs[a].pc == Sent(win)
              && s.procs[a].who == (if win.protocol == H3 then QuicAttempt(p) else TcpAttempt(p))
  {
    hide Unread, LogFits, Fitting, StageOf;
    assert PlaysPart(s, p, s.procs[p]) && Earned(s, p, s.procs[p], win) && RaceFits(s, p);
    var race := s.races[p];
    var quic, tcp := s.procs[race.quic], s.procs[race.tcp];
    assert PlaysPart(s, race.quic, quic) && PlaysPart(s, race.tcp, tcp);
    hide RaceInv, PlaysPart;
    InLog(quic.pc, tcp.pc, race.log, win);
    AttemptPlays(s, race.quic, quic);
    AttemptPlays(s, race.tcp, tcp);
  }

  predicate SentBy(log: seq<RacingResult>, protocol: Protocol) {
    exists i | 0 <= i < |log| :: log[i].protocol == protocol
  }

  lemma LogIsShort(quic: PC, tcp: PC, log: seq<RacingResult>)
    requires LogFits(quic, tcp, log)
    requires quic.Sent? ==> quic.result.protocol == H3
    requires tcp.Sent? ==> tcp.result.protocol == H2
    ensures |log| <= 2 && (SentBy(log, H3) <==> quic.Sent?) && (SentBy(log, H2) <==> tcp.Sent?)
    ensures |log| == 2 ==> log[0].protocol != log[1].protocol && quic.Sent? && tcp.Sent?
  {
    if quic.Sent? && tcp.Sent? {
      assert log[0] in [quic.result, tcp.result] && log[1] in [quic.result, tcp.result];
    } else if quic.Sent? {
      assert log[0] == quic.result;
    } else if tcp.Sent? {
      assert log[0] == tcp.result;
    }
  }

  lemma LogOfRace(s: World, w: Pid)
    requires RaceInv(s) && w in s.races
    ensures RaceFits(s, w)
    ensures var race := s.races[w];
            && |race.log| <= 2
            && (SentBy(race.log, H3) <==> s.procs[race.quic].pc.Sent?)
            && (SentBy(race.log, H2) <==> s.procs[race.tcp].pc.Sent?)
            && (|race.log| == 2 ==>
                  && race.log[0].protocol != race.log[1].protocol
                  && s.procs[race.quic].pc.Sent? && s.procs[race.tcp].pc.Sent?)
  {
    assert RaceFits(s, w);
    var race := s.races[w];
    assert PlaysPart(s, race.quic, s.procs[race.quic]) && PlaysPart(s, race.tcp, s.procs[race.tcp]);
    hide LogFits, SentBy, PlaysPart, Unread, RaceInv;
    AttemptPlays(s, race.quic, s.procs[race.quic]);
    AttemptPlays(s, race.tcp, s.procs[race.tcp]);
    LogIsShort(s.procs[race.quic].pc, s.procs[race.tcp].pc, race.log);
  }

  /** However its waiter ended, an attempt that has a result can send it at once: the channel never
      fills. It ends nowhere but in having sent, and it has sent exactly one of the at most two results. */
  lemma AttemptsNeverBlock(s: World, p: Pid)
    requires Reachable(s) && p in s.procs && IsAttempt(s.procs[p].who)
    ensures s.procs[p].who.race in s.races && !s.procs[p].pc.Done? && !s.procs[p].pc.Won?
    ensures var log := s.races[s.procs[p].who.race].log;
            && |log| <= CHANNEL_CAPACITY && (|log| == 2 ==> log[0].protocol != log[1].protocol)
            && (s.procs[p].pc.Sent? <==> SentBy(log, if s.procs[p].who.QuicAttempt? then H3 else H2))
    ensures s.procs[p].pc.Sending? ==> SendingStep(s, p, s.procs[p].pc.result).Some?
  {
    hide LogFits;
    ReachableSatisfiesRaceInv(s);
    assert PlaysPart(s, p, s.procs[p]);
    AttemptPlays(s, p, s.procs[p]);
    hide SentBy, LogFits, RaceInv, Reachable, PlaysPart;
    LogOfRace(s, s.procs[p].who.race);
  }

  lemma RequestStepsStartNoRace(s: World, p: Pid, choice: Choice, s': World)
    requires p in s.procs && Step(s, p, choice) == Some(s') && p in s'.procs
    requires var pc := s.procs[p].pc;
             || pc.InTransports? || pc.InSetup? || pc.InKinds? || pc.Stashing? || pc.Publishing? || pc.Aborting?
             || pc.Flight?
    ensures !s'.procs[p].pc.Starting?
  {
    StepAt(s, p, choice);
    hide Step, RegionOf;
  }

  lemma DialStepsStartNoRace(s: World, p: Pid, choice: Choice, s': World)
    requires p in s.procs && Step(s, p, choice) == Some(s') && p in s'.procs
    requires Wants(s.procs[p].pc).None? && StageOf(s.procs[p].pc).Dials?
    ensures !s'.procs[p].pc.Starting?
  {
    hide RegionOf;
  }

  lemma RaceStepsStartNoRace(s: World, p: Pid, choice: Choice, s': World)
    requires p in s.procs && Step(s, p, choice) == Some(s') && p in s'.procs && Wants(s.procs[p].pc).None?
    requires var stage := StageOf(s.procs[p].pc); stage.Wait? || stage.Win? || stage.Answered?
    ensures !s'.procs[p].pc.Starting?
  {
    RacingSteps(s, p, choice, s');
    hide RegionOf;
  }

  /** The two critical sections of protocolCacheMu that end in a race. */
  lemma WhereRacesStart(s: World, p: Pid, choice: Choice, s': World)
    requires p in s.procs && Step(s, p, choice) == Some(s') && p in s'.procs
    ensures s'.procs[p].pc.Starting? ==> s.procs[p].pc.LookupIn? || s.procs[p].pc.ClearIn?
  {
    var pc := s.procs[p].pc;
    StageAt(s'.procs[p].pc);
    if Wants(pc).Some? {
      GrantedStage(s, pc);
      StepAt(s, p, choice);
    } else if pc.InTransports? || pc.InSetup? || pc.InKinds? || pc.Stashing? || pc.Publishing? || pc.Aborting?
              || pc.Flight? {
      hide Step;
      RequestStepsStartNoRace(s, p, choice, s');
    } else if StageOf(pc).Dials? {
      hide Step;
      DialStepsStartNoRace(s, p, choice, s');
    } else if StageOf(pc).Wait? || StageOf(pc).Win? || StageOf(pc).Answered? {
      hide Step;
      RaceStepsStartNoRace(s, p, choice, s');
    } else {
      hide RegionOf;
    }
  }

  /** A request that tried a recorded protocol and failed starts to race by the very step that forgets
      what was recorded for its address, and nothing else, under protocolCacheMu. */
  lemma FailedProtocolIsCleared(s: World, p: Pid, choice: Choice, s': World)
    requires Reachable(s) && p in s.procs && s.procs[p].who.Cached?
    requires Step(s, p, choice) == Some(s') && p in s'.procs && s'.procs[p].pc.Starting?
    ensures s.procs[p].addr !in s'.protocols && s'.protocols == s.protocols - {s.procs[p].addr}
    ensures s.procs[p].pc.ClearIn? && s.locks.protocol == Some(p)
  {
    ReachableSatisfiesRaceInv(s);
    ReachableSatisfiesInv(s);
    assert PlaysPart(s, p, s.procs[p]);
    StageAt(s.procs[p].pc);
    WhereRacesStart(s, p, choice, s');
    assert Holds(s.procs[p].pc, ProtocolMu) && s.locks.Owner(ProtocolMu) == Some(p);
    hide RaceInv, Inv, RegionOf, StageOf, Reachable;
  }

  /** While its race runs, the request has been through that step. */
  lemma RacersHaveCleared(s: World, p: Pid)
    requires Reachable(s) && p in s.procs && s.procs[p].who.Cached?
    ensures s.procs[p].pc.Starting? || p in s.races ==> p in s.h.cleared
  {
    ReachableSatisfiesRaceInv(s);
    assert PlaysPart(s, p, s.procs[p]);
  }
}
