/** The cache of transports that all goroutines of one client share: the maps
    `cachedTransports`, `cachedKinds`, `cachedConnections` and `protocolCache`, the four mutexes
    that guard them, and one program counter per goroutine.

    A step runs one goroutine from one point where it can be preempted to the next: it either takes
    one lock, or does the work of one critical section and gives back the locks that section no
    longer needs. The network is free to choose every outcome. */
module TransportCache {
  import opened Wrappers

  /** A dial address, the host and port of the URL; the port is 443 when the URL has none. */
  datatype Addr = Addr(host: string, port: string)

  type Pid = nat

  datatype Kind = Http1 | Http2 | Http3

  function KindForProtocol(protocol: string): Kind {
    if protocol == "h2" then Http2 else if protocol == "h3" then Http3 else Http1
  }

  lemma KindsOfProtocols(protocol: string)
    ensures KindForProtocol(protocol) == Http2 <==> protocol == "h2"
    ensures KindForProtocol(protocol) == Http3 <==> protocol == "h3"
  {
  }

  /** The two names the racer records as winners. */
  datatype Protocol = H2 | H3

  /** `cachedTransports` is keyed by the dial address, or by that address with ":h3" appended. */
  datatype Key = ByAddr(addr: Addr) | ByAddrQuic(addr: Addr)

  /** A transport is an object, so every one that is built gets an identity of its own. */
  datatype Transport = Transport(id: nat, addr: Addr, kind: Kind)

  datatype Lock = TransportsLck | Embedded | KindsLck | ProtocolMu

  /** Who holds each lock. */
  datatype Locks = Locks(transports: Option<Pid>, embedded: Option<Pid>, kinds: Option<Pid>, protocol: Option<Pid>) {
    function Owner(l: Lock): Option<Pid> {
      match l
      case TransportsLck => transports
      case Embedded => embedded
      case KindsLck => kinds
      case ProtocolMu => protocol
    }

    function Set(l: Lock, owner: Option<Pid>): Locks {
      match l
      case TransportsLck => this.(transports := owner)
      case Embedded => this.(embedded := owner)
      case KindsLck => this.(kinds := owner)
      case ProtocolMu => this.(protocol := owner)
    }
  }

  datatype Scheme = Http | Https | OtherScheme

  datatype Error = Refused | BadScheme | ProtocolChanged | RequestFailed | TimedOut

  datatype Outcome = Answer(response: nat) | Failure(error: Error)

  datatype RacingResult = RacingResult(protocol: Protocol, outcome: Outcome)

  /** On whose behalf a goroutine runs, which decides where it goes when an attempt ends. */
  datatype Who =
    | Plain                        // RoundTrip without a racer
    | Racing                       // race, no protocol recorded for the address
    | Cached(protocol: Protocol)   // race, trying the recorded protocol first
    | QuicAttempt(race: Pid)       // attemptHTTP3, started by the request `race`
    | TcpAttempt(race: Pid)        // attemptHTTP2, started by the request `race`
    | Dialing                      // a transport opening a replacement connection

  datatype PC =
    // looking up or building the transport of an address
    | WantTransports
    | InTransports
    | WantEmbedded
    | InSetup
    | WantKinds(t: Transport)
    | InKinds(t: Transport)
    | Stashing(t: Transport)
    | Publishing
    | Aborting
    // the transport's own RoundTrip
    | Flight(t: Transport)
    // dropCachedTransport
    | DropWantTransports(t: Transport)
    | DropInTransports(t: Transport)
    | DropWantKinds
    | DropInKinds
    // a reconnect dial; `own` records that the dialling transport was the cached one
    // when the dial took the embedded mutex
    | DialWantEmbedded(t: Transport)
    | DialInEmbedded(t: Transport, own: bool)
    | DialWantKinds(t: Transport, own: bool, kind: Kind)
    | DialInKinds(t: Transport, own: bool, kind: Kind)
    | DialGot(t: Transport, own: bool, kind: Kind)
    | DialFailed(t: Transport)
    // racing
    | LookupWant
    | LookupIn
    | ClearWant
    | ClearIn
    | Starting
    | Waiting(i: nat, lastErr: Option<Error>)
    | WinWant(win: RacingResult)
    | WinIn(win: RacingResult)
    | Storing(win: RacingResult)
    | StoreWant(win: RacingResult)
    | StoreIn(win: RacingResult)
    | Won(win: RacingResult)
    | QuicTry
    | Sending(result: RacingResult)
    | Sent(result: RacingResult)
    // the end of a request
    | Done(outcome: Outcome)
    | Panicked

  datatype Proc = Proc(addr: Addr, scheme: Scheme, who: Who, pc: PC)

  /** One race: its two attempts, the buffered channel, and every result ever put into it. */
  datatype Race = Race(quic: Pid, tcp: Pid, channel: seq<RacingResult>, log: seq<RacingResult>)

  const CHANNEL_CAPACITY := 2

  /** The maps of the round tripper. A connection in the stash is what it negotiated. */
  datatype Caches = Caches(
    transports: map<Key, Transport>,
    kinds: map<Addr, Kind>,
    stash: map<Addr, Kind>,
    nextId: nat)
  {
    /** The transport that would be built and cached under `key` now. */
    function Built(key: Key, kind: Kind): Transport {
      Transport(nextId, key.addr, kind)
    }

    function Put(key: Key, kind: Kind): Caches {
      this.(transports := transports[key := Built(key, kind)], nextId := nextId + 1)
    }

    predicate IsCached(t: Transport) {
      ByAddr(t.addr) in transports && transports[ByAddr(t.addr)] == t
    }

    function PutKind(addr: Addr, kind: Kind): Caches {
      this.(kinds := kinds[addr := kind])
    }

    function PutStash(addr: Addr, kind: Kind): Caches {
      this.(stash := stash[addr := kind])
    }

    function TakeStash(addr: Addr): Caches {
      this.(stash := stash - {addr})
    }

    /** The first critical section of dropCachedTransport. */
    function DropTransport(addr: Addr, stale: Transport): Caches {
      if ByAddr(addr) in transports && transports[ByAddr(addr)] == stale
      then this.(transports := transports - {ByAddr(addr)})
      else this
    }

    /** The second critical section of dropCachedTransport. */
    function DropKind(addr: Addr): Caches {
      this.(kinds := kinds - {addr})
    }
  }

  /** What happened so far. No step reads it, except that only a transport with a dial that ended in
      errProtocolChanged can report that error. */
  datatype History = History(
    issued: set<Transport>,      // transports a request has taken out of the cache
    failed: set<Transport>,      // transports with a dial that ended in errProtocolChanged
    plain: set<Addr>,            // addresses for which the http branch has run
    cleared: set<Pid>,           // requests that cleared the recorded protocol
    recorded: set<(Pid, Addr, Protocol)>,
    storing: Option<Addr>)       // the address whose transport is stored but not yet its kind

  datatype World = World(
    c: Caches,
    protocols: map<Addr, Protocol>,
    locks: Locks,
    procs: map<Pid, Proc>,
    races: map<Pid, Race>,
    h: History)

  const INIT := World(Caches(map[], map[], map[], 0), map[], Locks(None, None, None, None), map[], map[],
                      History({}, {}, {}, {}, {}, None))

  datatype Choice =
    | Go
    | NoConnection
    | Handshake(kind: Kind, builds: bool)
    | Builds(ok: bool)
    | Reply(outcome: Outcome)
    | Fork(quic: Pid, tcp: Pid)
    | Receive
    | Expire

  datatype Event =
    | Arrive(p: Pid, addr: Addr, scheme: Scheme, racing: bool)
    | Dial(p: Pid, t: Transport)
    | Run(p: Pid, choice: Choice)

  // The locks at each program counter

  function Wants(pc: PC): Option<Lock> {
    match pc
    case WantTransports | DropWantTransports(_) | StoreWant(_) => Some(TransportsLck)
    case WantEmbedded | DialWantEmbedded(_) => Some(Embedded)
    case WantKinds(_) | DropWantKinds | DialWantKinds(_, _, _) => Some(KindsLck)
    case LookupWant | ClearWant | WinWant(_) => Some(ProtocolMu)
    case _ => None
  }

  /** The critical sections, by the locks held inside them. */
  datatype Region = Outside | InCache | InSetUp | InSetUpKinds | InDial | InDialKinds | InDropKinds | InProtocols {
    predicate Holds(l: Lock) {
      match l
      case TransportsLck => InCache? || InSetUp? || InSetUpKinds?
      case Embedded => InSetUp? || InSetUpKinds? || InDial? || InDialKinds?
      case KindsLck => InSetUpKinds? || InDialKinds? || InDropKinds?
      case ProtocolMu => InProtocols?
    }
  }

  function RegionOf(pc: PC): Region {
    if pc.InTransports? || pc.WantEmbedded? || pc.Publishing? || pc.Aborting? || pc.DropInTransports?
       || pc.StoreIn? then InCache
    else if pc.InSetup? || pc.WantKinds? || pc.Stashing? || pc.Panicked? then InSetUp
    else if pc.InKinds? then InSetUpKinds
    else if pc.DialInEmbedded? || pc.DialWantKinds? then InDial
    else if pc.DialInKinds? then InDialKinds
    else if pc.DropInKinds? then InDropKinds
    else if pc.LookupIn? || pc.ClearIn? || pc.WinIn? then InProtocols
    else Outside
  }

  predicate Holds(pc: PC, l: Lock) {
    RegionOf(pc).Holds(l)
  }

  function Granted(s: World, pc: PC): PC
    requires Wants(pc).Some?
  {
    match pc
    case WantTransports => InTransports
    case DropWantTransports(t) => DropInTransports(t)
    case StoreWant(win) => StoreIn(win)
    case WantEmbedded => InSetup
    case DialWantEmbedded(t) => DialInEmbedded(t, s.c.IsCached(t))
    case WantKinds(t) => InKinds(t)
    case DropWantKinds => DropInKinds
    case DialWantKinds(t, own, kind) => DialInKinds(t, own, kind)
    case LookupWant => LookupIn
    case ClearWant => ClearIn
    case WinWant(win) => WinIn(win)
  }

  // Steps

  function Goto(s: World, p: Pid, pc: PC): World
    requires p in s.procs
  {
    s.(procs := s.procs[p := s.procs[p].(pc := pc)])
  }

  function Unlock(s: World, l: Lock): World {
    s.(locks := s.locks.Set(l, None))
  }

  /** Where a goroutine goes when the attempt it made for `who` ends with `outcome`. */
  function Finish(who: Who, outcome: Outcome): (pc: PC)
    ensures RegionOf(pc) == Outside
  {
    match who
    case QuicAttempt(_) => Sending(RacingResult(H3, outcome))
    case TcpAttempt(_) => Sending(RacingResult(H2, outcome))
    case Cached(_) => if outcome.Answer? then Done(outcome) else ClearWant
    case _ => Done(outcome)
  }

  function TransportKey(who: Who, addr: Addr): Key {
    if who == Cached(H3) then ByAddrQuic(addr) else ByAddr(addr)
  }

  // RoundTrip up to the unlock, getTransport, getOrCreateTransport and the set-up dial

  function InTransportsStep(s: World, p: Pid, choice: Choice): Option<World>
    requires p in s.procs
  {
    var Proc(addr, scheme, who, _) := s.procs[p];
    var key := TransportKey(who, addr);
    if key in s.c.transports then
      (if choice == Go then Some(Goto(s, p, Publishing)) else None)
    else if who == Cached(H3) then
      match choice
      case Builds(ok) =>
        Some(Goto(if ok then s.(c := s.c.Put(key, Http3)) else s, p, if ok then Publishing else Aborting))
      case _ => None
    else if choice != Go then None
    else
      match scheme
      case Http => Some(Goto(s.(c := s.c.Put(key, Http1), h := s.h.(plain := s.h.plain + {addr})), p, Publishing))
      case Https => Some(Goto(s, p, WantEmbedded))
      case OtherScheme => Some(Goto(Unlock(s, TransportsLck), p, Finish(who, Failure(BadScheme))))
  }

  function InSetupStep(s: World, p: Pid, choice: Choice): Option<World>
    requires p in s.procs
  {
    var addr := s.procs[p].addr;
    if addr in s.c.stash then
      // The connection is returned with a nil error, and getTransport panics.
      (if choice == Go then Some(Goto(s.(c := s.c.TakeStash(addr)), p, Panicked)) else None)
    else
      match choice
      case NoConnection => Some(Goto(Unlock(s, Embedded), p, Aborting))
      case Handshake(kind, builds) =>
        if kind == Http3 && !builds then Some(Goto(Unlock(s, Embedded), p, Aborting))
        else
          Some(Goto(s.(c := s.c.Put(ByAddr(addr), kind), h := s.h.(storing := Some(addr))), p,
                    WantKinds(s.c.Built(ByAddr(addr), kind))))
      case _ => None
  }

  function InKindsStep(s: World, p: Pid, t: Transport): Option<World>
    requires p in s.procs
  {
    Some(Goto(Unlock(s.(c := s.c.PutKind(s.procs[p].addr, t.kind), h := s.h.(storing := None)), KindsLck),
              p, Stashing(t)))
  }

  function StashingStep(s: World, p: Pid, t: Transport): Option<World>
    requires p in s.procs
  {
    Some(Goto(Unlock(s.(c := s.c.PutStash(s.procs[p].addr, t.kind)), Embedded), p, Publishing))
  }

  function PublishingStep(s: World, p: Pid): Option<World>
    requires p in s.procs
  {
    var key := TransportKey(s.procs[p].who, s.procs[p].addr);
    if key !in s.c.transports then None
    else
      var t := s.c.transports[key];
      Some(Goto(Unlock(s.(h := s.h.(issued := s.h.issued + {t})), TransportsLck), p, Flight(t)))
  }

  function AbortingStep(s: World, p: Pid): Option<World>
    requires p in s.procs
  {
    Some(Goto(Unlock(s, TransportsLck), p, Finish(s.procs[p].who, Failure(Refused))))
  }

  // The transport's RoundTrip, and the two critical sections of dropCachedTransport

  function FlightStep(s: World, p: Pid, t: Transport, outcome: Outcome): Option<World>
    requires p in s.procs
  {
    if outcome != Failure(ProtocolChanged) then Some(Goto(s, p, Finish(s.procs[p].who, outcome)))
    else if t in s.h.failed then Some(Goto(s, p, DropWantTransports(t)))
    else None
  }

  function DropInTransportsStep(s: World, p: Pid, t: Transport): Option<World>
    requires p in s.procs
  {
    Some(Goto(Unlock(s.(c := s.c.DropTransport(s.procs[p].addr, t)), TransportsLck), p, DropWantKinds))
  }

  function DropInKindsStep(s: World, p: Pid): Option<World>
    requires p in s.procs
  {
    Some(Goto(Unlock(s.(c := s.c.DropKind(s.procs[p].addr)), KindsLck), p,
              Finish(s.procs[p].who, Failure(ProtocolChanged))))
  }

  // dialTLSWithSetup with setup false: the dial a cached transport makes on its own

  function DialInEmbeddedStep(s: World, p: Pid, t: Transport, own: bool, choice: Choice): Option<World>
    requires p in s.procs
  {
    var addr := s.procs[p].addr;
    if addr in s.c.stash then
      (if choice == Go then
         Some(Goto(Unlock(s.(c := s.c.TakeStash(addr)), Embedded), p, DialGot(t, own, s.c.stash[addr])))
       else None)
    else
      match choice
      case NoConnection => Some(Goto(Unlock(s, Embedded), p, DialFailed(t)))
      case Handshake(kind, _) => Some(Goto(s, p, DialWantKinds(t, own, kind)))
      case _ => None
  }

  function DialInKindsStep(s: World, p: Pid, t: Transport, own: bool, kind: Kind): Option<World>
    requires p in s.procs
  {
    var addr := s.procs[p].addr;
    var s' := Unlock(Unlock(s, KindsLck), Embedded);
    if addr in s.c.kinds && s.c.kinds[addr] == kind then Some(Goto(s', p, DialGot(t, own, kind)))
    else Some(Goto(s'.(h := s.h.(failed := s.h.failed + {t})), p, DialFailed(t)))
  }

  // race, startRace, the two attempts, waitForRaceWinner and cacheWinningProtocol

  function LookupInStep(s: World, p: Pid): Option<World>
    requires p in s.procs
  {
    var Proc(addr, scheme, who, _) := s.procs[p];
    var s' := Unlock(s, ProtocolMu);
    Some(if addr !in s.protocols then Goto(s', p, Starting)
         else s'.(procs := s.procs[p := Proc(addr, scheme, Cached(s.protocols[addr]), WantTransports)]))
  }

  function ClearInStep(s: World, p: Pid): Option<World>
    requires p in s.procs
  {
    Some(Goto(Unlock(s.(protocols := s.protocols - {s.procs[p].addr},
                        h := s.h.(cleared := s.h.cleared + {p})), ProtocolMu),
              p, Starting))
  }

  function StartingStep(s: World, p: Pid, quic: Pid, tcp: Pid): Option<World>
    requires p in s.procs
  {
    var Proc(addr, scheme, _, _) := s.procs[p];
    if quic in s.procs || tcp in s.procs || quic == tcp then None
    else
      var forked := s.procs[quic := Proc(addr, scheme, QuicAttempt(p), QuicTry)]
                           [tcp := Proc(addr, scheme, TcpAttempt(p), WantTransports)];
      Some(Goto(s.(races := s.races[p := Race(quic, tcp, [], [])], procs := forked), p, Waiting(0, None)))
  }

  function WaitingStep(s: World, p: Pid, i: nat, lastErr: Option<Error>, choice: Choice): Option<World>
    requires p in s.procs
  {
    match choice
    case Receive =>
      if p !in s.races || i >= 2 || s.races[p].channel == [] then None
      else
        var race := s.races[p];
        var result := race.channel[0];
        Some(Goto(s.(races := s.races[p := race.(channel := race.channel[1..])]), p,
                  match result.outcome
                  case Answer(_) => WinWant(result)
                  case Failure(error) => Waiting(i + 1, Some(error))))
    case Expire => if i >= 2 then None else Some(Goto(s, p, Done(Failure(lastErr.GetOr(TimedOut)))))
    case Go => if i < 2 then None else Some(Goto(s, p, Done(Failure(lastErr.GetOr(RequestFailed)))))
    case _ => None
  }

  function WinInStep(s: World, p: Pid, win: RacingResult): Option<World>
    requires p in s.procs
  {
    var addr := s.procs[p].addr;
    var h := s.h.(recorded := s.h.recorded + {(p, addr, win.protocol)});
    Some(Goto(Unlock(s.(protocols := s.protocols[addr := win.protocol], h := h), ProtocolMu), p,
              if win.protocol == H3 then Storing(win) else Won(win)))
  }

  function StoreInStep(s: World, p: Pid, win: RacingResult): Option<World>
    requires p in s.procs
  {
    Some(Goto(Unlock(s.(c := s.c.Put(ByAddrQuic(s.procs[p].addr), Http3)), TransportsLck), p, Won(win)))
  }

  /** A send on a full channel blocks. */
  function SendingStep(s: World, p: Pid, result: RacingResult): Option<World>
    requires p in s.procs
  {
    var who := s.procs[p].who;
    if !(who.QuicAttempt? || who.TcpAttempt?) || who.race !in s.races then None
    else
      var race := s.races[who.race];
      if |race.channel| >= CHANNEL_CAPACITY then None
      else
        var race' := race.(channel := race.channel + [result], log := race.log + [result]);
        Some(Goto(s.(races := s.races[who.race := race']), p, Sent(result)))
  }

  function AcquireStep(s: World, p: Pid, l: Lock): Option<World>
    requires p in s.procs && Wants(s.procs[p].pc) == Some(l)
  {
    if s.locks.Owner(l).Some? then None
    else Some(Goto(s.(locks := s.locks.Set(l, Some(p))), p, Granted(s, s.procs[p].pc)))
  }

  function GoOnly(choice: Choice, next: Option<World>): Option<World> {
    if choice == Go then next else None
  }

  /** One step of goroutine `p`, or None when it cannot take that step now. */
  function Step(s: World, p: Pid, choice: Choice): Option<World>
    requires p in s.procs
  {
    var pc := s.procs[p].pc;
    if Wants(pc).Some? then GoOnly(choice, AcquireStep(s, p, Wants(pc).value))
    else
      match pc
      case InTransports => InTransportsStep(s, p, choice)
      case InSetup => InSetupStep(s, p, choice)
      case InKinds(t) => GoOnly(choice, InKindsStep(s, p, t))
      case Stashing(t) => GoOnly(choice, StashingStep(s, p, t))
      case Publishing => GoOnly(choice, PublishingStep(s, p))
      case Aborting => GoOnly(choice, AbortingStep(s, p))
      case Flight(t) => if choice.Reply? then FlightStep(s, p, t, choice.outcome) else None
      case DropInTransports(t) => GoOnly(choice, DropInTransportsStep(s, p, t))
      case DropInKinds => GoOnly(choice, DropInKindsStep(s, p))
      case DialInEmbedded(t, own) => DialInEmbeddedStep(s, p, t, own, choice)
      case DialInKinds(t, own, kind) => GoOnly(choice, DialInKindsStep(s, p, t, own, kind))
      case LookupIn => GoOnly(choice, LookupInStep(s, p))
      case ClearIn => GoOnly(choice, ClearInStep(s, p))
      case Starting => if choice.Fork? then StartingStep(s, p, choice.quic, choice.tcp) else None
      case Waiting(i, lastErr) => WaitingStep(s, p, i, lastErr, choice)
      case WinIn(win) => GoOnly(choice, WinInStep(s, p, win))
      case Storing(win) =>
        if choice.Builds? then Some(Goto(s, p, if choice.ok then StoreWant(win) else Won(win))) else None
      case StoreIn(win) => GoOnly(choice, StoreInStep(s, p, win))
      case QuicTry =>
        if choice.Reply? && choice.outcome != Failure(ProtocolChanged)
        then Some(Goto(s, p, Finish(s.procs[p].who, choice.outcome)))
        else None
      case Sending(result) => GoOnly(choice, SendingStep(s, p, result))
      case _ => None
  }

  function Apply(s: World, e: Event): Option<World> {
    match e
    case Arrive(p, addr, scheme, racing) =>
      if p in s.procs then None
      else if racing && scheme == Https then Some(s.(procs := s.procs[p := Proc(addr, scheme, Racing, LookupWant)]))
      else Some(s.(procs := s.procs[p := Proc(addr, scheme, Plain, WantTransports)]))
    case Dial(p, t) =>
      // Any transport a request has ever been given may dial at any later time. HTTP/3 brings its
      // own dialer.
      if p in s.procs || t !in s.h.issued || t.kind == Http3 then None
      else Some(s.(procs := s.procs[p := Proc(t.addr, Https, Dialing, DialWantEmbedded(t))]))
    case Run(p, choice) =>
      if p in s.procs then Step(s, p, choice) else None
  }

  function Exec(s: World, es: seq<Event>): Option<World>
    decreases |es|
  {
    if es == [] then Some(s)
    else
      match Apply(s, es[0])
      case None => None
      case Some(s') => Exec(s', es[1..])
  }
}
