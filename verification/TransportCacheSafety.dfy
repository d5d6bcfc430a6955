/** What every reachable state of the transport cache satisfies. */
module TransportCacheSafety {
  import opened Wrappers
  import opened TransportCache

  ghost predicate LocksOwned(s: World) {
    && (forall l: Lock | s.locks.Owner(l).Some? :: s.locks.Owner(l).value in s.procs)
    && (forall p <- s.procs, l: Lock :: Holds(s.procs[p].pc, l) <==> s.locks.Owner(l) == Some(p))
  }

  /** Identities handed out so far lie below `nextId`. */
  ghost predicate Fresh(s: World) {
    && (forall k <- s.c.transports :: s.c.transports[k].id < s.c.nextId && s.c.transports[k].addr == k.addr)
    && (forall t <- s.h.issued :: t.id < s.c.nextId)
    && s.h.failed <= s.h.issued
  }

  /** A stashed connection belongs to the transport cached at its address. */
  ghost predicate StashFits(s: World) {
    forall a <- s.c.stash :: ByAddr(a) in s.c.transports && s.c.transports[ByAddr(a)].kind == s.c.stash[a]
  }

  /** A transport with a dial that ended in errProtocolChanged is no longer cached, or its stash is empty. */
  ghost predicate FailedSawEmptyStash(s: World) {
    forall t <- s.h.failed | s.c.IsCached(t) :: t.addr !in s.c.stash
  }

  /** Away from the steps in which a set-up dial stores the transport and then its kind, a recorded
      kind agrees with the cached transport, unless plain http used the address. */
  ghost predicate KindsFit(s: World) {
    forall a <- s.c.kinds | ByAddr(a) in s.c.transports && a !in s.h.plain && s.h.storing != Some(a) ::
      s.c.kinds[a] == s.c.transports[ByAddr(a)].kind
  }

  ghost predicate Shared(s: World) {
    && Fresh(s) && StashFits(s) && FailedSawEmptyStash(s) && KindsFit(s)
    && (s.locks.embedded == None ==> s.h.storing == None)
  }

  /** Neither the stash nor the recorded kind contradicts the kind of `t`. */
  ghost predicate Fits(s: World, t: Transport) {
    && (t.addr in s.c.stash ==> s.c.stash[t.addr] == t.kind)
    && (t.addr in s.c.kinds ==> s.c.kinds[t.addr] == t.kind)
  }

  ghost predicate BeingCached(s: World, pr: Proc, t: Transport) {
    && t.addr == pr.addr && s.c.IsCached(t) && t.addr !in s.c.stash && t !in s.h.issued
    && pr.who != Cached(H3)
  }

  ghost predicate Dials(s: World, pr: Proc, t: Transport, own: bool) {
    && t.addr == pr.addr && t in s.h.issued && s.h.storing == None
    && (own ==> t.addr in s.h.plain || Fits(s, t))
  }

  /** What one goroutine knows about the shared state at its program counter. */
  ghost predicate Knows(s: World, pr: Proc) {
    match pr.pc
    case WantEmbedded => ByAddr(pr.addr) !in s.c.transports && pr.who != Cached(H3)
    case InSetup => ByAddr(pr.addr) !in s.c.transports && pr.who != Cached(H3) && s.h.storing == None
    case WantKinds(t) => BeingCached(s, pr, t) && s.h.storing == Some(t.addr)
    case InKinds(t) => BeingCached(s, pr, t) && s.h.storing == Some(t.addr)
    case Stashing(t) =>
      BeingCached(s, pr, t) && s.h.storing == None && (t.addr in s.c.kinds ==> s.c.kinds[t.addr] == t.kind)
    case Publishing => TransportKey(pr.who, pr.addr) in s.c.transports
    case Flight(t) => t in s.h.issued
    case DropWantTransports(t) => t in s.h.failed
    case DropInTransports(t) => t in s.h.failed
    case DialWantEmbedded(t) => t.addr == pr.addr && t in s.h.issued
    case DialInEmbedded(t, own) => Dials(s, pr, t, own)
    case DialWantKinds(t, own, _) => Dials(s, pr, t, own) && t.addr !in s.c.stash
    case DialInKinds(t, own, _) => Dials(s, pr, t, own) && t.addr !in s.c.stash
    case DialGot(t, own, kind) => own ==> t.addr in s.h.plain || kind == t.kind
    case Panicked => false
    case _ => true
  }

  ghost predicate Inv(s: World) {
    LocksOwned(s) && Shared(s) && forall p <- s.procs :: Knows(s, s.procs[p])
  }

  /** Each map is written under its own lock only, and kinds are only ever removed outside a set-up dial. */
  ghost predicate Guarded(r: Region, s: World, s': World) {
    && (!r.Holds(TransportsLck) ==>
          s'.c.transports == s.c.transports && s'.h.issued == s.h.issued && s'.h.plain == s.h.plain)
    && (!r.Holds(KindsLck) ==> s'.c.kinds == s.c.kinds)
    && (!r.Holds(Embedded) ==>
          && s'.c.stash == s.c.stash && s'.h.failed == s.h.failed && s'.h.storing == s.h.storing
          && forall a <- s'.c.kinds :: a in s.c.kinds && s'.c.kinds[a] == s.c.kinds[a])
    && (!r.Holds(ProtocolMu) ==> s'.protocols == s.protocols)
    && s.c.nextId <= s'.c.nextId
    && s.h.issued <= s'.h.issued && s.h.failed <= s'.h.failed && s.h.plain <= s'.h.plain
  }

  /** Going from region `r` to `r'` takes only free locks, and gives back the others. */
  ghost predicate Hands(p: Pid, r: Region, r': Region, locks: Locks, locks': Locks) {
    forall l: Lock ::
      locks'.Owner(l) ==
        (if r.Holds(l) == r'.Holds(l) then locks.Owner(l) else if r'.Holds(l) then Some(p) else None) &&
      (r'.Holds(l) && !r.Holds(l) ==> locks.Owner(l) == None)
  }

  /** `p` may move, and goroutines it forks start at their beginning. */
  ghost predicate MovesOnly(s: World, p: Pid, s': World) {
    && p in s.procs && p in s'.procs
    && (forall q <- s.procs | q != p :: q in s'.procs && s'.procs[q] == s.procs[q])
    && (forall q <- s'.procs | q !in s.procs :: s'.procs[q].pc.QuicTry? || s'.procs[q].pc.WantTransports?)
  }

  ghost predicate Moves(s: World, p: Pid, s': World) {
    MovesOnly(s, p, s') && Guarded(RegionOf(s.procs[p].pc), s, s') && Passes(s, p, s')
  }

  ghost predicate Passes(s: World, p: Pid, s': World)
    requires p in s.procs && p in s'.procs
  {
    Hands(p, RegionOf(s.procs[p].pc), RegionOf(s'.procs[p].pc), s.locks, s'.locks)
  }

  /** The regions, spelled out once so that the proofs about single steps need not unfold them. */
  lemma RegionAt(pc: PC)
    ensures (pc.InTransports? || pc.WantEmbedded? || pc.Publishing?) ==> RegionOf(pc) == InCache
    ensures (pc.Aborting? || pc.DropInTransports? || pc.StoreIn?) ==> RegionOf(pc) == InCache
    ensures (pc.InSetup? || pc.WantKinds? || pc.Stashing? || pc.Panicked?) ==> RegionOf(pc) == InSetUp
    ensures pc.InKinds? ==> RegionOf(pc) == InSetUpKinds
    ensures (pc.DialInEmbedded? || pc.DialWantKinds?) ==> RegionOf(pc) == InDial
    ensures pc.DialInKinds? ==> RegionOf(pc) == InDialKinds
    ensures pc.DropInKinds? ==> RegionOf(pc) == InDropKinds
    ensures (pc.LookupIn? || pc.ClearIn? || pc.WinIn?) ==> RegionOf(pc) == InProtocols
    ensures (pc.WantTransports? || pc.Flight?) ==> RegionOf(pc) == Outside
    ensures (pc.DropWantKinds? || pc.DropWantTransports?) ==> RegionOf(pc) == Outside
    ensures (pc.DialGot? || pc.DialFailed? || pc.QuicTry? || pc.Done?) ==> RegionOf(pc) == Outside
    ensures (pc.Starting? || pc.Waiting? || pc.Sending? || pc.Sent?) ==> RegionOf(pc) == Outside
    ensures (pc.WinWant? || pc.Storing? || pc.StoreWant? || pc.Won?) ==> RegionOf(pc) == Outside
  {
  }

  // What the steps do to the shared facts

  lemma SharedSame(s: World, s': World)
    requires Shared(s) && s'.c == s.c && s'.h == s.h && (s'.locks.embedded == None ==> s'.h.storing == None)
    ensures Shared(s')
  {
  }

  lemma TakingKeepsShared(s: World, addr: Addr, s': World)
    requires Shared(s) && s'.c == s.c.TakeStash(addr) && s'.h == s.h
    requires s'.locks.embedded == None ==> s'.h.storing == None
    ensures Shared(s')
  {
  }

  /** A transport is stored where none was cached, by the http branch or by a set-up dial, or under the
      key of HTTP/3. */
  lemma PuttingKeepsShared(s: World, key: Key, kind: Kind, s': World)
    requires Shared(s) && s'.c == s.c.Put(key, kind) && s'.h.issued == s.h.issued && s'.h.failed == s.h.failed
    requires s.h.plain <= s'.h.plain && (s'.locks.embedded == None ==> s'.h.storing == None)
    requires key.ByAddr? ==>
               && key !in s.c.transports && (key.addr in s'.h.plain || s'.h.storing == Some(key.addr))
               && (s'.h.storing == s.h.storing || s.h.storing == None)
    requires key.ByAddrQuic? ==> s'.h.storing == s.h.storing
    ensures Shared(s')
  {
  }

  /** What it takes to know what a program counter stands for, spelled out once. */
  lemma KnowsAt(s: World, pr: Proc)
    ensures (pr.pc.Aborting? || pr.pc.Done? || pr.pc.Sending? || pr.pc.Sent? || pr.pc.ClearWant? || pr.pc.DialFailed?
             || pr.pc.WantTransports? || pr.pc.DropWantKinds? || pr.pc.Starting? || pr.pc.Waiting? || pr.pc.WinWant?
             || pr.pc.Storing? || pr.pc.StoreWant? || pr.pc.Won? || pr.pc.QuicTry?) ==> Knows(s, pr)
    ensures pr.pc.Publishing? && TransportKey(pr.who, pr.addr) in s.c.transports ==> Knows(s, pr)
    ensures pr.pc.WantEmbedded? && ByAddr(pr.addr) !in s.c.transports && pr.who != Cached(H3) ==> Knows(s, pr)
    ensures pr.pc.WantKinds? && BeingCached(s, pr, pr.pc.t) && s.h.storing == Some(pr.pc.t.addr) ==> Knows(s, pr)
    ensures (pr.pc.Stashing? && BeingCached(s, pr, pr.pc.t) && s.h.storing == None
             && (pr.pc.t.addr in s.c.kinds ==> s.c.kinds[pr.pc.t.addr] == pr.pc.t.kind)) ==> Knows(s, pr)
    ensures pr.pc.Flight? && pr.pc.t in s.h.issued ==> Knows(s, pr)
    ensures pr.pc.DropWantTransports? && pr.pc.t in s.h.failed ==> Knows(s, pr)
    ensures pr.pc.DialWantKinds? && Dials(s, pr, pr.pc.t, pr.pc.own) && pr.pc.t.addr !in s.c.stash ==> Knows(s, pr)
    ensures pr.pc.DialGot? && (pr.pc.own ==> pr.pc.t.addr in s.h.plain || pr.pc.kind == pr.pc.t.kind) ==> Knows(s, pr)
  {
  }

  lemma OneMoves(s: World, p: Pid, s': World)
    requires p in s.procs && p in s'.procs && s'.procs == s.procs[p := s'.procs[p]]
    ensures MovesOnly(s, p, s')
  {
  }

  lemma GrantedRegion(s: World, pc: PC, l: Lock)
    requires Wants(pc) == Some(l)
    ensures !RegionOf(pc).Holds(l)
    ensures forall m: Lock :: RegionOf(Granted(s, pc)).Holds(m) <==> RegionOf(pc).Holds(m) || m == l
  {
  }

  lemma AcquireMoves(s: World, p: Pid, l: Lock, s': World)
    requires p in s.procs && Wants(s.procs[p].pc) == Some(l) && AcquireStep(s, p, l) == Some(s')
    ensures Moves(s, p, s')
  {
    GrantedRegion(s, s.procs[p].pc, l);
    hide RegionOf, Granted, Wants;
    match l
    case TransportsLck =>
    case Embedded =>
    case KindsLck =>
    case ProtocolMu =>
  }

  lemma AcquireKeeps(s: World, p: Pid, l: Lock, s': World)
    requires p in s.procs && Wants(s.procs[p].pc) == Some(l) && AcquireStep(s, p, l) == Some(s')
    requires Shared(s) && Knows(s, s.procs[p])
    ensures p in s'.procs && Shared(s') && Knows(s', s'.procs[p])
  {
    hide RegionOf;
    match l
    case TransportsLck =>
    case Embedded =>
    case KindsLck =>
    case ProtocolMu =>
  }

  lemma InTransportsHands(s: World, p: Pid, choice: Choice, s': World)
    requires p in s.procs && s.procs[p].pc == InTransports && InTransportsStep(s, p, choice) == Some(s')
    ensures p in s'.procs && Passes(s, p, s')
  {
    RegionAt(s.procs[p].pc);
    RegionAt(s'.procs[p].pc);
    hide RegionOf;
    var Proc(addr, scheme, who, _) := s.procs[p];
    if TransportKey(who, addr) in s.c.transports {
    } else if who == Cached(H3) {
    } else {
      match scheme
      case Http =>
      case Https =>
      case OtherScheme =>
    }
  }

  lemma InTransportsEffect(s: World, p: Pid, choice: Choice, s': World)
    requires p in s.procs && s.procs[p].pc == InTransports && InTransportsStep(s, p, choice) == Some(s')
    ensures p in s'.procs && s'.procs == s.procs[p := s'.procs[p]]
    ensures s'.c.kinds == s.c.kinds && s'.c.stash == s.c.stash && s.c.nextId <= s'.c.nextId
    ensures s'.protocols == s.protocols && s'.h == s.h.(plain := s'.h.plain) && s.h.plain <= s'.h.plain
  {
    hide RegionOf;
    var Proc(addr, scheme, who, _) := s.procs[p];
    if TransportKey(who, addr) in s.c.transports {
    } else if who == Cached(H3) {
    } else {
      match scheme
      case Http =>
      case Https =>
      case OtherScheme =>
    }
  }

  lemma InTransportsMoves(s: World, p: Pid, choice: Choice, s': World)
    requires p in s.procs && s.procs[p].pc == InTransports && InTransportsStep(s, p, choice) == Some(s')
    ensures Moves(s, p, s')
  {
    RegionAt(s.procs[p].pc);
    InTransportsEffect(s, p, choice, s');
    InTransportsHands(s, p, choice, s');
    OneMoves(s, p, s');
    hide RegionOf, MovesOnly, Passes, InTransportsStep;
  }

  lemma InTransportsKeeps(s: World, p: Pid, choice: Choice, s': World)
    requires p in s.procs && s.procs[p].pc == InTransports && InTransportsStep(s, p, choice) == Some(s')
    requires Shared(s)
    ensures p in s'.procs && Shared(s') && Knows(s', s'.procs[p])
  {
    hide RegionOf, Knows, Shared;
    var Proc(addr, scheme, who, _) := s.procs[p];
    var key := TransportKey(who, addr);
    KnowsAt(s', s'.procs[p]);
    if s'.c == s.c {
      assert s'.locks.embedded == s.locks.embedded && s'.h == s.h;
      NothingStored(s);
      SharedSame(s, s');
    } else if who == Cached(H3) {
      NothingStored(s);
      PuttingKeepsShared(s, key, Http3, s');
    } else {
      NothingStored(s);
      PuttingKeepsShared(s, key, Http1, s');
    }
  }

  lemma NothingStored(s: World)
    requires Shared(s)
    ensures s.locks.embedded == None ==> s.h.storing == None
  {
  }

  lemma InSetupHands(s: World, p: Pid, choice: Choice, s': World)
    requires p in s.procs && s.procs[p].pc == InSetup && InSetupStep(s, p, choice) == Some(s')
    ensures p in s'.procs && Passes(s, p, s')
  {
    RegionAt(s.procs[p].pc);
    RegionAt(s'.procs[p].pc);
    hide RegionOf;
    if s.procs[p].addr in s.c.stash {
    } else {
      match choice
      case NoConnection =>
      case Handshake(_, _) =>
      case _ =>
    }
  }

  lemma InSetupMoves(s: World, p: Pid, choice: Choice, s': World)
    requires p in s.procs && s.procs[p].pc == InSetup && InSetupStep(s, p, choice) == Some(s')
    ensures Moves(s, p, s')
  {
    RegionAt(s.procs[p].pc);
    RegionAt(s'.procs[p].pc);
    hide RegionOf;
    InSetupHands(s, p, choice, s');
    OneMoves(s, p, s');
    hide MovesOnly, Passes;
    if s.procs[p].addr in s.c.stash {
    } else {
      match choice
      case NoConnection =>
      case Handshake(_, _) =>
      case _ =>
    }
  }

  lemma StashNeedsTransport(s: World, addr: Addr)
    requires Shared(s) && ByAddr(addr) !in s.c.transports
    ensures addr !in s.c.stash
  {
  }

  lemma InSetupKeeps(s: World, p: Pid, choice: Choice, s': World)
    requires p in s.procs && s.procs[p].pc == InSetup && InSetupStep(s, p, choice) == Some(s')
    requires s.locks.embedded == Some(p) && Shared(s) && Knows(s, s.procs[p])
    ensures p in s'.procs && Shared(s') && Knows(s', s'.procs[p])
  {
    var addr := s.procs[p].addr;
    assert ByAddr(addr) !in s.c.transports && s.procs[p].who != Cached(H3) && s.h.storing == None;
    StashNeedsTransport(s, addr);
    KnowsAt(s', s'.procs[p]);
    hide RegionOf, Knows, BeingCached;
    if s'.c == s.c {
      SharedSame(s, s');
      hide Shared;
    } else {
      PuttingKeepsShared(s, ByAddr(addr), choice.kind, s');
      NewIsBeingCached(s, s'.procs[p], choice.kind, s');
      hide Shared;
    }
  }

  lemma NewIsBeingCached(s: World, pr: Proc, kind: Kind, s': World)
    requires Shared(s) && pr.addr !in s.c.stash && s'.c == s.c.Put(ByAddr(pr.addr), kind) && s'.h.issued == s.h.issued
    requires pr.who != Cached(H3)
    ensures BeingCached(s', pr, s.c.Built(ByAddr(pr.addr), kind))
  {
  }

  lemma InKindsMoves(s: World, p: Pid, t: Transport, s': World)
    requires p in s.procs && s.procs[p].pc == InKinds(t) && InKindsStep(s, p, t) == Some(s')
    ensures Moves(s, p, s')
  {
    OneMoves(s, p, s');
    hide MovesOnly;
    RegionAt(s.procs[p].pc);
    RegionAt(s'.procs[p].pc);
    hide RegionOf;
  }

  lemma InKindsKeeps(s: World, p: Pid, t: Transport, s': World)
    requires p in s.procs && s.procs[p].pc == InKinds(t) && InKindsStep(s, p, t) == Some(s')
    requires Shared(s) && Knows(s, s.procs[p])
    ensures p in s'.procs && Shared(s') && Knows(s', s'.procs[p])
  {
    KnowsAt(s', s'.procs[p]);
    hide RegionOf, Knows;
  }

  lemma StashingMoves(s: World, p: Pid, t: Transport, s': World)
    requires p in s.procs && s.procs[p].pc == Stashing(t) && StashingStep(s, p, t) == Some(s')
    ensures Moves(s, p, s')
  {
    OneMoves(s, p, s');
    hide MovesOnly;
    RegionAt(s.procs[p].pc);
    RegionAt(s'.procs[p].pc);
    hide RegionOf;
  }

  lemma StashingKeeps(s: World, p: Pid, t: Transport, s': World)
    requires p in s.procs && s.procs[p].pc == Stashing(t) && StashingStep(s, p, t) == Some(s')
    requires Shared(s) && Knows(s, s.procs[p])
    ensures p in s'.procs && Shared(s') && Knows(s', s'.procs[p])
  {
    KnowsAt(s', s'.procs[p]);
    hide RegionOf, Knows;
  }

  lemma PublishingMoves(s: World, p: Pid, s': World)
    requires p in s.procs && s.procs[p].pc == Publishing && PublishingStep(s, p) == Some(s')
    ensures Moves(s, p, s')
  {
    OneMoves(s, p, s');
    hide MovesOnly;
    RegionAt(s.procs[p].pc);
    RegionAt(s'.procs[p].pc);
    hide RegionOf;
  }

  lemma PublishingKeeps(s: World, p: Pid, s': World)
    requires p in s.procs && s.procs[p].pc == Publishing && PublishingStep(s, p) == Some(s')
    requires Shared(s) && Knows(s, s.procs[p])
    ensures p in s'.procs && Shared(s') && Knows(s', s'.procs[p])
  {
    KnowsAt(s', s'.procs[p]);
    hide RegionOf, Knows;
  }

  lemma AbortingMoves(s: World, p: Pid, s': World)
    requires p in s.procs && s.procs[p].pc == Aborting && AbortingStep(s, p) == Some(s')
    ensures Moves(s, p, s')
  {
    OneMoves(s, p, s');
    hide MovesOnly;
    RegionAt(s.procs[p].pc);
    RegionAt(s'.procs[p].pc);
    hide RegionOf;
  }

  lemma AbortingKeeps(s: World, p: Pid, s': World)
    requires p in s.procs && s.procs[p].pc == Aborting && AbortingStep(s, p) == Some(s')
    requires Shared(s) && Knows(s, s.procs[p])
    ensures p in s'.procs && Shared(s') && Knows(s', s'.procs[p])
  {
    KnowsAt(s', s'.procs[p]);
    NothingStored(s);
    SharedSame(s, s');
    hide RegionOf, Shared, Knows;
  }

  lemma FlightMoves(s: World, p: Pid, t: Transport, outcome: Outcome, s': World)
    requires p in s.procs && s.procs[p].pc == Flight(t) && FlightStep(s, p, t, outcome) == Some(s')
    ensures Moves(s, p, s')
  {
    OneMoves(s, p, s');
    hide MovesOnly;
    RegionAt(s.procs[p].pc);
    RegionAt(s'.procs[p].pc);
    hide RegionOf;
  }

  lemma FlightKeeps(s: World, p: Pid, t: Transport, outcome: Outcome, s': World)
    requires p in s.procs && s.procs[p].pc == Flight(t) && FlightStep(s, p, t, outcome) == Some(s')
    requires Shared(s) && Knows(s, s.procs[p])
    ensures p in s'.procs && Shared(s') && Knows(s', s'.procs[p])
  {
    assert t in s.h.issued;
    KnowsAt(s', s'.procs[p]);
    NothingStored(s);
    SharedSame(s, s');
    hide RegionOf, Shared, Knows;
  }

  lemma DropInTransportsMoves(s: World, p: Pid, t: Transport, s': World)
    requires p in s.procs && s.procs[p].pc == DropInTransports(t) && DropInTransportsStep(s, p, t) == Some(s')
    ensures Moves(s, p, s')
  {
    OneMoves(s, p, s');
    hide MovesOnly;
    RegionAt(s.procs[p].pc);
    RegionAt(s'.procs[p].pc);
    hide RegionOf;
  }

  lemma DropInTransportsKeeps(s: World, p: Pid, t: Transport, s': World)
    requires p in s.procs && s.procs[p].pc == DropInTransports(t) && DropInTransportsStep(s, p, t) == Some(s')
    requires Shared(s) && Knows(s, s.procs[p])
    ensures p in s'.procs && Shared(s') && Knows(s', s'.procs[p])
  {
    KnowsAt(s', s'.procs[p]);
    hide RegionOf, Knows;
  }

  lemma DropInKindsMoves(s: World, p: Pid, s': World)
    requires p in s.procs && s.procs[p].pc == DropInKinds && DropInKindsStep(s, p) == Some(s')
    ensures Moves(s, p, s')
  {
    OneMoves(s, p, s');
    hide MovesOnly;
    RegionAt(s.procs[p].pc);
    RegionAt(s'.procs[p].pc);
    hide RegionOf;
  }

  lemma DropInKindsKeeps(s: World, p: Pid, s': World)
    requires p in s.procs && s.procs[p].pc == DropInKinds && DropInKindsStep(s, p) == Some(s')
    requires Shared(s) && Knows(s, s.procs[p])
    ensures p in s'.procs && Shared(s') && Knows(s', s'.procs[p])
  {
    KnowsAt(s', s'.procs[p]);
    hide RegionOf, Knows;
  }

  lemma DialInEmbeddedHands(s: World, p: Pid, t: Transport, own: bool, choice: Choice, s': World)
    requires p in s.procs && s.procs[p].pc == DialInEmbedded(t, own)
    requires DialInEmbeddedStep(s, p, t, own, choice) == Some(s')
    ensures p in s'.procs && Passes(s, p, s')
  {
    RegionAt(s.procs[p].pc);
    RegionAt(s'.procs[p].pc);
    hide RegionOf;
    if s.procs[p].addr in s.c.stash {
    } else {
      match choice
      case NoConnection =>
      case Handshake(_, _) =>
      case _ =>
    }
  }

  lemma DialInEmbeddedMoves(s: World, p: Pid, t: Transport, own: bool, choice: Choice, s': World)
    requires p in s.procs && s.procs[p].pc == DialInEmbedded(t, own)
    requires DialInEmbeddedStep(s, p, t, own, choice) == Some(s')
    ensures Moves(s, p, s')
  {
    RegionAt(s.procs[p].pc);
    RegionAt(s'.procs[p].pc);
    hide RegionOf;
    DialInEmbeddedHands(s, p, t, own, choice, s');
    OneMoves(s, p, s');
    hide MovesOnly, Passes;
    if s.procs[p].addr in s.c.stash {
    } else {
      match choice
      case NoConnection =>
      case Handshake(_, _) =>
      case _ =>
    }
  }

  lemma DialInEmbeddedKeeps(s: World, p: Pid, t: Transport, own: bool, choice: Choice, s': World)
    requires p in s.procs && s.procs[p].pc == DialInEmbedded(t, own)
    requires DialInEmbeddedStep(s, p, t, own, choice) == Some(s')
    requires Shared(s) && Knows(s, s.procs[p])
    ensures p in s'.procs && Shared(s') && Knows(s', s'.procs[p])
  {
    assert Dials(s, s.procs[p], t, own);
    KnowsAt(s', s'.procs[p]);
    hide RegionOf, Shared, Knows;
    if s.procs[p].addr in s.c.stash {
      TakingKeepsShared(s, s.procs[p].addr, s');
    } else {
      SharedSame(s, s');
    }
  }

  lemma DialInKindsHands(s: World, p: Pid, t: Transport, own: bool, kind: Kind, s': World)
    requires p in s.procs && s.procs[p].pc == DialInKinds(t, own, kind)
    requires DialInKindsStep(s, p, t, own, kind) == Some(s')
    ensures p in s'.procs && Passes(s, p, s')
  {
    RegionAt(s.procs[p].pc);
    RegionAt(s'.procs[p].pc);
    hide RegionOf;
    var addr := s.procs[p].addr;
    if addr in s.c.kinds && s.c.kinds[addr] == kind {
    } else {
    }
  }

  lemma DialInKindsMoves(s: World, p: Pid, t: Transport, own: bool, kind: Kind, s': World)
    requires p in s.procs && s.procs[p].pc == DialInKinds(t, own, kind)
    requires DialInKindsStep(s, p, t, own, kind) == Some(s')
    ensures Moves(s, p, s')
  {
    RegionAt(s.procs[p].pc);
    RegionAt(s'.procs[p].pc);
    hide RegionOf;
    DialInKindsHands(s, p, t, own, kind, s');
    OneMoves(s, p, s');
    hide MovesOnly, Passes;
    var addr := s.procs[p].addr;
    if addr in s.c.kinds && s.c.kinds[addr] == kind {
    } else {
    }
  }

  lemma FailingKeepsShared(s: World, t: Transport, s': World)
    requires Shared(s) && s'.c == s.c && s'.h == s.h.(failed := s.h.failed + {t}) && s'.h.storing == None
    requires t in s.h.issued && t.addr !in s.c.stash
    ensures Shared(s')
  {
  }

  lemma DialInKindsKeeps(s: World, p: Pid, t: Transport, own: bool, kind: Kind, s': World)
    requires p in s.procs && s.procs[p].pc == DialInKinds(t, own, kind)
    requires DialInKindsStep(s, p, t, own, kind) == Some(s')
    requires Shared(s) && Knows(s, s.procs[p])
    ensures p in s'.procs && Shared(s') && Knows(s', s'.procs[p])
  {
    assert Dials(s, s.procs[p], t, own) && t.addr !in s.c.stash;
    KnowsAt(s', s'.procs[p]);
    hide RegionOf, Shared, Knows;
    var addr := s.procs[p].addr;
    if addr in s.c.kinds && s.c.kinds[addr] == kind {
      SharedSame(s, s');
    } else {
      FailingKeepsShared(s, t, s');
    }
  }

  lemma LookupInMoves(s: World, p: Pid, s': World)
    requires p in s.procs && s.procs[p].pc == LookupIn && LookupInStep(s, p) == Some(s')
    ensures Moves(s, p, s')
  {
    OneMoves(s, p, s');
    hide MovesOnly;
    RegionAt(s.procs[p].pc);
    RegionAt(s'.procs[p].pc);
    hide RegionOf;
    if s.procs[p].addr in s.protocols {
    } else {
    }
  }

  lemma LookupInKeeps(s: World, p: Pid, s': World)
    requires p in s.procs && s.procs[p].pc == LookupIn && LookupInStep(s, p) == Some(s')
    requires Shared(s) && Knows(s, s.procs[p])
    ensures p in s'.procs && Shared(s') && Knows(s', s'.procs[p])
  {
    KnowsAt(s', s'.procs[p]);
    NothingStored(s);
    SharedSame(s, s');
    hide RegionOf, Shared, Knows;
  }

  lemma ClearInMoves(s: World, p: Pid, s': World)
    requires p in s.procs && s.procs[p].pc == ClearIn && ClearInStep(s, p) == Some(s')
    ensures Moves(s, p, s')
  {
    OneMoves(s, p, s');
    hide MovesOnly;
    RegionAt(s.procs[p].pc);
    RegionAt(s'.procs[p].pc);
    hide RegionOf;
  }

  lemma ClearInKeeps(s: World, p: Pid, s': World)
    requires p in s.procs && s.procs[p].pc == ClearIn && ClearInStep(s, p) == Some(s')
    requires Shared(s) && Knows(s, s.procs[p])
    ensures p in s'.procs && Shared(s') && Knows(s', s'.procs[p])
  {
    KnowsAt(s', s'.procs[p]);
    hide RegionOf, Knows;
  }

  lemma StartingMoves(s: World, p: Pid, quic: Pid, tcp: Pid, s': World)
    requires p in s.procs && s.procs[p].pc == Starting && StartingStep(s, p, quic, tcp) == Some(s')
    ensures Moves(s, p, s')
  {
    RegionAt(s.procs[p].pc);
    RegionAt(s'.procs[p].pc);
    hide RegionOf;
  }

  lemma StartingKeeps(s: World, p: Pid, quic: Pid, tcp: Pid, s': World)
    requires p in s.procs && s.procs[p].pc == Starting && StartingStep(s, p, quic, tcp) == Some(s')
    requires Shared(s) && Knows(s, s.procs[p])
    ensures p in s'.procs && Shared(s') && Knows(s', s'.procs[p])
  {
    KnowsAt(s', s'.procs[p]);
    NothingStored(s);
    SharedSame(s, s');
    hide RegionOf, Shared, Knows;
  }

  lemma WaitingMoves(s: World, p: Pid, i: nat, lastErr: Option<Error>, choice: Choice, s': World)
    requires p in s.procs && s.procs[p].pc == Waiting(i, lastErr) && WaitingStep(s, p, i, lastErr, choice) == Some(s')
    ensures Moves(s, p, s')
  {
    OneMoves(s, p, s');
    hide MovesOnly;
    RegionAt(s.procs[p].pc);
    RegionAt(s'.procs[p].pc);
    hide RegionOf;
    match choice
    case Receive =>
    case Expire =>
    case Go =>
    case _ =>
  }

  lemma WaitingKeeps(s: World, p: Pid, i: nat, lastErr: Option<Error>, choice: Choice, s': World)
    requires p in s.procs && s.procs[p].pc == Waiting(i, lastErr) && WaitingStep(s, p, i, lastErr, choice) == Some(s')
    requires Shared(s) && Knows(s, s.procs[p])
    ensures p in s'.procs && Shared(s') && Knows(s', s'.procs[p])
  {
    KnowsAt(s', s'.procs[p]);
    NothingStored(s);
    SharedSame(s, s');
    hide RegionOf, Shared, Knows;
  }

  lemma WinInMoves(s: World, p: Pid, win: RacingResult, s': World)
    requires p in s.procs && s.procs[p].pc == WinIn(win) && WinInStep(s, p, win) == Some(s')
    ensures Moves(s, p, s')
  {
    OneMoves(s, p, s');
    hide MovesOnly;
    RegionAt(s.procs[p].pc);
    RegionAt(s'.procs[p].pc);
    hide RegionOf;
    match win.protocol
    case H2 =>
    case H3 =>
  }

  lemma WinInKeeps(s: World, p: Pid, win: RacingResult, s': World)
    requires p in s.procs && s.procs[p].pc == WinIn(win) && WinInStep(s, p, win) == Some(s')
    requires Shared(s) && Knows(s, s.procs[p])
    ensures p in s'.procs && Shared(s') && Knows(s', s'.procs[p])
  {
    KnowsAt(s', s'.procs[p]);
    hide RegionOf, Knows;
  }

  lemma StoreInMoves(s: World, p: Pid, win: RacingResult, s': World)
    requires p in s.procs && s.procs[p].pc == StoreIn(win) && StoreInStep(s, p, win) == Some(s')
    ensures Moves(s, p, s')
  {
    OneMoves(s, p, s');
    hide MovesOnly;
    RegionAt(s.procs[p].pc);
    RegionAt(s'.procs[p].pc);
    hide RegionOf;
  }

  lemma StoreInKeeps(s: World, p: Pid, win: RacingResult, s': World)
    requires p in s.procs && s.procs[p].pc == StoreIn(win) && StoreInStep(s, p, win) == Some(s')
    requires Shared(s) && Knows(s, s.procs[p])
    ensures p in s'.procs && Shared(s') && Knows(s', s'.procs[p])
  {
    KnowsAt(s', s'.procs[p]);
    NothingStored(s);
    PuttingKeepsShared(s, ByAddrQuic(s.procs[p].addr), Http3, s');
    hide RegionOf, Shared, Knows;
  }

  lemma SendingMoves(s: World, p: Pid, result: RacingResult, s': World)
    requires p in s.procs && s.procs[p].pc == Sending(result) && SendingStep(s, p, result) == Some(s')
    ensures Moves(s, p, s')
  {
    OneMoves(s, p, s');
    hide MovesOnly;
    RegionAt(s.procs[p].pc);
    RegionAt(s'.procs[p].pc);
    hide RegionOf;
  }

  lemma SendingKeeps(s: World, p: Pid, result: RacingResult, s': World)
    requires p in s.procs && s.procs[p].pc == Sending(result) && SendingStep(s, p, result) == Some(s')
    requires Shared(s) && Knows(s, s.procs[p])
    ensures p in s'.procs && Shared(s') && Knows(s', s'.procs[p])
  {
    KnowsAt(s', s'.procs[p]);
    NothingStored(s);
    SharedSame(s, s');
    hide RegionOf, Shared, Knows;
  }

  lemma QuicTryMoves(s: World, p: Pid, choice: Choice, s': World)
    requires p in s.procs && s.procs[p].pc == QuicTry && Step(s, p, choice) == Some(s')
    ensures Moves(s, p, s')
  {
    OneMoves(s, p, s');
    hide MovesOnly;
    RegionAt(s.procs[p].pc);
    RegionAt(s'.procs[p].pc);
    hide RegionOf;
  }

  lemma QuicTryKeeps(s: World, p: Pid, choice: Choice, s': World)
    requires p in s.procs && s.procs[p].pc == QuicTry && Step(s, p, choice) == Some(s')
    requires Shared(s) && Knows(s, s.procs[p])
    ensures p in s'.procs && Shared(s') && Knows(s', s'.procs[p])
  {
    KnowsAt(s', s'.procs[p]);
    NothingStored(s);
    SharedSame(s, s');
    hide RegionOf, Shared, Knows;
  }

  lemma StoringMoves(s: World, p: Pid, win: RacingResult, choice: Choice, s': World)
    requires p in s.procs && s.procs[p].pc == Storing(win) && Step(s, p, choice) == Some(s')
    ensures Moves(s, p, s')
  {
    OneMoves(s, p, s');
    hide MovesOnly;
    RegionAt(s.procs[p].pc);
    RegionAt(s'.procs[p].pc);
    hide RegionOf;
  }

  lemma StoringKeeps(s: World, p: Pid, win: RacingResult, choice: Choice, s': World)
    requires p in s.procs && s.procs[p].pc == Storing(win) && Step(s, p, choice) == Some(s')
    requires Shared(s) && Knows(s, s.procs[p])
    ensures p in s'.procs && Shared(s') && Knows(s', s'.procs[p])
  {
    KnowsAt(s', s'.procs[p]);
    NothingStored(s);
    SharedSame(s, s');
    hide RegionOf, Shared, Knows;
  }

  lemma StepGood(s: World, p: Pid, choice: Choice, s': World)
    requires Inv(s) && p in s.procs && Step(s, p, choice) == Some(s')
    ensures Moves(s, p, s') && Shared(s') && Knows(s', s'.procs[p])
  {
    hide InTransportsStep, InSetupStep, InKindsStep, StashingStep, PublishingStep, AbortingStep;
    hide FlightStep, DropInTransportsStep, DropInKindsStep, DialInEmbeddedStep, DialInKindsStep;
    hide LookupInStep, ClearInStep, StartingStep, WaitingStep, WinInStep, StoreInStep, SendingStep, AcquireStep;
    hide Moves, Shared, Knows;
    var pc := s.procs[p].pc;
    if Wants(pc).Some? {
      AcquireMoves(s, p, Wants(pc).value, s');
      AcquireKeeps(s, p, Wants(pc).value, s');
    } else {
      match pc
      case InTransports => InTransportsMoves(s, p, choice, s'); InTransportsKeeps(s, p, choice, s');
      case InSetup =>
        assert Holds(pc, Embedded) && s.locks.Owner(Embedded) == Some(p);
        InSetupMoves(s, p, choice, s'); InSetupKeeps(s, p, choice, s');
      case InKinds(t) => InKindsMoves(s, p, t, s'); InKindsKeeps(s, p, t, s');
      case Stashing(t) => StashingMoves(s, p, t, s'); StashingKeeps(s, p, t, s');
      case Publishing => PublishingMoves(s, p, s'); PublishingKeeps(s, p, s');
      case Aborting => AbortingMoves(s, p, s'); AbortingKeeps(s, p, s');
      case Flight(t) => FlightMoves(s, p, t, choice.outcome, s'); FlightKeeps(s, p, t, choice.outcome, s');
      case DropInTransports(t) => DropInTransportsMoves(s, p, t, s'); DropInTransportsKeeps(s, p, t, s');
      case DropInKinds => DropInKindsMoves(s, p, s'); DropInKindsKeeps(s, p, s');
      case DialInEmbedded(t, own) =>
        DialInEmbeddedMoves(s, p, t, own, choice, s');
        DialInEmbeddedKeeps(s, p, t, own, choice, s');
      case DialInKinds(t, own, kind) =>
        DialInKindsMoves(s, p, t, own, kind, s');
        DialInKindsKeeps(s, p, t, own, kind, s');
      case LookupIn => LookupInMoves(s, p, s'); LookupInKeeps(s, p, s');
      case ClearIn => ClearInMoves(s, p, s'); ClearInKeeps(s, p, s');
      case Starting =>
        StartingMoves(s, p, choice.quic, choice.tcp, s');
        StartingKeeps(s, p, choice.quic, choice.tcp, s');
      case Waiting(i, lastErr) =>
        WaitingMoves(s, p, i, lastErr, choice, s');
        WaitingKeeps(s, p, i, lastErr, choice, s');
      case WinIn(win) => WinInMoves(s, p, win, s'); WinInKeeps(s, p, win, s');
      case Storing(win) => StoringMoves(s, p, win, choice, s'); StoringKeeps(s, p, win, choice, s');
      case StoreIn(win) => StoreInMoves(s, p, win, s'); StoreInKeeps(s, p, win, s');
      case QuicTry => QuicTryMoves(s, p, choice, s'); QuicTryKeeps(s, p, choice, s');
      case Sending(result) => SendingMoves(s, p, result, s'); SendingKeeps(s, p, result, s');
      case _ =>
    }
  }

  lemma LocksStayOwned(s: World, p: Pid, s': World)
    requires LocksOwned(s) && Moves(s, p, s')
    ensures LocksOwned(s')
  {
    hide Guarded;
    var r, r' := RegionOf(s.procs[p].pc), RegionOf(s'.procs[p].pc);
    forall q <- s'.procs, l: Lock ensures Holds(s'.procs[q].pc, l) <==> s'.locks.Owner(l) == Some(q) {
      assert r.Holds(l) <==> s.locks.Owner(l) == Some(p);
      if q in s.procs {
        assert Holds(s.procs[q].pc, l) <==> s.locks.Owner(l) == Some(q);
      } else {
        assert s.locks.Owner(l) != Some(q);
      }
    }
  }

  /** A step of `p` leaves what every other goroutine knows true. */
  lemma NobodyInterferes(s: World, p: Pid, s': World, q: Pid)
    requires Inv(s) && Moves(s, p, s') && Shared(s')
    requires q in s.procs && q != p
    ensures Knows(s', s'.procs[q])
  {
    var r := RegionOf(s.procs[p].pc);
    var r' := RegionOf(s.procs[q].pc);
    forall l: Lock ensures !(r.Holds(l) && r'.Holds(l)) {
      assert Holds(s.procs[p].pc, l) <==> s.locks.Owner(l) == Some(p);
      assert Holds(s.procs[q].pc, l) <==> s.locks.Owner(l) == Some(q);
    }
  }

  lemma StepKeepsInv(s: World, p: Pid, choice: Choice, s': World)
    requires Inv(s) && p in s.procs && Step(s, p, choice) == Some(s')
    ensures Inv(s')
  {
    hide Step, Shared, Knows, Guarded, LocksOwned;
    StepGood(s, p, choice, s');
    LocksStayOwned(s, p, s');
    forall q <- s'.procs ensures Knows(s', s'.procs[q]) {
      if q in s.procs && q != p {
        NobodyInterferes(s, p, s', q);
      } else if q !in s.procs {
        StartsKnowing(s', s'.procs[q]);
      }
    }
  }

  lemma StartsKnowing(s: World, pr: Proc)
    requires pr.pc.QuicTry? || pr.pc.WantTransports? || pr.pc.LookupWant?
    ensures Knows(s, pr)
  {
  }

  lemma ArrivalKeepsInv(s: World, p: Pid, pr: Proc)
    requires Inv(s) && p !in s.procs && RegionOf(pr.pc) == Outside && Knows(s, pr)
    ensures Inv(s.(procs := s.procs[p := pr]))
  {
    var s' := s.(procs := s.procs[p := pr]);
    forall q <- s'.procs ensures Knows(s', s'.procs[q]) {
      assert Knows(s, s'.procs[q]);
    }
  }

  lemma BeginsKnowing(s: World, pr: Proc)
    requires || pr.pc.LookupWant? || pr.pc.WantTransports?
             || (pr.pc.DialWantEmbedded? && pr.pc.t.addr == pr.addr && pr.pc.t in s.h.issued)
    ensures Knows(s, pr) && RegionOf(pr.pc) == Outside
  {
  }

  lemma ApplyKeepsInv(s: World, e: Event, s': World)
    requires Inv(s) && Apply(s, e) == Some(s')
    ensures Inv(s')
  {
    hide Inv, Step, Knows, RegionOf;
    match e
    case Run(p, choice) => StepKeepsInv(s, p, choice, s');
    case Arrive(p, _, _, _) =>
      BeginsKnowing(s, s'.procs[p]);
      ArrivalKeepsInv(s, p, s'.procs[p]);
    case Dial(p, _) =>
      BeginsKnowing(s, s'.procs[p]);
      ArrivalKeepsInv(s, p, s'.procs[p]);
  }

  lemma {:induction false} ReachableInv(s: World, es: seq<Event>, s': World)
    requires Inv(s) && Exec(s, es) == Some(s')
    ensures Inv(s')
    decreases |es|
  {
    hide Inv, Apply;
    if es != [] {
      var next := Apply(s, es[0]).value;
      ApplyKeepsInv(s, es[0], next);
      ReachableInv(next, es[1..], s');
    }
  }
}
