/** The round tripper as one goroutine sees it: the maps are fields that its methods update. The
    critical sections are those of `TransportCache`, so what they do to the maps is stated with the
    same functions. */
module RoundTripper {
  import opened Wrappers
  import opened TransportCache

  /** How one dial and handshake can end. */
  datatype Net = Unreachable | BadHandshake | BadPin | Completed(protocol: string, builds: bool)

  datatype DialResult = Connection(kind: Kind) | Negotiated | BadPinDetected | DialError(error: Error)

  datatype SetupResult = SetupDone | PinFailure | SetupError(error: Error)

  /** What the transport makes of a request once its dials are over. */
  datatype Reply = Answers(response: nat) | Breaks | Surfaces

  /** `net` is for the first dial, if there is one, and `dials` are the TLS dials of the transport. */
  datatype Request = Request(scheme: Scheme, addr: Addr, net: Net, dials: seq<Net>, reply: Reply)

  /** How often consecutive handshakes negotiated different kinds. */
  ghost function Changes(kinds: seq<Kind>): nat {
    if |kinds| < 2 then 0
    else Changes(kinds[..|kinds| - 1]) + (if kinds[|kinds| - 1] != kinds[|kinds| - 2] then 1 else 0)
  }

  lemma {:induction false} ChangesUpTo(kinds: seq<Kind>, i: nat)
    requires i <= |kinds|
    ensures Changes(kinds[..i]) <= Changes(kinds)
  {
    if i == |kinds| {
      assert kinds[..i] == kinds;
    } else {
      ChangesUpTo(kinds[..|kinds| - 1], i);
      assert kinds[..|kinds| - 1][..i] == kinds[..i];
    }
  }

  lemma ChangesAfterOneMore(kinds: seq<Kind>, kind: Kind)
    ensures Changes(kinds) <= Changes(kinds + [kind])
  {
    assert (kinds + [kind])[..|kinds|] == kinds;
    ChangesUpTo(kinds + [kind], |kinds|);
  }

  /** A later handshake of another kind than the `i`-th means at least one change after it. */
  lemma {:induction false} ChangeAfter(kinds: seq<Kind>, i: nat, j: nat)
    requires i < j < |kinds| && kinds[i] != kinds[j]
    ensures Changes(kinds[..i + 1]) < Changes(kinds)
  {
    var n := |kinds| - 1;
    if j < n {
      ChangeAfter(kinds[..n], i, j);
      assert kinds[..n][..i + 1] == kinds[..i + 1];
    } else if kinds[n - 1] == kinds[n] {
      ChangeAfter(kinds[..n], i, n - 1);
      assert kinds[..n][..i + 1] == kinds[..i + 1];
    } else {
      ChangesUpTo(kinds[..n], i + 1);
      assert kinds[..n][..i + 1] == kinds[..i + 1];
    }
  }

  predicate ChangesAt(kinds: seq<Kind>, i: nat) {
    0 < i < |kinds| && kinds[i] != kinds[i - 1]
  }

  /** Every handshake of another kind than the one before it counts once. */
  lemma {:induction false} ChangesAreCounted(kinds: seq<Kind>)
    ensures Changes(kinds) == |set i: nat | i < |kinds| && ChangesAt(kinds, i)|
  {
    var now := set i: nat | i < |kinds| && ChangesAt(kinds, i);
    if |kinds| >= 2 {
      var n := |kinds| - 1;
      ChangesAreCounted(kinds[..n]);
      assert forall i: nat | i < n :: ChangesAt(kinds[..n], i) <==> ChangesAt(kinds, i);
      var before := set i: nat | i < |kinds[..n]| && ChangesAt(kinds[..n], i);
      hide ChangesAt;
      CountsOneMore(before, now, n);
    } else {
      assert now == {};
    }
  }

  lemma CountsOneMore(before: set<nat>, now: set<nat>, n: nat)
    requires forall i: nat :: i in before <==> i < n && i in now
    requires forall i <- now :: i <= n
    ensures |now| == |before| + if n in now then 1 else 0
  {
    assert now == before + if n in now then {n} else {};
  }

  /** Everything the round tripper holds for one address, and the history of that address: the kinds
      of its completed, pin-accepted handshakes, which of them set up the cached transport, how many
      transports were cached for it over plain http, and how many requests failed with
      errProtocolChanged. */
  datatype Slot = Slot(
    transport: Option<Transport>,
    kind: Option<Kind>,
    stash: Option<Kind>,
    seen: seq<Kind>,
    setUpBy: nat,
    plain: nat,
    failures: nat)
  {
    /** The cached transport has the recorded kind and that of the handshake that set it up, and every
        failed request was paid for up to that handshake. */
    ghost predicate SetUp() {
      && transport.Some? && kind == Some(transport.value.kind)
      && setUpBy < |seen| && seen[setUpBy] == transport.value.kind
      && failures <= Changes(seen[..setUpBy + 1]) + plain
    }

    /** The cached transport was built for http: its kind is not recorded, and it can pay for one
        failure. */
    ghost predicate SetUpPlain() {
      transport.Some? && transport.value.kind == Http1 && kind.None? && CanPay()
    }

    ghost predicate CanPay() {
      failures < Changes(seen) + plain
    }

    ghost predicate Fits() {
      if transport.None? then kind.None? && stash.None? && failures <= Changes(seen) + plain
      else if kind.None? then SetUpPlain() && stash.None?
      else SetUp() && (stash.Some? ==> stash == kind)
    }
  }

  /** The handshake completes, and its transport can be built. */
  predicate CanSetUp(net: Net) {
    net.Completed? && (net.protocol != "h3" || net.builds)
  }

  /** The three map writes of a set-up, and what it adds to the history. */
  ghost predicate SetUpWith(before: Slot, after: Slot, t: Transport) {
    && after.transport == Some(t) && after.kind == Some(t.kind) && after.stash == Some(t.kind)
    && after.seen == before.seen + [t.kind] && after.setUpBy == |before.seen|
    && after.plain == before.plain && after.failures == before.failures
  }

  /** A set-up that completes, and a handshake whose transport cannot be built. */
  lemma AfterHandshake(before: Slot, t: Transport)
    requires before.Fits() && before.transport.None?
    ensures before.(seen := before.seen + [t.kind]).Fits()
    ensures before.(transport := Some(t), kind := Some(t.kind), stash := Some(t.kind),
                    seen := before.seen + [t.kind], setUpBy := |before.seen|).Fits()
  {
    ChangesAfterOneMore(before.seen, t.kind);
    assert (before.seen + [t.kind])[..|before.seen| + 1] == before.seen + [t.kind];
  }

  /** A handshake of another kind than the recorded one pays for a failure. */
  lemma OtherKindPays(slot: Slot, bad: nat)
    requires slot.Fits() && slot.transport.Some? && bad < |slot.seen| && Some(slot.seen[bad]) != slot.kind
    requires slot.kind.Some? ==> slot.setUpBy < bad
    ensures slot.CanPay()
  {
    if slot.kind.Some? {
      ChangeAfter(slot.seen, slot.setUpBy, bad);
    }
  }

  /** A dial by the cached transport may empty the stash and see one more handshake. */
  lemma Reconnected(before: Slot, after: Slot)
    requires before.Fits() && before.transport.Some? && after.stash.None?
    requires after == before.(stash := None, seen := after.seen)
    requires after.seen == before.seen || exists kind :: after.seen == before.seen + [kind]
    ensures after.Fits()
  {
    if after.seen != before.seen {
      var kind :| after.seen == before.seen + [kind];
      ChangesAfterOneMore(before.seen, kind);
      if before.kind.Some? {
        assert after.seen[..before.setUpBy + 1] == before.seen[..before.setUpBy + 1];
      }
    }
  }

  /** Since `before` the address had a handshake of another kind than the recorded one. */
  ghost predicate ShookOtherKind(before: Slot, after: Slot) {
    exists j | |before.seen| <= j < |after.seen| :: Some(after.seen[j]) != before.kind
  }

  lemma OneMoreShake(before: Slot, mid: Slot, after: Slot)
    requires |before.seen| <= |mid.seen| && mid.seen <= after.seen && |after.seen| <= |mid.seen| + 1
    ensures ShookOtherKind(before, after) <==>
              ShookOtherKind(before, mid) || (|after.seen| > |mid.seen| && Some(after.seen[|mid.seen|]) != before.kind)
  {
    if ShookOtherKind(before, mid) {
      var j :| |before.seen| <= j < |mid.seen| && Some(mid.seen[j]) != before.kind;
      assert after.seen[j] == mid.seen[j];
    }
  }

  /** The handshakes that complete in the dials of a transport: the first dial takes a stashed connection. */
  ghost function Shaken(stash: Option<Kind>, dials: seq<Net>): seq<Kind> {
    if dials == [] then []
    else
      var n := |dials| - 1;
      Shaken(stash, dials[..n]) +
      if dials[n].Completed? && (n > 0 || stash.None?) then [KindForProtocol(dials[n].protocol)] else []
  }

  /** One of these handshakes is of another kind than the recorded one. */
  ghost predicate MeetsOtherKind(kind: Option<Kind>, stash: Option<Kind>, dials: seq<Net>) {
    exists i | 0 <= i < |dials| ::
      dials[i].Completed? && (i > 0 || stash.None?) && Some(KindForProtocol(dials[i].protocol)) != kind
  }

  lemma {:induction false} ShakenMeans(kind: Option<Kind>, stash: Option<Kind>, dials: seq<Net>)
    ensures MeetsOtherKind(kind, stash, dials) <==> exists k <- Shaken(stash, dials) :: Some(k) != kind
    decreases |dials|
  {
    if dials != [] {
      var n := |dials| - 1;
      ShakenMeans(kind, stash, dials[..n]);
      MeetsLater(kind, stash, dials);
      hide MeetsOtherKind;
    }
  }

  lemma MeetsLater(kind: Option<Kind>, stash: Option<Kind>, dials: seq<Net>)
    requires dials != []
    ensures var n := |dials| - 1;
            MeetsOtherKind(kind, stash, dials) <==>
              || MeetsOtherKind(kind, stash, dials[..n])
              || (dials[n].Completed? && (n > 0 || stash.None?) && Some(KindForProtocol(dials[n].protocol)) != kind)
  {
    assert forall i | 0 <= i < |dials| - 1 :: dials[..|dials| - 1][i] == dials[i];
  }

  lemma ShookMeans(before: Slot, dials: seq<Net>, after: Slot)
    requires after.seen == before.seen + Shaken(before.stash, dials)
    ensures ShookOtherKind(before, after) <==> MeetsOtherKind(before.kind, before.stash, dials)
  {
    ShakenMeans(before.kind, before.stash, dials);
    var more := Shaken(before.stash, dials);
    hide Shaken, MeetsOtherKind;
    if k :| k in more && Some(k) != before.kind {
      var j :| 0 <= j < |more| && more[j] == k;
      assert after.seen[|before.seen| + j] == k;
    }
    if ShookOtherKind(before, after) {
      var j :| |before.seen| <= j < |after.seen| && Some(after.seen[j]) != before.kind;
      assert after.seen[j] == more[j - |before.seen|] && after.seen[j] in more;
    }
  }

  lemma NothingShaken(slot: Slot, dials: seq<Net>)
    ensures Shaken(slot.stash, dials[..0]) == [] && !ShookOtherKind(slot, slot)
  {
  }

  lemma SetUpIsSeen(slot: Slot)
    requires slot.Fits()
    ensures slot.transport.Some? && slot.kind.Some? ==> slot.setUpBy < |slot.seen|
  {
  }

  lemma ShakenNext(stash: Option<Kind>, dials: seq<Net>, i: nat)
    requires i < |dials|
    ensures Shaken(stash, dials[..i + 1]) == Shaken(stash, dials[..i]) +
              if dials[i].Completed? && (i > 0 || stash.None?) then [KindForProtocol(dials[i].protocol)] else []
  {
    assert dials[..i + 1][..i] == dials[..i];
  }

  lemma FailuresArePaidFor(slot: Slot)
    requires slot.Fits()
    ensures slot.failures <= Changes(slot.seen) + slot.plain
  {
    if slot.transport.Some? && slot.kind.Some? {
      ChangesUpTo(slot.seen, slot.setUpBy + 1);
    }
  }

  /** The request gets as far as a transport: a cached one, one for http, or one that a first dial sets up. */
  predicate FindsTransport(before: Slot, request: Request) {
    before.transport.Some? || request.scheme.Http? || (request.scheme.Https? && CanSetUp(request.net))
  }

  /** The recorded kind and the stashed connection when the request is handed to its transport. */
  function Found(before: Slot, request: Request): (Option<Kind>, Option<Kind>)
    requires FindsTransport(before, request)
  {
    if before.transport.Some? then (before.kind, before.stash)
    else if request.scheme.Http? then (None, None)
    else if request.net.protocol == "h2" then (Some(Http2), Some(Http2))
    else if request.net.protocol == "h3" then (Some(Http3), Some(Http3))
    else (Some(Http1), Some(Http1))
  }

  function Lookup<K, V>(m: map<K, V>, k: K): Option<V> {
    if k in m then Some(m[k]) else None
  }

  class RoundTripper {
    var cachedTransports: map<Key, Transport>
    var cachedKinds: map<Addr, Kind>
    var cachedConnections: map<Addr, Kind>
    var nextId: nat

    ghost var handshakes: map<Addr, seq<Kind>>
    ghost var setUpBy: map<Addr, nat>
    ghost var plain: map<Addr, nat>
    ghost var failures: map<Addr, nat>

    ghost function Maps(): Caches
      reads this
    {
      Caches(cachedTransports, cachedKinds, cachedConnections, nextId)
    }

    ghost function At(a: Addr): Slot
      reads this
    {
      Slot(Lookup(cachedTransports, ByAddr(a)), Lookup(cachedKinds, a), Lookup(cachedConnections, a),
           Lookup(handshakes, a).GetOr([]), Lookup(setUpBy, a).GetOr(0), Lookup(plain, a).GetOr(0),
           Lookup(failures, a).GetOr(0))
    }

    ghost predicate Valid()
      reads this
    {
      forall a :: At(a).Fits()
    }

    constructor ()
      ensures Valid() && Maps() == Caches(map[], map[], map[], 0)
      ensures forall a :: At(a) == Slot(None, None, None, [], 0, 0, 0)
    {
      cachedTransports, cachedKinds, cachedConnections, nextId := map[], map[], map[], 0;
      handshakes, failures, setUpBy, plain := map[], map[], map[], map[];
    }

    method DropCachedTransport(addr: Addr, stale: Transport)
      modifies `cachedTransports, `cachedKinds
      ensures Maps() == old(Maps()).DropTransport(addr, stale).DropKind(addr)
      ensures cachedKinds == old(cachedKinds) - {addr}
      ensures cachedTransports == if old(At(addr)).transport == Some(stale)
                                  then old(cachedTransports) - {ByAddr(addr)} else old(cachedTransports)
    {
      if ByAddr(addr) in cachedTransports && cachedTransports[ByAddr(addr)] == stale {
        cachedTransports := cachedTransports - {ByAddr(addr)};
      }
      cachedKinds := cachedKinds - {addr};
    }

    /** The dial of getTransport, which builds and caches, and the dial of a cached transport, which
        never does. */
    method DialTLSWithSetup(addr: Addr, net: Net, setup: bool) returns (r: DialResult)
      modifies this
      ensures failures == old(failures) && setUpBy == old(setUpBy) && plain == old(plain)
      ensures old(addr in cachedConnections) ==>
                r == Connection(old(cachedConnections)[addr]) && Maps() == old(Maps()).TakeStash(addr)
      ensures old(addr !in cachedConnections) && !net.Completed? ==>
                r == if net.BadPin? then BadPinDetected else DialError(Refused)
      ensures !r.Negotiated? && old(addr !in cachedConnections) ==> Maps() == old(Maps())
      ensures old(addr !in cachedConnections) && net.Completed? && !setup ==>
                r == if addr in cachedKinds && cachedKinds[addr] == KindForProtocol(net.protocol)
                     then Connection(KindForProtocol(net.protocol)) else DialError(ProtocolChanged)
      ensures old(addr !in cachedConnections) && net.Completed? && setup ==>
                r == if KindForProtocol(net.protocol) == Http3 && !net.builds then DialError(Refused) else Negotiated
      ensures r.Negotiated? ==>
                var kind := KindForProtocol(net.protocol);
                setup && net.Completed? &&
                Maps() == old(Maps()).Put(ByAddr(addr), kind).PutKind(addr, kind).PutStash(addr, kind)
      ensures handshakes == if old(addr !in cachedConnections) && net.Completed?
                            then old(handshakes)[addr := old(At(addr)).seen + [KindForProtocol(net.protocol)]]
                            else old(handshakes)
    {
      if addr in cachedConnections {
        r := Connection(cachedConnections[addr]);
        cachedConnections := cachedConnections - {addr};
        return;
      }
      if !net.Completed? {
        return if net.BadPin? then BadPinDetected else DialError(Refused);
      }
      var kind := KindForProtocol(net.protocol);
      handshakes := handshakes[addr := At(addr).seen + [kind]];
      if !setup {
        if addr in cachedKinds && cachedKinds[addr] == kind {
          return Connection(kind);
        } else {
          return DialError(ProtocolChanged);
        }
      }
      if kind == Http3 && !net.builds {
        return DialError(Refused);
      }
      cachedTransports := cachedTransports[ByAddr(addr) := Transport(nextId, addr, kind)];
      nextId := nextId + 1;
      cachedKinds := cachedKinds[addr := kind];
      cachedConnections := cachedConnections[addr := kind];
      r := Negotiated;
    }

    /** A failed set-up leaves the three maps as they were, and the http branch caches a transport
        without recording its kind. */
    method GetTransport(scheme: Scheme, addr: Addr, net: Net) returns (r: SetupResult)
      requires Valid() && ByAddr(addr) !in cachedTransports
      modifies this
      ensures Valid() && At(addr).failures == old(At(addr)).failures
      ensures forall a | a != addr :: At(a) == old(At(a))
      ensures r.SetupDone? <==> ByAddr(addr) in cachedTransports
      ensures !r.SetupDone? ==> Maps() == old(Maps())
      ensures scheme.Http? ==> r.SetupDone? && Maps() == old(Maps()).Put(ByAddr(addr), Http1)
      ensures scheme.Http? ==>
                At(addr) == old(At(addr)).(transport := Some(Transport(old(nextId), addr, Http1)),
                                           plain := old(At(addr)).plain + 1)
      ensures scheme.OtherScheme? ==> r == SetupError(BadScheme)
      ensures scheme.Https? ==>
                r == if CanSetUp(net) then SetupDone else if net.BadPin? then PinFailure else SetupError(Refused)
      ensures scheme.Https? && CanSetUp(net) ==>
                SetUpWith(old(At(addr)), At(addr), Transport(old(nextId), addr, KindForProtocol(net.protocol)))
      ensures At(addr).plain == old(At(addr)).plain + if scheme.Http? then 1 else 0
    {
      assert At(addr).Fits() && addr !in cachedConnections;
      ghost var before := At(addr);
      match scheme {
        case Http =>
          cachedTransports := cachedTransports[ByAddr(addr) := Transport(nextId, addr, Http1)];
          nextId := nextId + 1;
          plain := plain[addr := before.plain + 1];
          r := SetupDone;
          assert At(addr).Fits();
        case OtherScheme =>
          return SetupError(BadScheme);
        case Https =>
          r := SetUpOverTLS(addr, net);
      }
      hide Slot.Fits;
      forall a | a != addr ensures At(a) == old(At(a)) && At(a).Fits() {
        assert old(At(a)).Fits();
      }
    }

    /** The https branch of getTransport. */
    method SetUpOverTLS(addr: Addr, net: Net) returns (r: SetupResult)
      requires Valid() && ByAddr(addr) !in cachedTransports
      modifies this
      ensures Valid() && At(addr).failures == old(At(addr)).failures && At(addr).plain == old(At(addr)).plain
      ensures forall a | a != addr :: At(a) == old(At(a))
      ensures r.SetupDone? <==> ByAddr(addr) in cachedTransports
      ensures r.SetupDone? <==> net.Completed? && (net.protocol != "h3" || net.builds)
      ensures !r.SetupDone? ==> Maps() == old(Maps()) && r == if net.BadPin? then PinFailure else SetupError(Refused)
      ensures r.SetupDone? ==>
                SetUpWith(old(At(addr)), At(addr), Transport(old(nextId), addr, KindForProtocol(net.protocol)))
    {
      assert At(addr).Fits() && addr !in cachedConnections;
      ghost var before, kind := At(addr), KindForProtocol(if net.Completed? then net.protocol else "");
      ghost var t := Transport(nextId, addr, kind);
      AfterHandshake(before, t);
      hide Slot.Fits, Changes;
      if net.Completed? { KindsOfProtocols(net.protocol); }
      hide KindForProtocol;
      var dialled := DialTLSWithSetup(addr, net, true);
      match dialled {
        case Negotiated =>
          setUpBy := setUpBy[addr := |before.seen|];
          assert At(addr) == before.(transport := Some(t), kind := Some(t.kind), stash := Some(t.kind),
                                     seen := before.seen + [t.kind], setUpBy := |before.seen|);
          r := SetupDone;
        case Connection(_) =>
          // getTransport panics here.
          assert false;
        case BadPinDetected =>
          assert At(addr) == before;
          r := PinFailure;
        case DialError(error) =>
          assert At(addr) == if net.Completed? then before.(seen := before.seen + [t.kind]) else before;
          r := SetupError(error);
      }
      forall a | a != addr ensures At(a) == old(At(a)) && At(a).Fits() {
        assert old(At(a)).Fits();
      }
    }

    /** One dial by the cached transport. */
    method Reconnect(addr: Addr, net: Net) returns (r: DialResult)
      requires Valid() && ByAddr(addr) in cachedTransports
      modifies this
      ensures Valid()
      ensures forall a | a != addr :: At(a) == old(At(a))
      ensures cachedTransports == old(cachedTransports) && cachedKinds == old(cachedKinds)
      ensures At(addr) == old(At(addr)).(stash := At(addr).stash, seen := At(addr).seen)
      ensures At(addr).stash.None?
      ensures r.Connection? ==> r.kind == cachedTransports[ByAddr(addr)].kind
      ensures r == var before := old(At(addr));
                   if before.stash.Some? then Connection(before.transport.value.kind)
                   else if net.BadPin? then BadPinDetected
                   else if !net.Completed? then DialError(Refused)
                   else if Some(KindForProtocol(net.protocol)) == before.kind
                   then Connection(before.transport.value.kind) else DialError(ProtocolChanged)
      ensures var shaken := old(At(addr)).stash.None? && net.Completed?;
              && At(addr).seen == old(At(addr)).seen + (if shaken then [KindForProtocol(net.protocol)] else [])
              && (r == DialError(ProtocolChanged) <==> shaken && Some(KindForProtocol(net.protocol)) != At(addr).kind)
    {
      assert At(addr).Fits();
      r := DialTLSWithSetup(addr, net, false);
      Reconnected(old(At(addr)), At(addr));
      hide Slot.Fits;
      forall a | a != addr ensures At(a) == old(At(a)) && At(a).Fits() {
        assert old(At(a)).Fits();
      }
    }

    /** The transport's own RoundTrip: any number of dials, then a reply. It can surface
        errProtocolChanged only if one of its dials reported it, and then the stash is empty and
        something has paid for the failure. */
    method Send(addr: Addr, dials: seq<Net>, reply: Reply) returns (outcome: Outcome)
      requires Valid() && ByAddr(addr) in cachedTransports
      modifies this
      ensures Valid()
      ensures forall a | a != addr :: At(a) == old(At(a))
      ensures var before := old(At(addr));
              At(addr) == before.(stash := if dials == [] then before.stash else None,
                                  seen := before.seen + Shaken(before.stash, dials))
      ensures outcome == match reply
                         case Answers(response) => Answer(response)
                         case Breaks => Failure(RequestFailed)
                         case Surfaces =>
                           var before := old(At(addr));
                           Failure(if MeetsOtherKind(before.kind, before.stash, dials) then ProtocolChanged
                                   else RequestFailed)
      ensures outcome == Failure(ProtocolChanged) ==> At(addr).stash.None? && At(addr).CanPay()
    {
      ghost var taken := At(addr);
      assert taken.Fits();
      hide Slot.Fits, Changes, Shaken, ShookOtherKind, MeetsOtherKind, KindForProtocol;
      NothingShaken(taken, dials);
      var reported := false;
      ghost var bad: nat := 0;
      for i := 0 to |dials|
        invariant Valid()
        invariant forall a | a != addr :: At(a) == old(At(a))
        invariant At(addr) == taken.(stash := if i == 0 then taken.stash else None,
                                     seen := taken.seen + Shaken(taken.stash, dials[..i]))
        invariant reported ==> At(addr).stash.None?
        invariant reported ==> bad < |At(addr).seen| && Some(At(addr).seen[bad]) != taken.kind
        invariant reported && taken.kind.Some? ==> taken.setUpBy < bad
        invariant reported <==> ShookOtherKind(taken, At(addr))
      {
        ShakenNext(taken.stash, dials, i);
        SetUpIsSeen(At(addr));
        ghost var n := |At(addr).seen|;
        ghost var mid := At(addr);
        var r := Reconnect(addr, dials[i]);
        OneMoreShake(taken, mid, At(addr));
        if r == DialError(ProtocolChanged) {
          reported := true;
          bad := n;
        }
      }
      assert At(addr).Fits() && dials[..|dials|] == dials;
      ShookMeans(taken, dials, At(addr));
      match reply {
        case Answers(response) => outcome := Answer(response);
        case Breaks => outcome := Failure(RequestFailed);
        case Surfaces =>
          if reported { OtherKindPays(At(addr), bad); }
          outcome := Failure(if reported then ProtocolChanged else RequestFailed);
      }
    }

    /** RoundTrip without a racer. A failure with errProtocolChanged is the only way a cached transport
        leaves the cache, and then it always leaves. `pinReported` is whether the handler for bad pins, if
        there is one, is called. */
    method RoundTrip(request: Request) returns (outcome: Outcome, pinReported: bool)
      requires Valid()
      modifies this
      ensures Valid()
      ensures forall a | a != request.addr :: At(a) == old(At(a))
      ensures At(request.addr).failures ==
                old(At(request.addr)).failures + if outcome == Failure(ProtocolChanged) then 1 else 0
      ensures At(request.addr).plain ==
                old(At(request.addr)).plain +
                if old(At(request.addr)).transport.None? && request.scheme.Http? then 1 else 0
      ensures outcome == Failure(ProtocolChanged) ==>
                At(request.addr).transport.None? && At(request.addr).kind.None? && At(request.addr).stash.None?
      ensures outcome != Failure(ProtocolChanged) && old(At(request.addr)).transport.Some? ==>
                At(request.addr).transport == old(At(request.addr)).transport
      ensures var before := old(At(request.addr));
              if !FindsTransport(before, request) then
                && outcome == Failure(if request.scheme.OtherScheme? then BadScheme else Refused)
                && Maps() == old(Maps())
              else
                outcome == match request.reply
                           case Answers(response) => Answer(response)
                           case Breaks => Failure(RequestFailed)
                           case Surfaces =>
                             var (kind, stash) := Found(before, request);
                             Failure(if MeetsOtherKind(kind, stash, request.dials) then ProtocolChanged
                                     else RequestFailed)
      ensures var before := old(At(request.addr));
              FindsTransport(before, request) && outcome != Failure(ProtocolChanged) ==>
                var (kind, stash) := Found(before, request);
                && At(request.addr).kind == kind
                && At(request.addr).stash == (if request.dials == [] then stash else None)
                && At(request.addr).transport.Some?
                && (before.transport.None? ==> At(request.addr).transport.value.kind == kind.GetOr(Http1))
      ensures pinReported <==> old(At(request.addr)).transport.None? && request.scheme.Https? && request.net.BadPin?
      ensures pinReported ==> outcome == Failure(Refused) && Maps() == old(Maps())
    {
      var addr := request.addr;
      pinReported := false;
      assert At(addr).Fits();
      if ByAddr(addr) !in cachedTransports {
        var setup := GetTransport(request.scheme, addr, request.net);
        match setup {
          case SetupDone =>
          case PinFailure =>
            return Failure(Refused), true;
          case SetupError(error) =>
            return Failure(error), false;
        }
      }
      var t := cachedTransports[ByAddr(addr)];
      outcome := Send(addr, request.dials, request.reply);
      if outcome == Failure(ProtocolChanged) {
        Forget(addr, t);
      }
    }

    /** The drop that follows a failure with errProtocolChanged. */
    method Forget(addr: Addr, t: Transport)
      requires Valid() && At(addr).transport == Some(t) && At(addr).stash.None? && At(addr).CanPay()
      modifies this
      ensures Valid() && forall a | a != addr :: At(a) == old(At(a))
      ensures At(addr) == old(At(addr)).(transport := None, kind := None, failures := old(At(addr)).failures + 1)
    {
      assert At(addr).Fits();
      failures := failures[addr := At(addr).failures + 1];
      DropCachedTransport(addr, t);
      assert At(addr).Fits();
      hide Slot.Fits;
      forall a | a != addr ensures At(a) == old(At(a)) && At(a).Fits() {
        assert old(At(a)).Fits();
      }
    }

    /** Over any run of requests, each failure with errProtocolChanged has a change of kind between
        consecutive handshakes with its address, or a transport that was cached for it over plain http. */
    method Serve(requests: seq<Request>) returns (outcomes: seq<Outcome>)
      requires Valid() && forall a :: At(a) == Slot(None, None, None, [], 0, 0, 0)
      modifies this
      ensures |outcomes| == |requests|
      ensures forall a :: Changed(requests, outcomes, a) <= Changes(At(a).seen) + PlainRequests(requests, a)
    {
      outcomes := [];
      hide Slot.Fits, Changes, Changed, PlainRequests;
      NoneYet(requests);
      for i := 0 to |requests|
        invariant Valid() && |outcomes| == i
        invariant forall a :: At(a).failures == Changed(requests[..i], outcomes, a)
        invariant forall a :: At(a).plain <= PlainRequests(requests[..i], a)
      {
        var outcome, _ := RoundTrip(requests[i]);
        forall a { OneMore(requests, outcomes, outcome, a); }
        outcomes := outcomes + [outcome];
      }
      assert requests[..|requests|] == requests;
      forall a ensures Changed(requests, outcomes, a) <= Changes(At(a).seen) + PlainRequests(requests, a) {
        FailuresArePaidFor(At(a));
      }
    }

    /** Plain requests can cost such a failure: after one over http, the first https request to the same
        address fails, whatever the server speaks, and the server never changed. */
    method HttpThenHttps(addr: Addr, first: Reply, protocol: string) returns (outcome: Outcome)
      requires Valid() && At(addr) == Slot(None, None, None, [], 0, 0, 0)
      modifies this
      ensures outcome == Failure(ProtocolChanged) && At(addr).seen == [KindForProtocol(protocol)]
    {
      assert At(addr).transport.None?;
      var done := GetTransport(Http, addr, Unreachable);
      var answer := Send(addr, [], first);
      var dials := [Completed(protocol, true)];
      ghost var before := At(addr);
      assert dials[..0] == [] && before.kind.None? && before.seen == [];
      outcome := Send(addr, dials, Surfaces);
      assert Shaken(None, dials) == [KindForProtocol(protocol)];
      assert At(addr).seen == [KindForProtocol(protocol)] && At(addr).seen[0] == KindForProtocol(protocol);
      assert Some(At(addr).seen[0]) != before.kind;
    }
  }

  /** The number of requests to `a` that failed with errProtocolChanged. */
  ghost function Changed(requests: seq<Request>, outcomes: seq<Outcome>, a: Addr): nat
    requires |outcomes| == |requests|
  {
    if requests == [] then 0
    else
      var n := |requests| - 1;
      Changed(requests[..n], outcomes[..n], a) +
      if requests[n].addr == a && outcomes[n] == Failure(ProtocolChanged) then 1 else 0
  }

  predicate FailsAt(requests: seq<Request>, outcomes: seq<Outcome>, a: Addr, i: nat) {
    i < |requests| && i < |outcomes| && requests[i].addr == a && outcomes[i] == Failure(ProtocolChanged)
  }

  predicate PlainAt(requests: seq<Request>, a: Addr, i: nat) {
    i < |requests| && requests[i].addr == a && requests[i].scheme.Http?
  }

  /** Every request that failed so counts once, and so does every plain one. */
  lemma {:induction false} FailuresAreCounted(requests: seq<Request>, outcomes: seq<Outcome>, a: Addr)
    requires |outcomes| == |requests|
    ensures Changed(requests, outcomes, a) == |set i: nat | i < |requests| && FailsAt(requests, outcomes, a, i)|
  {
    var now := set i: nat | i < |requests| && FailsAt(requests, outcomes, a, i);
    if requests == [] {
      assert now == {};
    } else {
      var n := |requests| - 1;
      FailuresAreCounted(requests[..n], outcomes[..n], a);
      assert forall i: nat | i < n ::
          FailsAt(requests[..n], outcomes[..n], a, i) <==> FailsAt(requests, outcomes, a, i);
      var before := set i: nat | i < |requests[..n]| && FailsAt(requests[..n], outcomes[..n], a, i);
      assert FailsAt(requests, outcomes, a, n) <==> requests[n].addr == a && outcomes[n] == Failure(ProtocolChanged);
      hide FailsAt;
      CountsOneMore(before, now, n);
    }
  }

  lemma {:induction false} PlainRequestsAreCounted(requests: seq<Request>, a: Addr)
    ensures PlainRequests(requests, a) == |set i: nat | i < |requests| && PlainAt(requests, a, i)|
  {
    var now := set i: nat | i < |requests| && PlainAt(requests, a, i);
    if requests == [] {
      assert now == {};
    } else {
      var n := |requests| - 1;
      PlainRequestsAreCounted(requests[..n], a);
      assert forall i: nat | i < n :: PlainAt(requests[..n], a, i) <==> PlainAt(requests, a, i);
      var before := set i: nat | i < |requests[..n]| && PlainAt(requests[..n], a, i);
      assert PlainAt(requests, a, n) <==> requests[n].addr == a && requests[n].scheme.Http?;
      hide PlainAt;
      CountsOneMore(before, now, n);
    }
  }

  lemma NoneYet(requests: seq<Request>)
    ensures forall a :: Changed(requests[..0], [], a) == 0 && PlainRequests(requests[..0], a) == 0
  {
  }

  lemma OneMore(requests: seq<Request>, outcomes: seq<Outcome>, outcome: Outcome, a: Addr)
    requires |outcomes| < |requests|
    ensures var i := |outcomes|;
            && Changed(requests[..i + 1], outcomes + [outcome], a) == Changed(requests[..i], outcomes, a) +
                 (if requests[i].addr == a && outcome == Failure(ProtocolChanged) then 1 else 0)
            && PlainRequests(requests[..i + 1], a) == PlainRequests(requests[..i], a) +
                 if requests[i].addr == a && requests[i].scheme.Http? then 1 else 0
  {
    var i := |outcomes|;
    assert requests[..i + 1][..i] == requests[..i] && (outcomes + [outcome])[..i] == outcomes;
  }

  /** The number of requests to `a` over plain http. */
  ghost function PlainRequests(requests: seq<Request>, a: Addr): nat {
    if requests == [] then 0
    else
      var n := |requests| - 1;
      PlainRequests(requests[..n], a) + if requests[n].addr == a && requests[n].scheme.Http? then 1 else 0
  }
}
