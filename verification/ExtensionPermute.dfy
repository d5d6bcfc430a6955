/** extension_permute.go: the order of the TLS extensions, varied with some positions pinned. */
module ExtensionPermute {
  import opened Shuffle

  datatype Kind = Grease | PreSharedKey | Padding | Other(name: nat)

  /** An extension; `id` tells two extensions of one kind apart. */
  datatype Extension = Extension(kind: Kind, id: nat)

  datatype Mode = Off | Chrome | All | Prefix

  datatype Config = Config(mode: Mode, prefix: int)

  predicate Pinned(e: Extension, includePadding: bool) {
    match e.kind
    case Grease | PreSharedKey => true
    case Padding => !includePadding
    case Other(_) => false
  }

  ghost function Pins(exts: seq<Extension>, includePadding: bool): set<nat> {
    set p: nat | p < |exts| && Pinned(exts[p], includePadding)
  }

  /** How much of the list moves at all. */
  function Span(cfg: Config, length: nat): (limit: nat)
    ensures limit <= length
  {
    match cfg.mode
    case Off => 0
    case Prefix => if cfg.prefix <= 0 || cfg.prefix >= length then 0 else cfg.prefix
    case Chrome | All => length
  }

  ghost function Permuted(exts: seq<Extension>, cfg: Config, draws: seq<nat>): seq<Extension>
    requires IsDraws(draws) && |draws| == Span(cfg, |exts|)
  {
    Shuffled(exts, draws, Pins(exts, cfg.mode.All?))
  }

  // The code

  lemma PinsStay(s: seq<Extension>, i: nat, j: nat, includePadding: bool)
    requires i < |s| && j < |s|
    ensures Pins(Step(s, i, j, Pins(s, includePadding)), includePadding) == Pins(s, includePadding)
  {
  }

  lemma PinsAt(s: seq<Extension>, i: nat, j: nat, includePadding: bool)
    requires i < |s| && j < |s|
    ensures i in Pins(s, includePadding) <==> Pinned(s[i], includePadding)
    ensures j in Pins(s, includePadding) <==> Pinned(s[j], includePadding)
  {
  }

  /** shuffleSpan on the first `limit` extensions. The code asks whether an extension is pinned, not
      whether a position is. */
  method ShuffleSpan(exts: array<Extension>, limit: nat, includePadding: bool, draws: seq<nat>)
    requires limit <= exts.Length && IsDraws(draws) && |draws| == limit
    modifies exts
    ensures exts[..] == Shuffled(old(exts[..]), draws, Pins(old(exts[..]), includePadding))
  {
    hide Shuffled, Pins;
    ghost var pins := Pins(exts[..], includePadding);
    ghost var goal := Shuffled(exts[..], draws, pins);
    assert draws[..limit] == draws;
    if limit < 2 {
      ShuffledNothing(exts[..], draws, pins);
      return;
    }
    var i := limit - 1;
    while i > 0
      invariant 0 <= i < limit
      invariant Pins(exts[..], includePadding) == pins
      invariant Shuffled(exts[..], draws[..i + 1], pins) == goal
    {
      var j := draws[i];
      ghost var next := Step(exts[..], i, j, pins);
      PinsStay(exts[..], i, j, includePadding);
      PinsAt(exts[..], i, j, includePadding);
      ShuffledStep(exts[..], draws, i, pins);
      if !Pinned(exts[i], includePadding) && !Pinned(exts[j], includePadding) {
        exts[i], exts[j] := exts[j], exts[i];
      }
      assert exts[..] == next;
      i := i - 1;
    }
    ShuffledNothing(exts[..], draws[..1], pins);
  }

  /** permuteExtensions: the caller's list is never written, and comes back itself when nothing is to be
      done. */
  method PermuteExtensions(exts: array<Extension>, cfg: Config, draws: seq<nat>) returns (out: array<Extension>)
    requires IsDraws(draws) && |draws| == Span(cfg, exts.Length)
    ensures out[..] == Permuted(exts[..], cfg, draws)
    ensures if cfg.mode.Off? || exts.Length == 0 then out == exts else fresh(out)
  {
    if cfg.mode.Off? || exts.Length == 0 {
      return exts;
    }
    out := new Extension[exts.Length](i requires 0 <= i < exts.Length reads exts => exts[i]);
    assert out[..] == exts[..];
    var limit := out.Length;
    if cfg.mode.Prefix? {
      if cfg.prefix <= 0 || cfg.prefix >= out.Length {
        return;
      }
      limit := cfg.prefix;
    }
    ShuffleSpan(out, limit, cfg.mode.All?, draws);
  }

  // What it is for

  /** What may move: under Chrome all but GREASE, padding and pre_shared_key; under All padding too; under
      Prefix only what lies in a prefix that is a proper one. */
  predicate MayMove(exts: seq<Extension>, cfg: Config, p: nat)
    requires p < |exts|
  {
    && (exts[p].kind.Other? || (exts[p].kind.Padding? && cfg.mode.All?))
    && match cfg.mode
       case Off => false
       case Chrome | All => true
       case Prefix => p < cfg.prefix < |exts|
  }

  lemma WhatStays(exts: seq<Extension>, cfg: Config, p: nat)
    requires p < |exts|
    ensures !MayMove(exts, cfg, p) <==> Pinned(exts[p], cfg.mode.All?) || Span(cfg, |exts|) <= p
  {
  }

  ghost predicate FixesPins(order: seq<nat>, exts: seq<Extension>, cfg: Config) {
    IsOrder(order, |exts|) && |order| == |exts| && forall p | 0 <= p < |exts| && !MayMove(exts, cfg, p) :: order[p] == p
  }

  /** The lists that can be sent are exactly the arrangements of the captured list that leave everything alone
      that may not move. */
  lemma ReachableLists(exts: seq<Extension>, cfg: Config, out: seq<Extension>)
    ensures (exists draws :: IsDraws(draws) && |draws| == Span(cfg, |exts|) && Permuted(exts, cfg, draws) == out)
       <==> (exists order :: FixesPins(order, exts, cfg) && Within(order, |exts|) && Arrange(exts, order) == out)
  {
    if draws :| IsDraws(draws) && |draws| == Span(cfg, |exts|) && Permuted(exts, cfg, draws) == out {
      var order := OrderOf(exts, cfg, draws);
    }
    if order :| FixesPins(order, exts, cfg) && Within(order, |exts|) && Arrange(exts, order) == out {
      var draws := DrawsFor(exts, cfg, order);
    }
  }

  lemma OrderOf(exts: seq<Extension>, cfg: Config, draws: seq<nat>) returns (order: seq<nat>)
    requires IsDraws(draws) && |draws| == Span(cfg, |exts|)
    ensures FixesPins(order, exts, cfg) && Within(order, |exts|) && Permuted(exts, cfg, draws) == Arrange(exts, order)
  {
    var pins := Pins(exts, cfg.mode.All?);
    order := Shuffled(Identity(|exts|), draws, pins);
    ShuffleArranges(exts, draws, pins);
    forall p | 0 <= p < |exts| && !MayMove(exts, cfg, p) ensures order[p] == p {
      WhatStays(exts, cfg, p);
      KeepsPins(Identity(|exts|), draws, pins, p);
    }
  }

  lemma DrawsFor(exts: seq<Extension>, cfg: Config, order: seq<nat>) returns (draws: seq<nat>)
    requires FixesPins(order, exts, cfg) && Within(order, |exts|)
    ensures IsDraws(draws) && |draws| == Span(cfg, |exts|) && Permuted(exts, cfg, draws) == Arrange(exts, order)
  {
    var n, pins := |exts|, Pins(exts, cfg.mode.All?);
    OrderIsDistinct(order, n);
    OrderIsDistinct(Identity(n), n);
    forall p | 0 <= p < n && (p in pins || Span(cfg, n) <= p) ensures order[p] == p {
      WhatStays(exts, cfg, p);
    }
    draws := Reach(Identity(n), order, Span(cfg, n), pins);
    ShuffleArranges(exts, draws, pins);
  }

  /** Nothing is lost or made up, GREASE and pre_shared_key stay where they are, and so does padding unless
      everything is to move, and so does whatever lies behind the prefix. */
  lemma PermutedKeeps(exts: seq<Extension>, cfg: Config, draws: seq<nat>)
    requires IsDraws(draws) && |draws| == Span(cfg, |exts|)
    ensures var out := Permuted(exts, cfg, draws);
            && multiset(out) == multiset(exts) && |out| == |exts|
            && (forall p | 0 <= p < |exts| && exts[p].kind in {Grease, PreSharedKey} :: out[p] == exts[p])
            && (forall p | 0 <= p < |exts| && exts[p].kind.Padding? && !cfg.mode.All? :: out[p] == exts[p])
            && (cfg.mode.Prefix? && 0 < cfg.prefix < |exts| ==> out[cfg.prefix..] == exts[cfg.prefix..])
            && (cfg.mode.Prefix? && !(0 < cfg.prefix < |exts|) ==> out == exts)
            && (cfg.mode.Off? ==> out == exts)
  {
    var pins := Pins(exts, cfg.mode.All?);
    KeepsElements(exts, draws, pins);
    forall p | 0 <= p < |exts| && !MayMove(exts, cfg, p) ensures Permuted(exts, cfg, draws)[p] == exts[p] {
      WhatStays(exts, cfg, p);
      KeepsPins(exts, draws, pins, p);
    }
  }

  /** A pre_shared_key that was last is last, and the only one there is is still the only one. */
  lemma PreSharedKeyStaysLast(exts: seq<Extension>, cfg: Config, draws: seq<nat>)
    requires IsDraws(draws) && |draws| == Span(cfg, |exts|)
    requires exts != [] && exts[|exts| - 1].kind.PreSharedKey?
    requires forall p | 0 <= p < |exts| - 1 :: !exts[p].kind.PreSharedKey?
    ensures var out := Permuted(exts, cfg, draws);
            |out| == |exts| && forall p | 0 <= p < |out| :: out[p].kind.PreSharedKey? <==> p == |out| - 1
  {
    hide Permuted, FixesPins, Arrange, Within;
    var order := OrderOf(exts, cfg, draws);
    LastStays(exts, cfg, order);
    forall p | 0 <= p < |exts| ensures Arrange(exts, order)[p] == exts[order[p]] {
      ArrangedAt(exts, order, p);
    }
  }

  lemma LastStays(exts: seq<Extension>, cfg: Config, order: seq<nat>)
    requires FixesPins(order, exts, cfg) && exts != [] && exts[|exts| - 1].kind.PreSharedKey?
    ensures |order| == |exts| && order[|exts| - 1] == |exts| - 1
    ensures forall p | 0 <= p < |exts| - 1 :: order[p] < |exts| - 1
  {
    var last := |exts| - 1;
    OrderIsDistinct(order, |exts|);
    assert !MayMove(exts, cfg, last);
    hide IsOrder;
    forall p | 0 <= p < last ensures order[p] < last {
      assert order[p] != order[last];
    }
  }

  lemma ArrangedAt(exts: seq<Extension>, order: seq<nat>, p: nat)
    requires Within(order, |exts|) && p < |order|
    ensures order[p] < |exts| && Arrange(exts, order)[p] == exts[order[p]]
  {
  }

  /** Two extensions that may move can change places, whatever the positions between them hold. */
  lemma AnyTwoCanSwap(exts: seq<Extension>, cfg: Config, i: nat, j: nat)
    requires i < j < |exts|
    requires exts[i].kind.Other? || (exts[i].kind.Padding? && cfg.mode.All?)
    requires exts[j].kind.Other? || (exts[j].kind.Padding? && cfg.mode.All?)
    requires cfg.mode.Chrome? || cfg.mode.All? || (cfg.mode.Prefix? && j < cfg.prefix < |exts|)
    ensures exists draws ::
              IsDraws(draws) && |draws| == Span(cfg, |exts|) && Permuted(exts, cfg, draws) == Swap(exts, i, j)
  {
    var order := Swap(Identity(|exts|), i, j);
    SwapKeepsElements(Identity(|exts|), i, j);
    assert Arrange(exts, order) == Swap(exts, i, j);
    var draws := DrawsFor(exts, cfg, order);
  }
}
