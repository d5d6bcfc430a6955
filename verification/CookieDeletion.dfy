/** When a cookie with a negative age takes a name out of what the jar sends. */
module CookieDeletion {
  import opened CookieJar
  import opened CookieLists
  import opened Seqs

  /** `Cookies` returns a cookie of this name. */
  ghost predicate Sends(stored: Cookies, n: Name) {
    n in Names(NotExpired(stored))
  }

  predicate Kept(c: Cookie, config: Config) {
    c.value != "" || config.allowEmptyCookies
  }

  /** The last cookie of a name that is not dropped for being empty. */
  ghost predicate IsLastKept(cookies: Cookies, config: Config, n: Name, i: nat) {
    && i < |cookies| && cookies[i].name == n && Kept(cookies[i], config)
    && forall j | i < j < |cookies| && cookies[j].name == n :: !Kept(cookies[j], config)
  }

  function Brought(cookies: Cookies, config: Config): Named {
    AsMap(NonEmpty(cookies, config.allowEmptyCookies))
  }

  lemma BroughtNext(cookies: Cookies, config: Config)
    requires cookies != []
    ensures var front, c := cookies[..|cookies| - 1], cookies[|cookies| - 1];
            Brought(cookies, config) ==
              if Kept(c, config) then Brought(front, config)[c.name := c] else Brought(front, config)
  {
    AsMapSnoc(NonEmpty(cookies[..|cookies| - 1], config.allowEmptyCookies), cookies[|cookies| - 1]);
    hide AsMap;
  }

  lemma LastKeptNext(cookies: Cookies, config: Config, n: Name, i: nat)
    requires cookies != [] && i + 1 < |cookies|
    ensures IsLastKept(cookies, config, n, i) <==>
              && IsLastKept(cookies[..|cookies| - 1], config, n, i)
              && !(cookies[|cookies| - 1].name == n && Kept(cookies[|cookies| - 1], config))
  {
    var front := cookies[..|cookies| - 1];
    assert forall j | 0 <= j < |front| :: front[j] == cookies[j];
  }

  /** What a call brings under a name is the last cookie of that name that it keeps. */
  lemma {:induction false} LastKeptIsBrought(cookies: Cookies, config: Config, n: Name)
    ensures n in Brought(cookies, config) <==> exists i: nat :: IsLastKept(cookies, config, n, i)
    ensures forall i: nat | IsLastKept(cookies, config, n, i) ::
              n in Brought(cookies, config) && Brought(cookies, config)[n] == cookies[i]
    decreases |cookies|
  {
    if cookies == [] {
    } else {
      var last := |cookies| - 1;
      BroughtNext(cookies, config);
      hide Brought;
      if cookies[last].name == n && Kept(cookies[last], config) {
        assert IsLastKept(cookies, config, n, last);
      } else {
        LastKeptIsBrought(cookies[..last], config, n);
        forall i: nat | i < last
          ensures IsLastKept(cookies, config, n, i) <==> IsLastKept(cookies[..last], config, n, i)
        {
          LastKeptNext(cookies, config, n, i);
        }
      }
    }
  }

  lemma SendsMeans(stored: Cookies, n: Name)
    requires DistinctNames(stored)
    ensures Sends(stored, n) <==> n in AsMap(stored) && AsMap(stored)[n].maxAge >= 0
  {
    NotExpiredMeans(stored);
    KeysAreNames(NotExpired(stored));
    hide AsMap, Names, NotExpired, DistinctNames;
  }

  /** Overwriting: a call takes a name out exactly when the last cookie of that name that it keeps has a
      negative age. */
  lemma DeletionTakesEffectIff(existing: Cookies, cookies: Cookies, config: Config, n: Name)
    requires DistinctNames(existing) && !config.skipExisting && Sends(existing, n)
    ensures !Sends(Merged(existing, cookies, config), n)
            <==> exists i: nat :: IsLastKept(cookies, config, n, i) && cookies[i].maxAge < 0
  {
    MergedRefinesMap(existing, cookies, config);
    SendsMeans(existing, n);
    SendsMeans(Merged(existing, cookies, config), n);
    LastKeptIsBrought(cookies, config, n);
    hide Sends, Merged, DistinctNames, AsMap, IsLastKept;
  }

  /** Over all calls: a name is sent exactly when the last cookie of that name that was ever kept has no
      negative age. */
  lemma SentIffLastIsAlive(calls: seq<Cookies>, config: Config, n: Name)
    requires !config.skipExisting
    ensures Sends(Run(calls, config), n)
            <==> exists i: nat :: IsLastKept(Flatten(calls), config, n, i) && Flatten(calls)[i].maxAge >= 0
  {
    RunIsDistinct(calls, config);
    OverwriteKeepsTheLast(calls, config);
    SendsMeans(Run(calls, config), n);
    LastKeptIsBrought(Flatten(calls), config, n);
    hide Sends, Run, Flatten, AsMap, IsLastKept;
  }

  /** An empty cookie deletes nothing under either policy, whatever its age, unless empty cookies are
      allowed. */
  lemma EmptyDeletionDeletesNothing(existing: Cookies, n: Name, maxAge: int, config: Config, m: Name)
    requires DistinctNames(existing) && !config.allowEmptyCookies
    ensures AsMap(Merged(existing, [Cookie(n, "", maxAge)], config)) == AsMap(existing)
    ensures Sends(Merged(existing, [Cookie(n, "", maxAge)], config), m) <==> Sends(existing, m)
  {
    NothingBrought(n, maxAge);
    hide AsMap, NonEmpty, Merged, Sends, DistinctNames;
    MergedRefinesMap(existing, [Cookie(n, "", maxAge)], config);
    SendsMeans(existing, m);
    SendsMeans(Merged(existing, [Cookie(n, "", maxAge)], config), m);
  }

  lemma NothingBrought(n: Name, maxAge: int)
    ensures AsMap(NonEmpty([Cookie(n, "", maxAge)], false)) == map[]
  {
    var cookies := [Cookie(n, "", maxAge)];
    assert cookies[..0] == [] && NonEmpty([], false) == [];
    assert NonEmpty(cookies, false) == [];
  }

  /** Skipping: no call changes whether a stored name is sent. */
  lemma NoDeletionOfStored(existing: Cookies, cookies: Cookies, config: Config, n: Name)
    requires DistinctNames(existing) && config.skipExisting && n in Names(existing)
    ensures Sends(Merged(existing, cookies, config), n) <==> Sends(existing, n)
  {
    MergedRefinesMap(existing, cookies, config);
    KeysAreNames(existing);
    SendsMeans(existing, n);
    SendsMeans(Merged(existing, cookies, config), n);
    hide Sends, Merged, DistinctNames, AsMap, Names;
  }

  /** Skipping, over all calls: the first call that brings a name decides for good whether it is sent, so a
      deletion that comes first keeps the name out for ever. */
  lemma FirstCallDecides(calls: seq<Cookies>, config: Config, n: Name, k: nat, i: nat)
    requires config.skipExisting && k < |calls| && n !in Names(Run(calls[..k], config))
    requires IsLastKept(calls[k], config, n, i)
    ensures Sends(Run(calls, config), n) <==> calls[k][i].maxAge >= 0
  {
    KeysAreNames(Run(calls[..k], config));
    LastKeptIsBrought(calls[k], config, n);
    SkipKeepsTheFirst(calls, config, k);
    RunIsDistinct(calls, config);
    SendsMeans(Run(calls, config), n);
    hide Sends, Run, AsMap, Names;
  }
}
