/** jar.go: the cookies per host key. */
module CookieJar {
  import opened Seqs
  import opened CookieLists

  datatype Config = Config(skipExisting: bool, allowEmptyCookies: bool)

  /** The list that a call leaves under its host key. */
  function Merged(existing: Cookies, cookies: Cookies, config: Config): Cookies {
    var incoming := Unique(NonEmpty(cookies, config.allowEmptyCookies));
    if config.skipExisting then existing + Outside(incoming, Names(existing))
    else Outside(existing, Names(incoming)) + incoming
  }

  /** What the two write policies are for, on finite maps. */
  function MergedMap(existing: Named, cookies: Cookies, config: Config): Named {
    var last := AsMap(NonEmpty(cookies, config.allowEmptyCookies));
    if config.skipExisting then last + existing else existing + last
  }

  lemma MergedRefinesMap(existing: Cookies, cookies: Cookies, config: Config)
    requires DistinctNames(existing)
    ensures DistinctNames(Merged(existing, cookies, config))
    ensures AsMap(Merged(existing, cookies, config)) == MergedMap(AsMap(existing), cookies, config)
  {
    var nonEmpty := NonEmpty(cookies, config.allowEmptyCookies);
    var incoming := Unique(nonEmpty);
    UniqueMeansTheSame(nonEmpty);
    if config.skipExisting {
      Beside(existing, incoming);
    } else {
      Beside(incoming, existing);
    }
  }

  /** The order of a stored list: what was there before and is not replaced keeps its order and its place in
      front of what is new, and of what is new the cookie set last comes first. */
  lemma StoredOrder(existing: Cookies, cookies: Cookies, config: Config) returns (incoming: Cookies)
    ensures LastFirst(Keeping(cookies, (c: Cookie) => c.value != "" || config.allowEmptyCookies), incoming)
    ensures Merged(existing, cookies, config) ==
              if config.skipExisting then existing + Keeping(incoming, (c: Cookie) => c.name !in Names(existing))
              else Keeping(existing, (c: Cookie) => c.name !in Names(incoming)) + incoming
  {
    incoming := Unique(NonEmpty(cookies, config.allowEmptyCookies));
    UniqueIsLastFirst(NonEmpty(cookies, config.allowEmptyCookies));
    FiltersKeep(cookies, {}, config.allowEmptyCookies);
    FiltersKeep(existing, Names(incoming), true);
    FiltersKeep(incoming, Names(existing), true);
    hide Keeping, Unique, Names, NonEmpty, Outside, LastFirst;
  }

  /** A list, and what another one adds to it. */
  lemma Beside(a: Cookies, b: Cookies)
    requires DistinctNames(a) && DistinctNames(b)
    ensures AsMap(a + Outside(b, Names(a))) == AsMap(b) + AsMap(a) == AsMap(Outside(b, Names(a)) + a)
    ensures DistinctNames(a + Outside(b, Names(a))) && DistinctNames(Outside(b, Names(a)) + a)
  {
    var more := Outside(b, Names(a));
    OutsideMeans(b, Names(a));
    OutsideIsDistinct(b, Names(a));
    AsMapAppend(a, more);
    AsMapAppend(more, a);
    KeysAreNames(a);
    DistinctTogether(a, more);
    PlusRest(AsMap(a), AsMap(b));
    hide AsMap, Outside, Names, DistinctNames;
  }

  lemma DistinctTogether(a: Cookies, more: Cookies)
    requires DistinctNames(a) && DistinctNames(more) && forall c <- more :: c.name !in Names(a)
    ensures DistinctNames(a + more) && DistinctNames(more + a)
  {
  }

  // Over any run

  /** The lists after calls for one host key. */
  function Run(calls: seq<Cookies>, config: Config): Cookies {
    if calls == [] then [] else Merged(Run(calls[..|calls| - 1], config), calls[|calls| - 1], config)
  }

  lemma {:induction false} RunIsDistinct(calls: seq<Cookies>, config: Config)
    ensures DistinctNames(Run(calls, config))
  {
    if calls != [] {
      RunIsDistinct(calls[..|calls| - 1], config);
      MergedRefinesMap(Run(calls[..|calls| - 1], config), calls[|calls| - 1], config);
    }
  }

  /** Overwriting: the jar is the map of the last non-empty occurrences in everything ever set. */
  lemma {:induction false} OverwriteKeepsTheLast(calls: seq<Cookies>, config: Config)
    requires !config.skipExisting
    ensures AsMap(Run(calls, config)) == AsMap(NonEmpty(Flatten(calls), config.allowEmptyCookies))
  {
    if calls != [] {
      var before, last := calls[..|calls| - 1], calls[|calls| - 1];
      OverwriteKeepsTheLast(before, config);
      RunIsDistinct(before, config);
      MergedRefinesMap(Run(before, config), last, config);
      assert calls == before + [last];
      FlattenSnoc(before, last);
      NonEmptyAppend(Flatten(before), last, config.allowEmptyCookies);
      AsMapAppend(NonEmpty(Flatten(before), config.allowEmptyCookies), NonEmpty(last, config.allowEmptyCookies));
    }
  }

  /** Skipping: a name belongs to the first call that brought it, and a later call cannot change it. */
  lemma {:induction false} SkipKeepsTheFirst(calls: seq<Cookies>, config: Config, i: nat)
    requires config.skipExisting && i < |calls|
    ensures var mine := AsMap(NonEmpty(calls[i], config.allowEmptyCookies));
            forall n | n in mine && n !in AsMap(Run(calls[..i], config)) ::
              n in AsMap(Run(calls, config)) && AsMap(Run(calls, config))[n] == mine[n]
    ensures forall n | n in AsMap(Run(calls[..i], config)) ::
              n in AsMap(Run(calls, config)) && AsMap(Run(calls, config))[n] == AsMap(Run(calls[..i], config))[n]
    decreases |calls|
  {
    var before, last := calls[..|calls| - 1], calls[|calls| - 1];
    RunIsDistinct(before, config);
    MergedRefinesMap(Run(before, config), last, config);
    if i < |calls| - 1 {
      assert before[..i] == calls[..i];
      SkipKeepsTheFirst(before, config, i);
    }
  }

  /** Skipping adds nothing but non-empty cookies that some call brought. */
  lemma {:induction false} NothingIsMadeUp(calls: seq<Cookies>, config: Config)
    ensures forall c <- Run(calls, config) ::
              exists i | 0 <= i < |calls| :: c in NonEmpty(calls[i], config.allowEmptyCookies)
  {
    if calls != [] {
      var before, last := calls[..|calls| - 1], calls[|calls| - 1];
      NothingIsMadeUp(before, config);
      forall c | c in Run(calls, config)
        ensures exists i | 0 <= i < |calls| :: c in NonEmpty(calls[i], config.allowEmptyCookies)
      {
        if c in Run(before, config) {
          var i :| 0 <= i < |before| && c in NonEmpty(before[i], config.allowEmptyCookies);
          assert before[i] == calls[i];
        } else {
          assert c in Unique(NonEmpty(last, config.allowEmptyCookies));
          assert last == calls[|calls| - 1];
        }
      }
    }
  }

  // All host keys at once

  type Lists = map<string, Cookies>

  datatype Call = Call(hostKey: string, cookies: Cookies)

  function Entries(lists: Lists, hostKey: string): Cookies {
    if hostKey in lists then lists[hostKey] else []
  }

  function Put(lists: Lists, call: Call, config: Config): Lists {
    lists[call.hostKey := Merged(Entries(lists, call.hostKey), call.cookies, config)]
  }

  function PutAll(calls: seq<Call>, config: Config): Lists {
    if calls == [] then map[] else Put(PutAll(calls[..|calls| - 1], config), calls[|calls| - 1], config)
  }

  function CallsFor(calls: seq<Call>, hostKey: string): seq<Cookies> {
    if calls == [] then []
    else
      var front, call := CallsFor(calls[..|calls| - 1], hostKey), calls[|calls| - 1];
      if call.hostKey == hostKey then front + [call.cookies] else front
  }

  /** Whatever order calls for different host keys come in, each list is that of its own calls. */
  lemma {:induction false} HostKeysAreSeparate(calls: seq<Call>, config: Config, hostKey: string)
    ensures Entries(PutAll(calls, config), hostKey) == Run(CallsFor(calls, hostKey), config)
    ensures DistinctNames(Entries(PutAll(calls, config), hostKey))
    decreases |calls|
  {
    RunIsDistinct(CallsFor(calls, hostKey), config);
    if calls != [] {
      var before, last := calls[..|calls| - 1], calls[|calls| - 1];
      HostKeysAreSeparate(before, config, hostKey);
      if last.hostKey == hostKey {
        assert CallsFor(calls, hostKey)[..|CallsFor(calls, hostKey)| - 1] == CallsFor(before, hostKey);
      }
    }
  }

  // The code

  class Jar {
    const config: Config
    var allCookies: Lists

    constructor (config: Config)
      ensures this.config == config && allCookies == map[] && Valid()
    {
      this.config := config;
      allCookies := map[];
    }

    ghost predicate Valid()
      reads this
    {
      forall h <- allCookies :: DistinctNames(allCookies[h])
    }

    /** SetCookies, given the host key of the URL. */
    method SetCookies(hostKey: string, cookies: Cookies)
      requires Valid()
      modifies this
      ensures Valid()
      ensures allCookies == Put(old(allCookies), Call(hostKey, cookies), config)
      ensures AsMap(Entries(allCookies, hostKey)) ==
                MergedMap(AsMap(Entries(old(allCookies), hostKey)), cookies, config)
    {
      var notEmptyCookies := DropEmpty(config, cookies);
      var uniqueCookies := LastOfEachName(notEmptyCookies);
      var existingCookies := Entries(allCookies, hostKey);
      MergedRefinesMap(existingCookies, cookies, config);
      if !config.skipExisting {
        var remaining := NotNamedIn(existingCookies, uniqueCookies);
        allCookies := allCookies[hostKey := remaining + uniqueCookies];
      } else {
        var newNonExistent := NotNamedIn(uniqueCookies, existingCookies);
        allCookies := allCookies[hostKey := existingCookies + newNonExistent];
      }
    }

    /** Cookies: the map of the host key without the cookies whose age is negative. */
    method Cookies(hostKey: string) returns (r: Cookies)
      requires Valid()
      ensures r == NotExpired(Entries(allCookies, hostKey)) && DistinctNames(r)
      ensures AsMap(r) == Living(AsMap(Entries(allCookies, hostKey)))
    {
      r := DropExpired(Entries(allCookies, hostKey));
      NotExpiredMeans(Entries(allCookies, hostKey));
    }
  }

  method DropEmpty(config: Config, cookies: Cookies) returns (r: Cookies)
    ensures r == NonEmpty(cookies, config.allowEmptyCookies)
  {
    if config.allowEmptyCookies {
      AllAllowed(cookies);
      return cookies;
    }
    r := [];
    for i := 0 to |cookies|
      invariant r == NonEmpty(cookies[..i], false)
    {
      assert cookies[..i + 1][..i] == cookies[..i];
      if cookies[i].value == "" { continue; }
      r := r + [cookies[i]];
    }
    assert cookies[..|cookies|] == cookies;
  }

  lemma {:induction false} AllAllowed(cookies: Cookies)
    ensures NonEmpty(cookies, true) == cookies
  {
    if cookies != [] {
      AllAllowed(cookies[..|cookies| - 1]);
    }
  }

  /** unique */
  method LastOfEachName(cookies: Cookies) returns (r: Cookies)
    ensures r == Unique(cookies)
  {
    r := [];
    var seen: seq<Name> := [];
    var i := |cookies| - 1;
    while i >= 0
      invariant -1 <= i < |cookies|
      invariant r == Unique(cookies[i + 1..])
      invariant AreNamesOf(seen, r)
    {
      var c := cookies[i];
      assert cookies[i..][1..] == cookies[i + 1..];
      SeenMeans(seen, r, c);
      hide AreNamesOf, Names;
      var known := InSlice(seen, c.name);
      if !known {
        r := r + [c];
        seen := seen + [c.name];
      }
      i := i - 1;
    }
    assert cookies[0..] == cookies;
  }

  ghost predicate AreNamesOf(seen: seq<Name>, cs: Cookies) {
    |seen| == |cs| && forall k | 0 <= k < |cs| :: seen[k] == cs[k].name
  }

  lemma SeenMeans(seen: seq<Name>, cs: Cookies, c: Cookie)
    requires AreNamesOf(seen, cs)
    ensures c.name in seen <==> c.name in Names(cs)
    ensures AreNamesOf(seen + [c.name], cs + [c])
  {
    if c.name in Names(cs) {
      var d :| d in cs && d.name == c.name;
      var k :| 0 <= k < |cs| && cs[k] == d;
      assert seen[k] == c.name;
    }
  }

  method InSlice(slice: seq<Name>, elem: Name) returns (found: bool)
    ensures found <==> elem in slice
  {
    for i := 0 to |slice|
      invariant elem !in slice[..i]
    {
      if slice[i] == elem {
        return true;
      }
    }
    return false;
  }

  /** The nested loops of SetCookies, once for either policy. */
  method NotNamedIn(cookies: Cookies, others: Cookies) returns (r: Cookies)
    ensures r == Outside(cookies, Names(others))
  {
    r := [];
    for i := 0 to |cookies|
      invariant r == Outside(cookies[..i], Names(others))
    {
      assert cookies[..i + 1][..i] == cookies[..i];
      var named := false;
      for j := 0 to |others|
        invariant named <==> cookies[i].name in Names(others[..j])
      {
        assert others[..j + 1] == others[..j] + [others[j]];
        named := cookies[i].name == others[j].name;
        if named {
          assert others[j] in others;
          break;
        }
      }
      assert others[..|others|] == others;
      if named { continue; }
      r := r + [cookies[i]];
    }
    assert cookies[..|cookies|] == cookies;
  }

  method DropExpired(cookies: Cookies) returns (r: Cookies)
    ensures r == NotExpired(cookies)
  {
    r := [];
    for i := 0 to |cookies|
      invariant r == NotExpired(cookies[..i])
    {
      assert cookies[..i + 1][..i] == cookies[..i];
      if cookies[i].maxAge < 0 { continue; }
      r := r + [cookies[i]];
    }
    assert cookies[..|cookies|] == cookies;
  }
}
