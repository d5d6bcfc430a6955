# A model of tls-client

tls-client is a Go HTTP client, with a C interface for Python, that imitates the TLS and HTTP
fingerprints of browsers. This project models the parts of it that carry state or do exact arithmetic
on bytes, and proves what its comments, tests and documentation promise of them. `dafny verify
dfyconfig.toml` verifies the whole project.

## The shared transport cache (`roundtripper.go`, `racer.go`)

Any number of goroutines share three maps under three mutexes, and the racer adds a fourth map.
`TransportCache` is a step relation over them: one program counter per goroutine, one identity per
transport, one step from one point of preemption to the next, and a network that chooses every outcome.
A run is a list of events, and `Reachable` is what some run from the empty cache reaches.
`TransportCacheSafety` holds the inductive invariant and its preservation, step by step;
`TransportCacheTheorems`, `TransportCacheReconnect`, `TransportCacheRace` and `TransportCacheProgress`
hold what follows for every run. `TransportCacheOutcomes` says how requests, races and dials end, and what
each step does to the four maps. `TransportCacheRuns` builds runs piece by piece, for the results that say
that something can happen; `TransportCacheForgotten` has one of them.
`RoundTripper` is the same code as one goroutine runs it, a class whose methods update the maps; it
says what they do with the same functions (`Put`, `PutKind`, `DropTransport` and so on) as the steps.

The steps model these lines:

| step functions of `TransportCache` | source |
|---|---|
| `InTransportsStep`, `PublishingStep`, `AbortingStep` | `RoundTrip` up to the unlock, `getTransport`, `getOrCreateTransport`: roundtripper.go:203-258, racer.go:124-155, 183-197 |
| `InSetupStep`, `InKindsStep`, `StashingStep` | the set-up dial: roundtripper.go:278-337, 370-499 |
| `DialInEmbeddedStep`, `DialInKindsStep` | the reconnect dial: roundtripper.go:278-368 |
| `FlightStep`, `DropInTransportsStep`, `DropInKindsStep` | the request and the two-phase drop: roundtripper.go:153-162, 217-231, racer.go:241-248 |
| `LookupInStep`, `ClearInStep` | the recorded protocol: racer.go:100-122, 257-261 |
| `StartingStep`, `WaitingStep`, `SendingStep` | the race: racer.go:157-228 |
| `WinInStep`, `StoreInStep` | the winner: racer.go:263-279 |

- `protocolCacheMu` is a read-write lock in the code; the model lets one goroutine hold it at a time.
- The dial address of a transport is the key it is cached under, and HTTP/3 transports never dial
  through the round tripper. The key `addr + ":h3"` is a constructor of its own.
- http and https share a key, because both default to port 443, and the http branch records no kind.
  The branch is in the machine. The statements about kinds exclude the addresses it has run for.
- The comment above `dropCachedTransport` (roundtripper.go:150-152) says that a transport which has
  replaced the dropped one is left alone. The transport is, but the second half of the drop deletes the
  kind recorded for the replacement, and its next dial is then refused although the server did not change:
  `OwnKindRefusedIffForgotten` and `TwoFailuresForOneChange`.
- Plain requests cost the same failure. The http branch caches a transport without recording its kind, so
  the first https request to that address fails with errProtocolChanged (`HttpThenHttps`), and the bound of
  `Serve` counts them.
- `ReconnectGoesWrongIffMisled` says exactly when a reconnect can end with a connection its transport
  does not speak. `StaleTransportCanGoWrong` is a run in which it happens, to a transport that was
  dropped while in flight.

## The client pool (`cffi_binding/main.go`)

`PoolMachine` is a step relation for hits without the lock, creations, the TTL scan, evictions over the
size cap, clears and cap changes; `PoolSafety` proves what every interleaving keeps, and `PoolScan` what
the TTL scan deletes; `PoolOutcomes` says what each step does to the pool, and that some call can always go
on. `ClientPool` has the locked sections as code with loops, over values instead of entry
objects. Time is an arbitrary integer.

A hit takes no lock, and the scan reads the access time before it deletes. The comment above the re-check
(cffi_binding/main.go:357-359) says that it catches concurrent refreshes regardless. It catches those before
it; a hit between re-check and delete is lost, and `FreshEntryCanBeDeleted` is a run in which it happens.

## Packing a response for C (`cffi_binding/main.go`)

`ArenaLayout` says where the strings of a response lie and what a C reader finds there.
`ResponseArena` has the two passes, the allocations, and the function that frees it all, on real arrays,
against an allocator that frees only live blocks. The two passes over the header map may walk it in
different orders. The comment above `packResponseArena` says that it returns false when an allocation
fails; the function returns nothing and only sets `err_msg`, and the model follows the code.

## The text behind a pool key (`cffi_binding/main.go`)

`CacheKey` builds the text that is hashed. A sort is known only by what `sort.Slice` promises
(`SortedForm`), so equal elements may come out in any order. The text decides which client two
configurations share, and nothing in it is escaped: `CacheKeyTexts` says which characters keep
configurations apart, and gives different ones with one text. `Pieces` takes texts apart.

## Shuffles and codecs

- `Shuffle`: the Fisher-Yates walk with pinned positions; `ExtensionPermute` and `TrustAnchors` run it in place.
- `TrustAnchors`: splitting a payload into records, and printing them.
- `Socks5Udp`: the header of section 7 of RFC 1928, and the packet connection around it.
- `EchRdata`: one parameter out of an HTTPS record in the format of section 2.2 of RFC 9460.
- `Ja3`: a JA3 string to the lists of a ClientHello and back. The extension numbers are those of the
  IANA registry; the utls package that names them is not part of this model.

## The cookie jar (`jar.go`)

`CookieLists` and `CookieJar`: the lists per host key as finite maps, under both write policies;
`CookieDeletion`: when a cookie with a negative age takes effect; `HostKey`: which hosts share a list.

Random draws, clocks, the network, allocation failures and the order in which Go walks a map are
parameters everywhere.

## Model

| member | source | states |
|---|---|---|
| TransportCache.KindsOfProtocols | roundtripper.go:116-126 | "h2" and nothing else is HTTP/2, and "h3" and nothing else HTTP/3 |
| TransportCacheTheorems.PanicIsUnreachable | roundtripper.go:234-258 | in every reachable state nobody is in the panic of getTransport, a set-up dial finds no stashed connection, and each stashed connection has the kind of the transport cached at its address |
| TransportCacheTheorems.RecordedKindIsCachedKind | roundtripper.go:116-162 | whenever cachedTransportsLck is free, a recorded kind is that of the cached transport, for addresses only requested over https |
| TransportCacheTheorems.WritesAreGuarded | roundtripper.go:131-167 | a step that changes one of the four maps is taken by the holder of the lock that guards it, and no lock has two holders |
| TransportCacheTheorems.ReachableSatisfiesInv | roundtripper.go:203-280 | every run from the empty cache keeps the invariant |
| TransportCacheSafety.StepKeepsInv | roundtripper.go:153-258 | every step of every goroutine keeps lock ownership, the agreement of stash and transport, the agreement of kind and transport, and that a transport whose dial reported a changed protocol saw an empty stash |
| TransportCacheSafety.NobodyInterferes | roundtripper.go:153-167 | what a goroutine knows at its program counter survives the steps of all others, also between the two halves of a drop |
| TransportCacheSafety.PuttingKeepsShared | roundtripper.go:469-498 | storing a transport where none was cached, before its kind is recorded, keeps the shared facts |
| TransportCacheSafety.InSetupKeeps | roundtripper.go:278-298 | a set-up dial takes no stashed connection, never reaches the panic, and keeps the shared facts and its own knowledge |
| TransportCacheSafety.DialInKindsKeeps | roundtripper.go:353-368 | a reconnect that compares kinds either has a connection that fits what it knows or marks its transport as failed with an empty stash |
| TransportCacheReconnect.ReconnectGoesWrongIffMisled | roundtripper.go:278-288 | some continuation hands the dialling transport a connection of another kind if and only if, when the dial took the embedded mutex, the stash held another kind, or was empty and another kind was recorded that no drop was about to delete |
| TransportCacheReconnect.CachedTransportReconnectsRight | roundtripper.go:338-368 | a reconnect begun by the transport cached at that moment never goes wrong, even with a drop half done, at an address only requested over https |
| TransportCacheReconnect.RunStaysOnCourse | roundtripper.go:353-368 | no interleaving of other goroutines misleads a reconnect that has begun on course |
| TransportCacheReconnect.StaleTransportCanGoWrong | roundtripper.go:284-288 | a reachable run in which a transport dropped in flight can take its successor's connection |
| TransportCacheRuns.RunSetUp | roundtripper.go:469-499 | an undisturbed first request leaves exactly the new transport, its kind and its connection in the three maps, and is in flight with that transport |
| TransportCacheRuns.RunTakeStash | roundtripper.go:282-288 | the first dial of the cached transport takes the stashed connection and nothing else changes |
| TransportCacheRuns.RunRefused | roundtripper.go:353-361 | a reconnect to a server that changed kind fails, changes no map, and marks the transport |
| TransportCacheRuns.RunDrop | roundtripper.go:153-162 | the failed request then removes its transport and the recorded kind, and no more |
| TransportCacheForgotten.OwnKindRefusedIffForgotten | roundtripper.go:353-367 | a reconnect begun by the cached transport that negotiates its own kind is refused, and its transport marked as failed, if and only if no kind is recorded at its comparison |
| TransportCacheForgotten.ReplacementIsForgotten | roundtripper.go:146-162 | a run, with all locks free at its end, in which a transport is cached with its connection stashed and no kind recorded, because a drop of the transport before it ended late |
| TransportCacheForgotten.TwoFailuresForOneChange | roundtripper.go:223-231 | a run without plain requests in which the server changes kind once and two requests fail with errProtocolChanged, so the bound of Serve needs requests one after the other |
| TransportCacheProgress.LockOrder | roundtripper.go:52-57 | cachedTransportsLck is taken before the embedded mutex before cachedKindsLck, none twice, and protocolCacheMu with no other |
| TransportCacheProgress.UnblockedMoves | roundtripper.go:203-258 | an unfinished goroutine that waits for no held lock has a step |
| TransportCacheProgress.HolderMoves | racer.go:124-140 | the holder of a lock, or someone it waits for in turn, can move |
| TransportCacheProgress.NoDeadlock | racer.go:157-201 | while a goroutine is unfinished, some goroutine can move |
| TransportCacheProgress.ChannelHasRoom | racer.go:158-158 | while an attempt has not sent, the channel of capacity two is not full |
| TransportCacheRace.WinnerIsAnAttempt | racer.go:203-217 | a response that is returned was sent by one of the request's two attempts, and that attempt's protocol was recorded for the address before |
| TransportCacheRace.AttemptsNeverBlock | racer.go:168-201 | an attempt ends only by sending, has sent exactly one of at most two results, and can send at once, also when its waiter is gone |
| TransportCacheRace.FailedProtocolIsCleared | racer.go:100-122 | a request whose recorded protocol failed starts to race by the very step that removes what was recorded for its address, and nothing else, under protocolCacheMu |
| TransportCacheRace.RacersHaveCleared | racer.go:100-122 | while such a request races it has been through that step |
| TransportCacheRace.StepKeepsRaces | racer.go:90-228 | every step keeps the account of each race: the channel is the unread part of the log, and the log is what its two attempts have sent |
| TransportCacheOutcomes.HowRacesEnd | racer.go:203-228 | in every reachable state a race ends with the first answer heard, which wins; or when both attempts have failed, with the error of the second; or at the deadline, with the last error heard. One failure does not end it |
| TransportCacheOutcomes.WaiterCanReceive | racer.go:206-208 | a result in the channel can always be received |
| TransportCacheOutcomes.HowRacesStart | racer.go:157-166 | both attempts start at once, nothing sent, and the request waits for them |
| TransportCacheOutcomes.HowResultsAreSent | racer.go:168-201 | an attempt appends its own result to the channel of its own race |
| TransportCacheOutcomes.HowRacesAreWon | racer.go:263-279 | the answer received is the one returned, and an HTTP/3 transport is stored before that if one can be built |
| TransportCacheOutcomes.RecordedProtocolIsTried | racer.go:100-112 | the protocol tried first is the one recorded for the address, and without one the request races; looking changes nothing |
| TransportCacheOutcomes.SentWithItsTransport | roundtripper.go:223-226 | a request is sent with the transport cached under its key, looked up before cachedTransportsLck is given up |
| TransportCacheOutcomes.HowAttemptsEnd | roundtripper.go:210-231 | an attempt ends with its transport's reply, the refusal of its first dial, or errProtocolChanged after the drop; the error of a recorded protocol is not returned, but the record is cleared |
| TransportCacheOutcomes.NothingElseEndsARequest | racer.go:90-228 | no other step ends a request, but an unknown scheme and the end of a race |
| TransportCacheOutcomes.NothingElseChangesARequest | roundtripper.go:203-208 | address and scheme of a request never change, nor on whose behalf it runs, but by the look-up of the recorded protocol |
| TransportCacheOutcomes.WhatChangesTheMaps | roundtripper.go:131-167 | what every step does to each of the four maps: a transport comes with the kind its handshake negotiated, from the http branch or for HTTP/3, and goes only as the one dropped; kind, stash and recorded protocol are each written by one step and deleted by one |
| TransportCacheOutcomes.HowSetUpsGo | roundtripper.go:278-337 | a first dial that completes, and whose transport can be built, records, stashes and publishes it in turn; any other aborts |
| TransportCacheOutcomes.HowDialsEnd | roundtripper.go:338-368 | a dial takes the stashed connection if there is one, fails without a connection, and fails with its transport marked exactly when the negotiated kind is not the recorded one |
| TransportCacheOutcomes.EveryDialCanHappen | roundtripper.go:338-352 | a dial without a stashed connection can bring any kind or none |
| TransportCacheOutcomes.EveryOutcomeCanHappen | racer.go:168-228 | a reply, a build and the deadline can bring anything, but errProtocolChanged only from a transport one of whose dials reported it |
| TransportCacheOutcomes.HowGoroutinesBegin | roundtripper.go:203-210 | https requests of a client with a racer look up the recorded protocol, all others go to the cache, and any transport handed out may dial at any time |
| RoundTripper.RoundTripper.DropCachedTransport | roundtripper.go:153-162 | the transport is removed only if it is still the stale one, and the kind always |
| RoundTripper.RoundTripper.DialTLSWithSetup | roundtripper.go:278-499 | which of a stashed connection, an accepted or refused handshake, or a set-up results, and the maps after each |
| RoundTripper.RoundTripper.GetTransport | roundtripper.go:234-258 | the exact outcome for every scheme: the http branch caches an HTTP/1 transport and records no kind; an https dial caches and records if and only if its handshake completes and, for "h3", a transport can be built; an unknown scheme and a failed first dial leave the three maps unchanged |
| RoundTripper.RoundTripper.SetUpOverTLS | roundtripper.go:245-256 | the https branch: done if and only if the handshake completes and, for "h3", a transport can be built, with the three map writes, and otherwise the error of the dial with the maps unchanged; the panic is dead code |
| RoundTripper.RoundTripper.Reconnect | roundtripper.go:278-368 | a reconnect of the cached transport gets a connection of its kind or an error, and errProtocolChanged exactly when it handshakes, with an empty stash, for another kind |
| RoundTripper.RoundTripper.Send | roundtripper.go:223-224 | the outcome for each way the transport can end and what its dials leave: errProtocolChanged exactly when a handshake behind an empty stash was of another kind than the recorded one, and otherwise what the transport replied; then a change of kind or a plain request pays for it |
| RoundTripper.RoundTripper.RoundTrip | roundtripper.go:203-231 | the outcome of every request: the error of its scheme or first dial, or what its transport replied, unless one of its dials meets another kind. A failure with errProtocolChanged empties the address in all three maps, any other outcome keeps its transport, and the handler for bad pins is called exactly when a first https dial meets one |
| RoundTripper.RoundTripper.Forget | roundtripper.go:224-229 | the drop after a failure keeps the account of failures and changes of kind |
| RoundTripper.RoundTripper.Serve | roundtripper.go:298-368 | over any run of requests, at each address, no more of them fail with errProtocolChanged than consecutive handshakes changed kind and plain http requests were made |
| RoundTripper.RoundTripper.HttpThenHttps | roundtripper.go:235-238 | after one request over http the first https request to the address fails with errProtocolChanged, whatever the server speaks |
| RoundTripper.FailuresArePaidFor | roundtripper.go:223-231 | what the maps hold for an address pays for its failures |
| RoundTripper.ChangeAfter | roundtripper.go:353-368 | a later handshake of another kind means a change of kind in between |
| RoundTripper.ShakenMeans | roundtripper.go:338-361 | a transport meets another kind if and only if some dial, other than one that takes a stashed connection, completes a handshake of a kind that is not the recorded one |
| RoundTripper.ChangesAreCounted | roundtripper.go:353-368 | the changes in the bound of Serve are the handshakes of another kind than the one before |
| RoundTripper.FailuresAreCounted | roundtripper.go:226-231 | the failures in it are the requests to the address that ended with errProtocolChanged |
| RoundTripper.PlainRequestsAreCounted | roundtripper.go:235-238 | and the plain requests those to the address over http |
| PoolPolicy.ClampNeverFires | cffi_binding/main.go:443-449 | the number of entries over the cap never exceeds the number of candidates |
| PoolSafety.StepGood | cffi_binding/main.go:340-462 | every step keeps counters, entries, locks and the cap account |
| PoolSafety.CountersBalance | cffi_binding/main.go:433-461 | with the lock free, poolEntryCount is the size of the pool, and insertions are what is present plus totalEvictions plus what was cleared |
| PoolSafety.CapHolds | cffi_binding/main.go:2102-2117 | with the lock free and no cap change half done, a positive cap holds |
| PoolScan.RecheckSeesStale | cffi_binding/main.go:363-372 | the scan decides to delete only under the lock, and only an entry that is still pooled and at that moment was last used before the cutoff |
| PoolScan.NothingMovesMeanwhile | cffi_binding/main.go:363-386 | until the scan moves again no run changes the pool or frees the lock |
| PoolScan.AccessIsLastRefresh | cffi_binding/main.go:1414-1424 | nothing but hits changes when an entry was last used |
| PoolScan.ScanDeletesOnlyStale | cffi_binding/main.go:355-386 | every delete goes back to a re-check, under the same lock, that saw the same entry stale; at the delete it is fresh if and only if a hit in between stored a time at or after the cutoff |
| PoolScan.FreshEntryCanBeDeleted | cffi_binding/main.go:357-378 | from every reachable state with the lock free and a stale entry pooled, a run in which that entry is used between re-check and delete and deleted all the same |
| PoolOutcomes.WhatChangesThePool | cffi_binding/main.go:340-462 | what every step does to the entries and the cap: only a build that succeeds adds, and an eviction, the TTL scan and a clear remove the entry they are at |
| PoolOutcomes.HowLookUpsGo | cffi_binding/main.go:1414-1446 | a hit waits for no lock, a miss looks again under it and builds once, and a failed build leaves the pool alone and frees the lock |
| PoolOutcomes.WhatIsEvicted | cffi_binding/main.go:410-452 | an eviction without a positive cap does nothing; another reads every entry, and gives up as many as are over the cap, different from the new one and used no later, as it read them, than any other that stays |
| PoolOutcomes.HowRemovalsGo | cffi_binding/main.go:361-391 | the re-check deletes a key exactly when it is still pooled and stale, evictions delete all their victims, clears go on until nothing is left, and the counters follow |
| PoolOutcomes.VictimsExist | cffi_binding/main.go:450-452 | there are always that many least recently used candidates |
| PoolOutcomes.PoolNeverSticks | cffi_binding/main.go:1426-1427 | in every reachable state with a call that has not ended some call can go on |
| PoolSafety.TwoLookUpsAgree | cffi_binding/main.go:1414-1446 | two look-ups of a key, by any goroutines and whatever happens in between, are answered with the same entry as long as the key stays pooled |
| PoolSafety.SameClientUntilRemoved | cffi_binding/main.go:1414-1446 | the pooled entry of a key stays the same until the key is removed |
| PoolSafety.LookupReturnsPooled | cffi_binding/main.go:1420-1445 | a look-up returns the pooled entry, whether it hit without the lock, hit under it or created |
| PoolSafety.DecideSize | cffi_binding/main.go:443-452 | the victims chosen bring the pool down to the cap and spare the protected entry |
| ClientPool.ClientPool.Collect | cffi_binding/main.go:421-441 | the scan collects every entry but the protected one, with its access time |
| ClientPool.ClientPool.EvictLRUOverCapLocked | cffi_binding/main.go:410-462 | the pool has min(size before, cap) entries after, the protected key survives, nothing evicted was used after anything unprotected that stays, and the counters say so |
| ClientPool.ClientPool.DeleteStale | cffi_binding/main.go:357-388 | of the keys picked without the lock exactly those still pooled and last used before the cutoff are deleted, and the counters say how many |
| ClientPool.ClientPool.ClearClientPool | cffi_binding/main.go:2045-2059 | the pool is empty, the counter zero, totalEvictions unchanged |
| ClientPool.ClientPool.DeleteFirst | cffi_binding/main.go:453-461 | the loop deletes that many of the least recently used candidates and counts them |
| ClientPool.ClientPool.GetOrCreateLocked | cffi_binding/main.go:1426-1445 | a second look under the lock wins over creation; a failed build changes nothing; an insertion keeps its own entry, gives up only the least recently used ones over the cap, and counts them |
| ClientPool.ClientPool.SetPoolMaxEntries | cffi_binding/main.go:2102-2117 | negative means the default, zero no limit, and a lower cap is enforced at once on the least recently used entries |
| ArenaLayout.ReadsBack | cffi_binding/main.go:1885-1931 | a C reader finds key and value of every pair, each whole exactly when it holds no NUL |
| ArenaLayout.StringsAreDisjoint | cffi_binding/main.go:1890-1908 | no string overlaps another, and the last ends with the arena |
| ArenaLayout.WalksAgree | cffi_binding/main.go:1849-1854 | two walks of one header map meet the same pairs |
| ArenaLayout.LayoutSizeByMultiset | cffi_binding/main.go:1846-1860 | the size of the arena does not depend on the order of the pairs |
| ArenaLayout.PairsAreAdjacent | cffi_binding/main.go:1887-1909 | the strings lie end to end without a gap, each key before its value |
| ArenaLayout.WalkHasEveryValue | cffi_binding/main.go:1893-1896 | under every key a walk meets all its values, in their order |
| ArenaLayout.WalkKeepsOrder | cffi_binding/main.go:1893-1896 | the keys come in the order of the walk |
| ResponseArena.WriteString | cffi_binding/main.go:1897-1900 | a string and its terminator are written, and what lies before stays |
| ResponseArena.FillHeaders | cffi_binding/main.go:1894-1913 | all headers are in place, in the order of the walk |
| ResponseArena.Fill | cffi_binding/main.go:1887-1932 | headers, then cookies, fill the arena to the last byte |
| ResponseArena.CountCookies | cffi_binding/main.go:1855-1859 | bytes of the cookies, terminators included |
| ResponseArena.Count | cffi_binding/main.go:1846-1854 | entries and bytes of the headers, terminators included |
| ResponseArena.CountAll | cffi_binding/main.go:1846-1863 | what one walk counts is exactly what any other walk fills |
| ResponseArena.WritePair | cffi_binding/main.go:1893-1909 | one more pair is in place, behind the others, and its entry points at it |
| ResponseArena.Allocate | cffi_binding/main.go:1865-1885 | entries without an arena do not survive, and each failure is reported with nothing else left allocated |
| ResponseArena.PackResponseArena | cffi_binding/main.go:1845-1938 | the arena is filled to the last byte, every entry points at its strings, headers first and cookies behind, or nothing is kept but an error |
| ResponseArena.EntriesReadBack | cffi_binding/main.go:1835-1844 | reading through the entries gives all headers, then all cookies |
| ResponseArena.FreeEntries | cffi_binding/main.go:1985-2019 | arena and entries are freed, and the cookies, a part of the entries, are not freed again |
| ResponseArena.FreeResponse | cffi_binding/main.go:1981-2042 | headers, strings, body, error, URL and protocol of a packed response are freed once, the response last, and nothing else; the path for separate strings is dead code |
| CacheKey.WriteHeaders | cffi_binding/main.go:1251-1271 | the text lists the values of all keys, keys in order, whatever order the map was walked in |
| CacheKey.WritePins | cffi_binding/main.go:1272-1282 | the same for the pinned hosts |
| CacheKey.HeadersTextIsUnique | cffi_binding/main.go:1251-1271 | one header map has one text |
| CacheKey.PinsTextIsUnique | cffi_binding/main.go:1272-1282 | one map of pinned hosts has one text |
| CacheKey.WriteSettings | cffi_binding/main.go:1323-1330 | the settings in some order that sorts their names |
| CacheKey.WriteSuites | cffi_binding/main.go:1363-1375 | the suites sorted by both names |
| CacheKey.SettingsTextIsUnique | cffi_binding/main.go:1315-1350 | without conflicting values, settings have one text whatever order they came in |
| CacheKey.SettingsTextDetermined | cffi_binding/main.go:1315-1350 | the text of the settings is determined if and only if no name has two values |
| CacheKey.SuitesTextIsUnique | cffi_binding/main.go:1357-1376 | the suites have one text in every order, duplicates included |
| CacheKey.BuildText | cffi_binding/main.go:1250-1376 | the sorted parts, each in order, in their places between the fields that are carried along |
| CacheKey.TextIgnoresOrder | cffi_binding/main.go:1250-1376 | two configurations that differ only in the order of settings and suites have the same text, however maps are walked and ties are sorted |
| CacheKeyTexts.TextsAgreeIff | cffi_binding/main.go:1250-1376 | where keys have values and hold no `=`, pins and first identifiers no `,`, and nothing a mark that may follow it, two configurations have the same text if and only if they differ in the order of settings and suites alone |
| CacheKeyTexts.HeaderTextsAgree | cffi_binding/main.go:1251-1271 | under these conditions both header maps come back from their texts |
| CacheKeyTexts.PinTextsAgree | cffi_binding/main.go:1272-1282 | and the map of pinned hosts from its text |
| CacheKeyTexts.FourTextsAgree | cffi_binding/main.go:1315-1376 | and settings, payloads and suites from theirs |
| CacheKeyTexts.TwoConfigurationsOneText | cffi_binding/main.go:1256-1261 | two configurations with different default headers and one text, and so one client |
| CacheKeyTexts.MarkInAValue | cffi_binding/main.go:1257-1260 | a value may hold what looks like the next header: one header with it and two without have one text |
| CacheKeyTexts.EqualsInAKey | cffi_binding/main.go:1259-1259 | a `=` may end the key or belong to it |
| CacheKeyTexts.NoValuesNoTrace | cffi_binding/main.go:1257-1260 | a key without values leaves no trace |
| CacheKeyTexts.CommaInAPin | cffi_binding/main.go:1277-1281 | a `,` may end a pin or belong to it |
| CacheKeyTexts.CommaInASuite | cffi_binding/main.go:1373-1375 | a `,` may end the first identifier of a suite or belong to it |
| CacheKeyTexts.KnownText | cffi_binding/main.go:1250-1376 | the only text of one configuration with something in every sorted part, letter by letter |
| Pieces.OneListOfPieces | cffi_binding/main.go:1259-1259 | a text of marked pieces has one list of pieces that hold no mark |
| SortedForm.OneSortedForm | cffi_binding/main.go:1327-1330 | sorted permutations of one list agree when the order decides between its elements |
| StringOrder.StringLessIsLess | cffi_binding/main.go:1256-1256 | the order on strings is a strict weak order that decides between any two |
| StringOrder.LessMeans | cffi_binding/main.go:1256-1256 | a string is less exactly when the other is longer or has the larger byte where they first differ |
| Shuffle.ReachableOrders | extension_permute.go:92-108 | the orders the walk can give are exactly the permutations that fix the pinned positions |
| Shuffle.OneDrawSequencePerOrder | profiles/extension_data.go:122-129 | without pins every permutation comes from one draw sequence and from no other |
| Shuffle.ShuffleArranges | profiles/extension_data.go:118-129 | the walk moves positions without looking at what is there |
| Shuffle.KeepsElements | profiles/extension_data.go:118-129 | nothing is lost or duplicated, for any draws |
| Shuffle.KeepsPins | extension_permute.go:76-85 | pinned positions keep what they have, for any draws |
| ExtensionPermute.ShuffleSpan | extension_permute.go:72-110 | the loop, which asks whether an extension is pinned, does the walk with pinned positions |
| ExtensionPermute.PermuteExtensions | extension_permute.go:46-66 | the caller's list is not written, and comes back itself when there is nothing to do |
| ExtensionPermute.ReachableLists | extension_permute.go:46-110 | the lists that can be sent are exactly the arrangements that leave alone GREASE, pre_shared_key, padding unless all may move, and in mode Prefix what lies behind the prefix |
| ExtensionPermute.PermutedKeeps | extension_permute.go:17-36 | the elements are kept, GREASE and pre_shared_key stay, padding stays unless all may move, the tail behind the prefix stays |
| ExtensionPermute.PreSharedKeyStaysLast | extension_permute.go:26-29 | a last pre_shared_key stays last and the only one |
| ExtensionPermute.AnyTwoCanSwap | extension_permute.go:96-108 | in terms of kinds and mode alone, any two extensions that are not GREASE or pre_shared_key, nor padding except in mode All, can change places, in mode Prefix if both lie inside a proper prefix |
| ExtensionPermute.WhatStays | extension_permute.go:54-85 | what the loop skips, and what lies outside its span, is exactly what may not move by kind and mode |
| TrustAnchors.SplitTrustAnchors | profiles/extension_data.go:62-90 | records if and only if the length field fits and the list is the records end to end, and otherwise which error |
| TrustAnchors.OneSplit | profiles/extension_data.go:62-90 | a payload has one split |
| TrustAnchors.SplitsOneWay | profiles/extension_data.go:76-88 | records are a prefix code: a list that starts with records splits there |
| TrustAnchors.SplitThenPrint | profiles/extension_data.go:68-90 | an accepted payload is its length field and its records |
| TrustAnchors.PrintThenSplit | profiles/extension_data.go:131-143 | records come back from their printed form if and only if they fit the 16-bit length, and otherwise the length is refused |
| TrustAnchors.FisherYates | profiles/extension_data.go:122-129 | the loop does the walk, in place |
| TrustAnchors.SameSize | profiles/extension_data.go:131-134 | reordering records does not change the length |
| TrustAnchors.Serialise | profiles/extension_data.go:131-143 | size and payload of the records |
| TrustAnchors.ShuffleTrustAnchors | profiles/extension_data.go:118-144 | the payload of the shuffled records; the given ones stay |
| TrustAnchors.BuildTrustAnchorsPayload | profiles/extension_data.go:101-108 | a payload of the same size and length field that splits into a permutation of the captured records, or the capture's error |
| TrustAnchors.EveryOrderOnce | profiles/extension_data.go:110-117 | any order can be built, from one draw sequence |
| TrustAnchors.RecordMeans | profiles/extension_data.go:76-88 | a record is one length byte and that many bytes |
| TrustAnchors.PrintOnTheWire | profiles/extension_data.go:135-143 | the length field has its high byte first, and the records follow |
| Bytes.BigEndian | profiles/extension_data.go:68-68 | two bytes are read and written high byte first |
| Socks5Udp.HeaderOnTheWire | socks5_udp.go:472-489 | the header byte by byte: two zero bytes, fragment zero, type 1 and four bytes for an IPv4 or mapped address, type 4 and sixteen for any other, and the port with its high byte first |
| Socks5Udp.EncodeHeader | socks5_udp.go:472-489 | the header is at the front of the buffer, whatever it held, and the rest is untouched |
| Socks5Udp.DecodeHeader | socks5_udp.go:493-540 | an address and offset if and only if the datagram starts with an unfragmented numeric header, whose address and port are the bytes that stand there, and otherwise which error |
| Socks5Udp.OneDecoding | socks5_udp.go:493-540 | a datagram has one decoding |
| Socks5Udp.RoundTrip | socks5_udp.go:472-540 | address and payload come back if and only if the IP has 4 or 16 bytes and the port fits, up to IPv4-mapped addresses |
| Socks5Udp.EqualMeansSameShortForm | socks5_udp.go:411-413 | two IPs are equal when their short forms are |
| Socks5Udp.Copy | socks5_udp.go:381-381 | Go's copy into a buffer, cut to what fits |
| Socks5Udp.ReadOne | socks5_udp.go:403-420 | a datagram is dropped exactly when it is not from the relay or not decodable; any other gives its payload and the address in its header |
| Socks5Udp.WriteTo | socks5_udp.go:366-390 | a payload is sent whole behind its header, which is given byte by byte, or not at all, and every error case |
| Socks5Udp.ReadFrom | socks5_udp.go:398-424 | the first datagram that is from the relay and decodable is returned, cut to the caller's buffer, and all before it, and no others, are dropped |
| Socks5Udp.TunnelDelivers | socks5_udp.go:366-424 | what WriteTo puts into a datagram ReadFrom takes out of it, whatever strays come first |
| EchRdata.ExtractFromRdata | cffi_binding/ech.go:59-94 | a value if and only if the record has it, in bounds on every input |
| EchRdata.ExtractIffFinds | cffi_binding/ech.go:59-94 | the value is found exactly behind a whole name and whole parameters with other keys |
| EchRdata.SkipsAName | cffi_binding/ech.go:65-78 | the first loop skips exactly a written name |
| EchRdata.SearchFinds | cffi_binding/ech.go:80-92 | the second loop finds the first parameter with the key |
| EchRdata.ReadsWhatIsWritten | cffi_binding/ech.go:52-57 | a written record gives the first parameter with the key, or nothing |
| EchRdata.CutShort | cffi_binding/ech.go:68-82 | a record cut short gives the same value or none |
| EchRdata.RdataOnTheWire | cffi_binding/ech.go:52-64 | a record is a priority of two bytes, a name and its parameters |
| EchRdata.NameOnTheWire | cffi_binding/ech.go:65-78 | a name is labels, each behind its length, and a zero byte |
| EchRdata.ParamOnTheWire | cffi_binding/ech.go:80-84 | a parameter is key, length and value, high bytes first |
| Ja3.StringToSpec | ja3.go:140-260 | curves, points, extensions and ciphers in that order, with the first error |
| Ja3.Numbers | ja3.go:157-163 | the numbers of a list, or its first part that is none in range |
| Ja3.Extensions | ja3.go:221-243 | the extensions of a list, or the first error: a bad number, an unknown extension, or trust anchors without a payload |
| Ja3.ParseExtensionsMeans | ja3.go:221-243 | a list of extensions is accepted exactly when each is a known number, and gives theirs in order |
| Ja3.AcceptedIff | ja3.go:145-250 | accepted exactly when all numbers are in range and every extension is one of those the code lists, 27 if and only if certificate compression is configured, and 51764 if and only if trust anchors are |
| Ja3.KnownAreAccepted | ja3.go:166-297 | the known extensions, number by number |
| Ja3.WhatAnExtensionGives | ja3.go:221-243 | for each number its extension, 2570 alone giving GREASE, or the error: no number in range, unknown, or trust anchors without a payload |
| Ja3.WhichError | ja3.go:145-250 | the error of a refused string: that of the first bad part of curves, point formats, extensions and ciphers, in this order |
| Ja3.PrintsBack | ja3.go:143-148 | the numbers of a field print back to it exactly when none has a leading zero |
| Ja3.RoundTrip | ja3.go:140-260 | ciphers and extensions of the result, and the curves and points its extensions carry, print back to their fields exactly when those are canonical |
| Decimal.ValueOfDec | ja3.go:159-159 | reading a printed number gives it back |
| Decimal.DecOfValue | ja3.go:159-159 | printing what a canonical text means gives the text |
| Decimal.ValueIsDecimal | ja3.go:159-159 | one more digit multiplies what comes before it by ten |
| Splitting.JoinSplit | ja3.go:142-148 | joining the parts of a string gives the string |
| Splitting.SplitJoin | jar.go:178-178 | splitting joined parts gives the parts |
| Splitting.SplitAt | ja3.go:142-148 | a string splits at its first separator |
| Splitting.SplitOne | ja3.go:149-155 | and is one part without one |
| HostKey.SameKey | jar.go:175-187 | two hosts share a list if and only if they are equal or have two or three parts and the same last two |
| HostKey.KeyIsStable | jar.go:175-187 | a host key is its own host key |
| HostKey.KeyOfParts | jar.go:175-187 | the key of a host with two or three parts is its last two, and any other is its own |
| CookieLists.UniqueMeansTheSame | jar.go:190-205 | the list without repeated names stands for the same map, and has distinct names |
| CookieLists.EveryCookieIsInTheMap | jar.go:84-150 | a list with distinct names and its map hold the same cookies |
| CookieLists.OutsideMeans | jar.go:98-115 | filtering by name is removal from the map |
| CookieLists.NonEmptyAppend | jar.go:208-225 | dropping empty cookies works on each part of a list by itself |
| CookieLists.NotExpiredMeans | jar.go:227-247 | the filtered list stands for the map without negative ages |
| CookieLists.FiltersKeep | jar.go:98-247 | each filter keeps, in order, exactly the cookies with other names, with a value, or without a negative age |
| CookieLists.UniqueIsLastFirst | jar.go:190-205 | the last cookie of each name, the one set last in front |
| CookieJar.MergedRefinesMap | jar.go:91-149 | overwriting is map override by the last non-empty occurrences; skipping adds only absent names; names stay distinct |
| CookieJar.StoredOrder | jar.go:91-149 | the stored list in its order: overwriting puts the cookies that are not replaced in front of the new ones, skipping puts the new ones behind all that was there |
| CookieJar.OverwriteKeepsTheLast | jar.go:93-119 | after any calls, an overwriting jar is the map of the last non-empty occurrences in everything set |
| CookieJar.SkipKeepsTheFirst | jar.go:121-149 | a skipping jar keeps for each name what the first call with it brought |
| CookieJar.NothingIsMadeUp | jar.go:84-150 | every stored cookie is a non-empty one of some call |
| CookieJar.HostKeysAreSeparate | jar.go:84-150 | the list of a host key is that of its own calls, whatever comes between, and has distinct names |
| CookieJar.Jar.SetCookies | jar.go:84-150 | the new list, the map it stands for, and that no other host key changes |
| CookieJar.Jar.Cookies | jar.go:152-161 | the stored map without negative ages |
| CookieJar.LastOfEachName | jar.go:190-205 | the loop from the back keeps the last cookie of each name |
| CookieJar.DropEmpty | jar.go:208-225 | cookies without a value are dropped unless allowed |
| CookieJar.DropExpired | jar.go:227-247 | cookies with a negative age are dropped |
| CookieJar.InSlice | jar.go:249-257 | membership in a slice |
| CookieJar.RunIsDistinct | jar.go:84-150 | after any calls the names of a list are distinct |
| CookieJar.NotNamedIn | jar.go:98-115 | the nested loops keep the cookies whose names the other list lacks |
| CookieDeletion.DeletionTakesEffectIff | jar.go:91-119 | overwriting: a call takes a name out of what is sent if and only if the last cookie of that name which it keeps has a negative age |
| CookieDeletion.SentIffLastIsAlive | jar.go:91-161 | overwriting, over all calls: a name is sent if and only if the last cookie of that name ever kept has no negative age |
| CookieDeletion.EmptyDeletionDeletesNothing | jar.go:208-231 | an empty cookie deletes nothing, whatever its age, unless empty cookies are allowed |
| CookieDeletion.NoDeletionOfStored | jar.go:121-149 | skipping: no call changes whether a stored name is sent |
| CookieDeletion.FirstCallDecides | jar.go:121-161 | skipping, over all calls: the first call that brings a name decides for good whether it is sent |
| CookieDeletion.LastKeptIsBrought | jar.go:190-225 | what a call brings under a name is the last cookie of that name that is not dropped as empty |

## Left out

- Stale transports: a transport that was dropped but is still in flight gets no guarantee beyond `ReconnectGoesWrongIffMisled`, because the code gives none.
- HTTP/1, HTTP/2, TLS and QUIC themselves, sockets, DNS, DoH, proxies and socket options: each is a choice of the network.
- CloseIdleConnections, request cancellation, WebSocket handles, logging, hooks and option setters: no cached state depends on them.
- The cause of a failed request: a request error, a bad pin and a timeout are one kind of failure where the code treats them alike.
- ClientPool: entries are values there, so the identity of a client across calls is stated on `PoolMachine` only; pool entries that are not `*poolEntry`, non-string keys, and the last-eviction statistics are not modelled.
- GetPoolStats: it counts without the lock, so its count is approximate by design.
- RoundTripper.RoundTripper.RoundTrip: without a racer, whose goroutines are in `TransportCache` only.
- ResponseArena: C integer widths of the counts are not modelled; sizes are unbounded.
- CacheKey: SHA-256 is not modelled.
- CacheKey.BuildText: the fields in input order are one string before, one between and one behind the sorted parts, because their order is fixed by the code.
- CacheKeyTexts.TextsAgreeIff: compares configurations that agree in those three strings.
- TrustAnchors: the hexadecimal text around a captured payload is decoded before the model starts.
- ExtensionPermute: that the shuffle with pins is not uniform, and `applyExtensionPermute`, which only wraps a factory.
- Socks5Udp: the SOCKS5 negotiation, Close, deadlines and the pooling of buffers; a buffer from the pool has arbitrary contents.
- EchRdata: which SvcParam key means ECH. The code searches key 4, while section 14.3.2 of RFC 9460 registers 5 for ech and 4 for ipv4hint, so the key is a parameter.
- Ja3: strings with fewer than five fields, which the code indexes without a check, and the mapping of the other arguments of the spec factory.
- CookieJar: the public-suffix jar of the standard library behind this one, to which every list is also handed and which is not read back; the slices that `GetAllCookies` shares.
- Profile tables, header tables, the Python layer and the build scripts: data or glue.
