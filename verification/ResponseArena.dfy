/** packResponseArena and FreeResponse: one array of entries, one arena of strings, and who frees them. */
module ResponseArena {
  import opened Bytes
  import opened ArenaLayout
  import opened Seqs

  datatype Ptr = Null | At(block: array<Byte>, offset: nat)

  datatype HttpHeader = HttpHeader(key: Ptr, value: Ptr)

  /** The C heap, as far as ownership goes. Freeing needs a block that is live, so a block cannot be
      freed twice. */
  class Allocator {
    ghost var live: set<object>

    constructor ()
      ensures live == {}
    {
      live := {};
    }

    method Free(block: object)
      requires block in live
      modifies this
      ensures live == old(live) - {block}
    {
      live := live - {block};
    }
  }

  function Own(block: object?): set<object> {
    if block == null then {} else {block}
  }

  class ResponseResult {
    var responseHeaders: array?<HttpHeader>
    var responseHeadersLen: nat
    var cookies: array?<HttpHeader>       // the block that `cookies` points into, at `cookiesAt`
    var cookiesAt: nat
    var cookiesLen: nat
    var respStrings: array?<Byte>
    var body: array?<Byte>
    var errMsg: array?<Byte>
    var targetUrl: array?<Byte>
    var usedProtocol: array?<Byte>

    constructor ()
      ensures responseHeaders == null && cookies == null && respStrings == null
      ensures body == null && errMsg == null && targetUrl == null && usedProtocol == null
      ensures responseHeadersLen == cookiesLen == 0
    {
      responseHeaders, cookies, respStrings := null, null, null;
      body, errMsg, targetUrl, usedProtocol := null, null, null, null;
      responseHeadersLen, cookiesAt, cookiesLen := 0, 0, 0;
    }

    /** The blocks this response owns besides itself. */
    ghost function Blocks(): set<object>
      reads this
    {
      Entries() + Texts()
    }

    ghost function Entries(): set<object>
      reads this
    {
      Own(responseHeaders) + Own(respStrings)
    }

    ghost function Texts(): set<object>
      reads this
    {
      Own(body) + Own(errMsg) + Own(targetUrl) + Own(usedProtocol)
    }

    /** The texts are blocks of their own. */
    ghost predicate TextsDiffer()
      reads this
    {
      && (body != null ==> body != errMsg && body != targetUrl && body != usedProtocol && body != respStrings)
      && (errMsg != null ==> errMsg != targetUrl && errMsg != usedProtocol && errMsg != respStrings)
      && (targetUrl != null ==> targetUrl != usedProtocol && targetUrl != respStrings)
      && (usedProtocol != null ==> usedProtocol != respStrings)
    }

    /** The shape every packed response has: entries without an arena do not occur, and the cookies are
        a part of the entries. */
    ghost predicate Packed()
      reads this
    {
      && TextsDiffer()
      && (respStrings == null ==> responseHeaders == null)
      && (respStrings == null ==> cookies == null)
      && (cookies != null ==> cookies == responseHeaders)
    }
  }

  ghost function EntryFor(arena: array<Byte>, all: seq<Pair>, i: nat): HttpHeader
    requires i < |all|
  {
    HttpHeader(At(arena, Offset(all, i)), At(arena, Offset(all, i) + |all[i].key| + 1))
  }

  /** The first `n` pairs are in place. */
  ghost predicate Filled(arena: array<Byte>, entries: array<HttpHeader>, all: seq<Pair>, n: nat)
    reads arena, entries
  {
    && n <= |all| && arena.Length == |Layout(all)| && entries.Length == |all|
    && Offset(all, n) <= |Layout(all)| && arena[..Offset(all, n)] == Layout(all[..n])
    && forall i | 0 <= i < n :: entries[i] == EntryFor(arena, all, i)
  }

  /** Copies `s` and a terminator to `offset`. */
  method WriteString(arena: array<Byte>, offset: nat, s: Str)
    requires offset + |s| < arena.Length
    modifies arena
    ensures arena[..offset + |s| + 1] == old(arena[..offset]) + s + [0]
  {
    forall k | 0 <= k < |s| {
      arena[offset + k] := s[k];
    }
    arena[offset + |s|] := 0;
  }

  method WriteCell(arena: array<Byte>, offset: nat, p: Pair) returns (v: nat, next: nat)
    requires offset + |Cell(p)| <= arena.Length
    modifies arena
    ensures v == offset + |p.key| + 1 && next == offset + |Cell(p)|
    ensures arena[..next] == old(arena[..offset]) + Cell(p)
  {
    CellSpelled(arena[..offset], p);
    assert |Cell(p)| == |p.key| + 1 + |p.value| + 1;
    hide Cell;
    WriteString(arena, offset, p.key);
    v := offset + |p.key| + 1;
    WriteString(arena, v, p.value);
    next := v + |p.value| + 1;
  }

  method WritePair(arena: array<Byte>, entries: array<HttpHeader>, n: nat, offset: nat, p: Pair, ghost all: seq<Pair>)
    returns (next: nat)
    requires Filled(arena, entries, all, n) && n < |all| && all[n] == p && offset == Offset(all, n)
    modifies arena, entries
    ensures Filled(arena, entries, all, n + 1) && next == Offset(all, n + 1)
  {
    CellAt(all, n);
    assert all[..n + 1] == all[..n] + [p];
    LayoutSnoc(all[..n], p);
    hide Cell, Layout;
    var v;
    v, next := WriteCell(arena, offset, p);
    entries[n] := HttpHeader(At(arena, offset), At(arena, v));
  }

  lemma CellSpelled(before: seq<Byte>, p: Pair)
    ensures before + Cell(p) == before + p.key + [0] + p.value + [0]
  {
  }

  /** Every entry of the header map, in one walk, then every cookie. */
  ghost function AllPairs(headers: Headers, order: seq<Str>, cookies: seq<Pair>): seq<Pair>
    requires IsWalk(order, headers)
  {
    Walk(order, headers) + cookies
  }

  /** What the first `j` keys of a walk give. */
  ghost function Walked(headers: Headers, order: seq<Str>, j: nat): seq<Pair>
    requires IsWalk(order, headers) && j <= |order|
  {
    assert forall k <- order[..j] :: k in order;
    Walk(order[..j], headers)
  }

  lemma WalkedNext(headers: Headers, order: seq<Str>, j: nat)
    requires IsWalk(order, headers) && j < |order|
    ensures order[j] in headers
    ensures Walked(headers, order, j + 1) == Walked(headers, order, j) + PairsOf(order[j], headers[order[j]])
    ensures Walked(headers, order, j + 1) <= Walk(order, headers)
  {
    assert order[..j + 1] == order[..j] + [order[j]] && order == order[..j + 1] + order[j + 1..];
    WalkAppend(order[..j + 1], order[j + 1..], headers);
    WalkAppend(order[..j], [order[j]], headers);
    assert Walk([order[j]], headers) == PairsOf(order[j], headers[order[j]]) + Walk([], headers);
  }

  lemma WalkedEnds(headers: Headers, order: seq<Str>)
    requires IsWalk(order, headers)
    ensures Walked(headers, order, 0) == [] && Walked(headers, order, |order|) == Walk(order, headers)
  {
    assert order[..|order|] == order;
  }

  lemma LayoutNext(walked: seq<Pair>, key: Str, values: seq<Str>, i: nat)
    requires i < |values|
    ensures |Layout(walked + PairsOf(key, values)[..i + 1])|
            == |Layout(walked + PairsOf(key, values)[..i])| + |key| + 1 + |values[i]| + 1
  {
    var ps, p := PairsOf(key, values), Pair(key, values[i]);
    assert walked + ps[..i + 1] == (walked + ps[..i]) + [p];
    LayoutSnoc(walked + ps[..i], p);
  }

  /** Phase 1: count entries and string bytes, in a walk of its own. */
  method Count(headers: Headers, order: seq<Str>) returns (entries: nat, bytes: nat)
    requires IsWalk(order, headers)
    ensures entries == |Walk(order, headers)| && bytes == |Layout(Walk(order, headers))|
  {
    entries, bytes := 0, 0;
    WalkedEnds(headers, order);
    assert Layout([]) == [];
    hide Layout, Walk, IsWalk, Walked;
    for j := 0 to |order|
      invariant entries == |Walked(headers, order, j)| && bytes == |Layout(Walked(headers, order, j))|
    {
      WalkedNext(headers, order, j);
      var key, values := order[j], headers[order[j]];
      ghost var walked := Walked(headers, order, j);
      assert walked + PairsOf(key, values)[..0] == walked;
      for i := 0 to |values|
        invariant entries == |walked| + i
        invariant bytes == |Layout(walked + PairsOf(key, values)[..i])|
      {
        LayoutNext(walked, key, values, i);
        entries := entries + 1;
        bytes := bytes + |key| + 1 + |values[i]| + 1;
      }
      assert PairsOf(key, values)[..|values|] == PairsOf(key, values);
    }
  }

  method CountCookies(cookies: seq<Pair>) returns (bytes: nat)
    ensures bytes == |Layout(cookies)|
  {
    bytes := 0;
    for i := 0 to |cookies|
      invariant bytes == |Layout(cookies[..i])|
    {
      assert cookies[..i + 1] == cookies[..i] + [cookies[i]];
      LayoutSnoc(cookies[..i], cookies[i]);
      bytes := bytes + |cookies[i].key| + 1 + |cookies[i].value| + 1;
    }
    assert cookies[..|cookies|] == cookies;
  }

  /** Phase 3 for the headers. */
  method FillHeaders(arena: array<Byte>, entries: array<HttpHeader>, headers: Headers, order: seq<Str>,
                     ghost all: seq<Pair>)
    returns (entryIdx: nat, offset: nat)
    requires IsWalk(order, headers) && Walk(order, headers) <= all && Filled(arena, entries, all, 0)
    modifies arena, entries
    ensures entryIdx == |Walk(order, headers)| && offset == Offset(all, entryIdx)
    ensures Filled(arena, entries, all, entryIdx)
  {
    entryIdx, offset := 0, 0;
    WalkedEnds(headers, order);
    assert Offset(all, 0) == 0;
    hide Filled, Layout, Offset, Walk, IsWalk, Walked;
    for j := 0 to |order|
      invariant entryIdx == |Walked(headers, order, j)|
      invariant Filled(arena, entries, all, entryIdx) && offset == Offset(all, entryIdx)
    {
      WalkedNext(headers, order, j);
      var key, values := order[j], headers[order[j]];
      ghost var walked := Walked(headers, order, j);
      for i := 0 to |values|
        invariant entryIdx == |walked| + i
        invariant Filled(arena, entries, all, entryIdx) && offset == Offset(all, entryIdx)
      {
        PairAt(walked, key, values, all, i);
        offset := WritePair(arena, entries, entryIdx, offset, Pair(key, values[i]), all);
        entryIdx := entryIdx + 1;
      }
    }
  }

  lemma PairAt(walked: seq<Pair>, key: Str, values: seq<Str>, all: seq<Pair>, i: nat)
    requires walked + PairsOf(key, values) <= all && i < |values|
    ensures |walked| + i < |all| && all[|walked| + i] == Pair(key, values[i])
  {
    assert (walked + PairsOf(key, values))[|walked| + i] == PairsOf(key, values)[i];
  }

  lemma CookieAt(headers: Headers, order: seq<Str>, cookies: seq<Pair>, i: nat)
    requires IsWalk(order, headers) && i < |cookies|
    ensures var all, n := AllPairs(headers, order, cookies), |Walk(order, headers)| + i;
            n < |all| && all[n] == cookies[i]
  {
    hide Walk;
  }

  lemma FilledUp(arena: array<Byte>, entries: array<HttpHeader>, all: seq<Pair>)
    requires Filled(arena, entries, all, |all|)
    ensures arena[..] == Layout(all) && forall i | 0 <= i < |all| :: entries[i] == EntryFor(arena, all, i)
  {
    assert all[..|all|] == all && arena[..] == arena[..arena.Length];
    hide Layout, EntryFor;
  }

  /** Phase 3: the headers, then the cookies. */
  method Fill(arena: array<Byte>, entries: array<HttpHeader>, headers: Headers, order: seq<Str>, cookies: seq<Pair>,
              ghost all: seq<Pair>)
    requires IsWalk(order, headers) && all == AllPairs(headers, order, cookies) && Filled(arena, entries, all, 0)
    modifies arena, entries
    ensures arena[..] == Layout(all) && forall i | 0 <= i < |all| :: entries[i] == EntryFor(arena, all, i)
  {
    ghost var headerEntries := |Walk(order, headers)|;
    assert |all| == headerEntries + |cookies| && Walk(order, headers) <= all;
    hide Walk, IsWalk, Layout, Offset, EntryFor, AllPairs, Filled;
    var entryIdx, offset := FillHeaders(arena, entries, headers, order, all);
    for i := 0 to |cookies|
      invariant entryIdx == headerEntries + i
      invariant Filled(arena, entries, all, entryIdx) && offset == Offset(all, entryIdx)
    {
      CookieAt(headers, order, cookies, i);
      offset := WritePair(arena, entries, entryIdx, offset, cookies[i], all);
      entryIdx := entryIdx + 1;
    }
    FilledUp(arena, entries, all);
  }

  /** Every entry points at its strings in an arena that is filled to the last byte; the headers come
      first, and the cookies are the rest of the same array. */
  ghost predicate Holds(result: ResponseResult, all: seq<Pair>, headerEntries: nat)
    reads result, result.responseHeaders, result.respStrings
  {
    && result.errMsg == null && result.responseHeaders != null && result.respStrings != null
    && result.respStrings[..] == Layout(all)
    && result.responseHeaders.Length == |all|
    && (forall i | 0 <= i < |all| :: result.responseHeaders[i] == EntryFor(result.respStrings, all, i))
    && headerEntries <= |all| && result.responseHeadersLen == headerEntries
    && (headerEntries == |all| ==> result.cookies == null)
    && (headerEntries < |all| ==>
          && result.cookies == result.responseHeaders
          && result.cookiesAt == headerEntries && result.cookiesLen == |all| - headerEntries)
  }

  ghost predicate Empty(result: ResponseResult)
    reads result
  {
    result.responseHeaders == null && result.respStrings == null && result.cookies == null
  }

  /** Phase 1: what one walk counts is what any other walk fills. */
  method CountAll(headers: Headers, counted: seq<Str>, ghost filled: seq<Str>, cookies: seq<Pair>)
    returns (headerEntries: nat, totalStrBytes: nat)
    requires IsWalk(counted, headers) && IsWalk(filled, headers)
    ensures headerEntries == |Walk(filled, headers)|
    ensures headerEntries + |cookies| == |AllPairs(headers, filled, cookies)|
    ensures totalStrBytes == |Layout(AllPairs(headers, filled, cookies))|
    ensures AllPairs(headers, filled, cookies) != [] ==> totalStrBytes > 0
  {
    var headerBytes;
    headerEntries, headerBytes := Count(headers, counted);
    var cookieBytes := CountCookies(cookies);
    totalStrBytes := headerBytes + cookieBytes;
    CountedIsFilled(headers, counted, filled, cookies);
    SomeBytes(AllPairs(headers, filled, cookies));
  }

  /** What every way through the packing keeps: the texts that were there, and an account of the new blocks. */
  twostate predicate Owned(heap: Allocator, result: ResponseResult)
    reads heap, result
  {
    && fresh(heap.live - old(heap.live)) && heap.live == old(heap.live) + result.Entries() + Own(result.errMsg)
    && result.body == old(result.body) && result.targetUrl == old(result.targetUrl)
    && result.usedProtocol == old(result.usedProtocol)
  }

  method NewError(heap: Allocator, result: ResponseResult)
    requires result.TextsDiffer() && Empty(result) && result.errMsg == null
    modifies heap, result`errMsg
    ensures result.errMsg != null && result.Packed() && Owned(heap, result)
  {
    result.errMsg := new Byte[1](_ => 0);
    heap.live := heap.live + {result.errMsg};
  }

  /** Phase 2: the entries, then the arena; entries without an arena are given back at once. */
  method Allocate(heap: Allocator, result: ResponseResult, totalEntries: nat, totalStrBytes: nat,
                  callocOk: bool, mallocOk: bool)
    returns (entries: array?<HttpHeader>, arena: array?<Byte>)
    requires result.TextsDiffer() && Empty(result) && result.errMsg == null && totalStrBytes > 0
    modifies heap, result
    ensures result.Packed() && Owned(heap, result)
    ensures result.responseHeaders == entries && result.respStrings == arena && result.cookies == null
    ensures if callocOk && mallocOk then
              && result.errMsg == null && entries != null && arena != null && fresh(entries) && fresh(arena)
              && entries.Length == totalEntries && arena.Length == totalStrBytes
            else
              Empty(result) && result.errMsg != null
  {
    entries, arena := null, null;
    if !callocOk {
      NewError(heap, result);
      return;
    }
    entries := new HttpHeader[totalEntries](_ => HttpHeader(Null, Null));
    heap.live := heap.live + {entries};
    result.responseHeaders := entries;
    if !mallocOk {
      heap.Free(entries);
      result.responseHeaders, entries := null, null;
      NewError(heap, result);
      return;
    }
    arena := new Byte[totalStrBytes](_ => 0);
    heap.live := heap.live + {arena};
    result.respStrings := arena;
  }

  /** Phase 3 and the lengths. */
  method FillResult(result: ResponseResult, entries: array<HttpHeader>, arena: array<Byte>, headers: Headers,
                    filled: seq<Str>, cookies: seq<Pair>, headerEntries: nat)
    requires IsWalk(filled, headers) && headerEntries == |Walk(filled, headers)|
    requires entries.Length == |AllPairs(headers, filled, cookies)|
    requires arena.Length == |Layout(AllPairs(headers, filled, cookies))|
    requires result.responseHeaders == entries && result.respStrings == arena
    requires result.errMsg == null && result.cookies == null
    modifies result`responseHeadersLen, result`cookies, result`cookiesAt, result`cookiesLen, entries, arena
    ensures Holds(result, AllPairs(headers, filled, cookies), headerEntries)
    ensures result.cookies == null || result.cookies == entries
  {
    ghost var all := AllPairs(headers, filled, cookies);
    NothingFilled(arena, entries, all);
    hide Layout, Walk, IsWalk, EntryFor;
    Fill(arena, entries, headers, filled, cookies, all);
    result.responseHeadersLen := headerEntries;
    if |cookies| > 0 {
      result.cookies, result.cookiesAt, result.cookiesLen := entries, headerEntries, |cookies|;
    }
  }

  /** packResponseArena. The two passes over the header map may walk it in different orders. */
  method PackResponseArena(heap: Allocator, result: ResponseResult, headers: Headers, counted: seq<Str>,
                           filled: seq<Str>, cookies: seq<Pair>, callocOk: bool, mallocOk: bool)
    requires IsWalk(counted, headers) && IsWalk(filled, headers)
    requires result.TextsDiffer() && Empty(result) && result.errMsg == null
    modifies heap, result
    ensures result.Packed() && Owned(heap, result)
    ensures var all := AllPairs(headers, filled, cookies);
            if all == [] then Empty(result) && result.errMsg == null
            else if !callocOk || !mallocOk then Empty(result) && result.errMsg != null
            else Holds(result, all, |Walk(filled, headers)|)
  {
    hide Layout, Walk, IsWalk, Holds, AllPairs;
    var headerEntries, totalStrBytes := CountAll(headers, counted, filled, cookies);
    if headerEntries + |cookies| > 0 {
      var entries, arena := Allocate(heap, result, headerEntries + |cookies|, totalStrBytes, callocOk, mallocOk);
      if arena != null {
        FillResult(result, entries, arena, headers, filled, cookies, headerEntries);
      }
    }
  }

  /** What a C caller finds behind the entries of a packed response: the headers in the order they were
      walked, then the cookies, each text whole exactly when it holds no NUL. */
  lemma EntriesReadBack(result: ResponseResult, headers: Headers, filled: seq<Str>, cookies: seq<Pair>, i: nat)
    requires IsWalk(filled, headers) && i < |AllPairs(headers, filled, cookies)|
    requires Holds(result, AllPairs(headers, filled, cookies), |Walk(filled, headers)|)
    ensures var e, arena := result.responseHeaders[i], result.respStrings;
            var h := |Walk(filled, headers)|;
            var p := if i < h then Walk(filled, headers)[i] else cookies[i - h];
            && e.key.At? && e.key.block == arena && ReadsAs(arena[..], e.key.offset, p.key)
            && e.value.At? && e.value.block == arena && ReadsAs(arena[..], e.value.offset, p.value)
  {
    ReadsBack(AllPairs(headers, filled, cookies), i);
    hide ReadsAs, Layout, Walk, Offset, IsWalk;
  }

  lemma NothingFilled(arena: array<Byte>, entries: array<HttpHeader>, all: seq<Pair>)
    requires arena.Length == |Layout(all)| && entries.Length == |all|
    ensures Filled(arena, entries, all, 0)
  {
  }

  lemma SomeBytes(all: seq<Pair>)
    ensures all != [] ==> |Layout(all)| > 0
  {
  }

  /** The space that was counted in one order is the space that another order fills. */
  lemma CountedIsFilled(headers: Headers, counted: seq<Str>, filled: seq<Str>, cookies: seq<Pair>)
    requires IsWalk(counted, headers) && IsWalk(filled, headers)
    ensures |Walk(counted, headers)| == |Walk(filled, headers)|
    ensures |Layout(Walk(counted, headers))| + |Layout(cookies)| == |Layout(AllPairs(headers, filled, cookies))|
  {
    WalksAgree(counted, filled, headers);
    LayoutSizeByMultiset(Walk(counted, headers), Walk(filled, headers));
    LayoutAppend(Walk(filled, headers), cookies);
  }

  /** FreeResponse on a packed response: every block it owns is freed, each once, and the response
      itself last. */
  method FreeResponse(heap: Allocator, res: ResponseResult?)
    requires res != null ==> res.Packed() && res.Blocks() + {res} <= heap.live
    modifies heap, res
    ensures heap.live == if res == null then old(heap.live) else old(heap.live - (res.Blocks() + {res}))
    ensures res != null ==> res.Blocks() == {} && res.cookies == null
    ensures res != null ==> heap.live <= old(heap.live) && forall o <- old(heap.live) ::
              o in heap.live <==>
                && o != res && o != old(res.responseHeaders) && o != old(res.respStrings) && o != old(res.body)
                && o != old(res.errMsg) && o != old(res.targetUrl) && o != old(res.usedProtocol)
  {
    if res == null { return; }
    BlocksDiffer(res);
    ghost var blocks := res.Blocks();
    BlocksAre(res);
    ghost var texts := res.Texts();
    FreeEntries(heap, res);
    assert res.Texts() == texts;
    FreeTexts(heap, res.body, res.errMsg, res.targetUrl, res.usedProtocol);
    res.body, res.errMsg, res.targetUrl, res.usedProtocol := null, null, null, null;
    heap.Free(res);
  }

  lemma BlocksAre(res: ResponseResult)
    ensures forall o: object :: o in res.Blocks() <==>
              || o == res.responseHeaders || o == res.respStrings || o == res.body
              || o == res.errMsg || o == res.targetUrl || o == res.usedProtocol
  {
  }

  lemma BlocksDiffer(res: ResponseResult)
    requires res.Packed()
    ensures Own(res.body) !! Own(res.errMsg) !! Own(res.targetUrl) !! Own(res.usedProtocol)
    ensures res.Entries() !! res.Texts()
    ensures res !in res.Blocks()
  {
  }

  method FreeEntries(heap: Allocator, res: ResponseResult)
    requires res.Packed() && res.Entries() <= heap.live
    modifies heap, res`respStrings, res`responseHeaders, res`cookies
    ensures heap.live == old(heap.live) - old(res.Entries()) && Empty(res)
  {
    var headersLen, cookiesLen := res.responseHeadersLen, res.cookiesLen;
    if res.respStrings != null {
      heap.Free(res.respStrings);
      res.respStrings := null;
      if res.responseHeaders != null {
        heap.Free(res.responseHeaders);
        res.responseHeaders := null;
        res.cookies := null;
      }
    } else if (res.responseHeaders != null && headersLen > 0) || (res.cookies != null && cookiesLen > 0) {
      // The path for strings that are blocks of their own.
      assert false;
    }
  }

  method FreeTexts(heap: Allocator, body: array?<Byte>, errMsg: array?<Byte>, targetUrl: array?<Byte>,
                   usedProtocol: array?<Byte>)
    requires Own(body) !! Own(errMsg) !! Own(targetUrl) !! Own(usedProtocol)
    requires Own(body) + Own(errMsg) + Own(targetUrl) + Own(usedProtocol) <= heap.live
    modifies heap
    ensures heap.live == old(heap.live) - (Own(body) + Own(errMsg) + Own(targetUrl) + Own(usedProtocol))
  {
    FreeText(heap, body);
    FreeText(heap, errMsg);
    FreeText(heap, targetUrl);
    FreeText(heap, usedProtocol);
  }

  method FreeText(heap: Allocator, text: array?<Byte>)
    requires Own(text) <= heap.live
    modifies heap
    ensures heap.live == old(heap.live) - Own(text)
  {
    if text != null {
      heap.Free(text);
    }
  }
}
