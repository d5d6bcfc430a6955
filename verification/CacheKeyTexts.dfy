/** Which configurations share a text: nothing in it is escaped, so the sorted parts tell configurations
    apart exactly as far as their characters do. */
module CacheKeyTexts {
  import opened CacheKey
  import opened Decimal
  import opened Pieces
  import opened Seqs
  import opened SortedForm
  import opened Splitting
  import opened StringOrder

  // Headers and pins

  datatype Entry = Entry(name: string, value: string)

  function Tail(tag: string, e: Entry): string {
    tag + e.name + "=" + e.value
  }

  function Tails(tag: string, es: seq<Entry>): (tails: seq<string>)
    ensures |tails| == |es|
  {
    seq(|es|, i requires 0 <= i < |es| => Tail(tag, es[i]))
  }

  function Named(key: string, values: seq<string>): (es: seq<Entry>)
    ensures |es| == |values|
  {
    seq(|values|, i requires 0 <= i < |values| => Entry(key, values[i]))
  }

  function Entries(keys: seq<string>, headers: Headers): seq<Entry>
    requires forall k <- keys :: k in headers
  {
    if keys == [] then []
    else
      var k := keys[|keys| - 1];
      Entries(keys[..|keys| - 1], headers) + Named(k, headers[k])
  }

  lemma TailsAppend(tag: string, a: seq<Entry>, b: seq<Entry>)
    ensures Tails(tag, a + b) == Tails(tag, a) + Tails(tag, b)
  {
  }

  lemma {:induction false} ValuesAreMarked(mark: char, tag: string, key: string, values: seq<string>)
    ensures ValuesText([mark] + tag, key, values) == Marked(mark, Tails(tag, Named(key, values)))
    decreases |values|
  {
    if values != [] {
      var front, value := values[..|values| - 1], values[|values| - 1];
      ValuesAreMarked(mark, tag, key, front);
      assert Named(key, values) == Named(key, front) + [Entry(key, value)];
      TailsAppend(tag, Named(key, front), [Entry(key, value)]);
      assert Tails(tag, [Entry(key, value)]) == [Tail(tag, Entry(key, value))];
      MarkedSnoc(mark, Tails(tag, Named(key, front)), Tail(tag, Entry(key, value)));
      assert HeaderPiece([mark] + tag, key, value) == [mark] + Tail(tag, Entry(key, value));
    }
  }

  lemma {:induction false} HeadersAreMarked(mark: char, tag: string, keys: seq<string>, headers: Headers)
    requires forall k <- keys :: k in headers
    ensures HeadersText([mark] + tag, keys, headers) == Marked(mark, Tails(tag, Entries(keys, headers)))
    decreases |keys|
  {
    if keys != [] {
      var front, k := keys[..|keys| - 1], keys[|keys| - 1];
      HeadersAreMarked(mark, tag, front, headers);
      ValuesAreMarked(mark, tag, k, headers[k]);
      TailsAppend(tag, Entries(front, headers), Named(k, headers[k]));
      MarkedAppend(mark, Tails(tag, Entries(front, headers)), Tails(tag, Named(k, headers[k])));
      hide Marked, Tails, Named, ValuesText;
    }
  }

  /** What the entries have under one name. */
  function ValuesOf(es: seq<Entry>, name: string): seq<string> {
    if es == [] then []
    else
      var front, e := ValuesOf(es[..|es| - 1], name), es[|es| - 1];
      if e.name == name then front + [e.value] else front
  }

  lemma {:induction false} ValuesOfAppend(a: seq<Entry>, b: seq<Entry>, name: string)
    ensures ValuesOf(a + b, name) == ValuesOf(a, name) + ValuesOf(b, name)
    decreases |b|
  {
    if b == [] {
      assert a + b == a;
    } else {
      var front := b[..|b| - 1];
      assert (a + b)[..|a + b| - 1] == a + front && (a + b)[|a + b| - 1] == b[|b| - 1];
      ValuesOfAppend(a, front, name);
    }
  }

  lemma {:induction false} ValuesOfNamed(key: string, values: seq<string>, name: string)
    ensures ValuesOf(Named(key, values), name) == if key == name then values else []
    decreases |values|
  {
    if values != [] {
      var front := values[..|values| - 1];
      assert Named(key, values)[..|values| - 1] == Named(key, front);
      ValuesOfNamed(key, front, name);
    }
  }

  lemma {:induction false} ValuesComeBack(keys: seq<string>, headers: Headers, name: string)
    requires Distinct(keys) && forall k <- keys :: k in headers
    ensures ValuesOf(Entries(keys, headers), name) == if name in keys then headers[name] else []
    decreases |keys|
  {
    if keys != [] {
      var front, k := keys[..|keys| - 1], keys[|keys| - 1];
      assert keys == front + [k];
      ValuesComeBack(front, headers, name);
      ValuesOfNamed(k, headers[k], name);
      ValuesOfAppend(Entries(front, headers), Named(k, headers[k]), name);
      hide Named, ValuesOf;
    }
  }

  ghost predicate NoneEmpty(headers: Headers) {
    forall k <- headers :: headers[k] != []
  }

  /** The entries of a walk give the map back, except for keys without values. */
  lemma EntriesGiveTheMap(x: seq<string>, h: Headers, y: seq<string>, g: Headers)
    requires IsWalk(x, h) && IsWalk(y, g) && (forall k <- x :: k in h) && (forall k <- y :: k in g)
    requires Entries(x, h) == Entries(y, g) && NoneEmpty(h) && NoneEmpty(g)
    ensures h == g
  {
    hide Entries, ValuesOf;
    forall k | k in h || k in g ensures k in h && k in g && h[k] == g[k] {
      ValuesComeBack(x, h, k);
      ValuesComeBack(y, g, k);
    }
    assert h.Keys == g.Keys;
  }

  /** A name ends at the first `=`. */
  lemma OneListOfEntries(tag: string, a: seq<Entry>, b: seq<Entry>)
    requires NamesLack(a, '=') && NamesLack(b, '=') && Tails(tag, a) == Tails(tag, b)
    ensures a == b
  {
    assert |a| == |b|;
    forall i | 0 <= i < |a| ensures a[i] == b[i] {
      assert Tails(tag, a)[i] == Tail(tag, a[i]) && Tails(tag, b)[i] == Tail(tag, b[i]);
      SameTail(tag, a[i], b[i]);
    }
  }

  ghost predicate NamesLack(es: seq<Entry>, c: char) {
    forall i | 0 <= i < |es| :: Lacks(es[i].name, c)
  }

  lemma SameTail(tag: string, e: Entry, f: Entry)
    requires Tail(tag, e) == Tail(tag, f) && Lacks(e.name, '=') && Lacks(f.name, '=')
    ensures e == f
  {
    assert Tail(tag, e)[|tag|..] == e.name + ("=" + e.value);
    assert Tail(tag, f)[|tag|..] == f.name + ("=" + f.value);
    CutAt(e.name, "=" + e.value, f.name, "=" + f.value, '=');
    assert ("=" + e.value)[1..] == e.value && ("=" + f.value)[1..] == f.value;
  }

  /** The entries of a walk hold what the map holds. */
  lemma {:induction false} EntriesAre(keys: seq<string>, headers: Headers)
    requires forall k <- keys :: k in headers
    ensures forall i | 0 <= i < |Entries(keys, headers)| ::
              Entries(keys, headers)[i].name in headers
              && Entries(keys, headers)[i].value in headers[Entries(keys, headers)[i].name]
    decreases |keys|
  {
    if keys != [] {
      EntriesAre(keys[..|keys| - 1], headers);
    }
  }

  ghost predicate KeysLack(headers: Headers, c: char) {
    forall k <- headers :: Lacks(k, c)
  }

  ghost predicate HoldsNo(headers: Headers, c: char) {
    KeysLack(headers, c) && forall k <- headers, v <- headers[k] :: Lacks(v, c)
  }

  lemma TailsLack(tag: string, keys: seq<string>, headers: Headers, c: char)
    requires (forall k <- keys :: k in headers) && HoldsNo(headers, c) && c != '=' && Lacks(tag, c)
    ensures AllLack(Tails(tag, Entries(keys, headers)), c)
  {
    EntriesAre(keys, headers);
    var es := Entries(keys, headers);
    hide Entries;
    forall tail <- Tails(tag, es) ensures Lacks(tail, c) {
      var i :| 0 <= i < |es| && Tails(tag, es)[i] == tail;
      assert Lacks(es[i].name, c) && Lacks(es[i].value, c);
    }
  }

  lemma EntryNamesLack(keys: seq<string>, headers: Headers)
    requires (forall k <- keys :: k in headers) && KeysLack(headers, '=')
    ensures NamesLack(Entries(keys, headers), '=')
  {
    EntriesAre(keys, headers);
  }

  lemma AsPieces(text: string, mark: char, tag: string, headers: Headers) returns (keys: seq<string>)
    requires IsHeadersText(text, [mark] + tag, headers)
    ensures IsWalk(keys, headers) && (forall k <- keys :: k in headers)
    ensures text == Marked(mark, Tails(tag, Entries(keys, headers)))
  {
    keys :| IsSortedWalk(keys, headers) && text == HeadersText([mark] + tag, keys, headers);
    HeadersAreMarked(mark, tag, keys, headers);
  }

  /** Header maps whose texts can be told apart. */
  ghost predicate CleanHeaders(headers: Headers) {
    && NoneEmpty(headers) && KeysLack(headers, '=')
    && HoldsNo(headers, '~') && HoldsNo(headers, '^') && HoldsNo(headers, '|')
  }

  lemma TextLacks(text: string, mark: char, tag: string, headers: Headers, c: char)
    requires IsHeadersText(text, [mark] + tag, headers) && HoldsNo(headers, c) && c != '=' && c != mark && Lacks(tag, c)
    ensures Lacks(text, c)
  {
    var keys := AsPieces(text, mark, tag, headers);
    TailsLack(tag, keys, headers, c);
    MarkedLacks(mark, Tails(tag, Entries(keys, headers)), c);
  }

  lemma SameMap(tag: string, x: seq<string>, h: Headers, y: seq<string>, g: Headers)
    requires IsWalk(x, h) && IsWalk(y, g) && (forall k <- x :: k in h) && (forall k <- y :: k in g)
    requires NoneEmpty(h) && KeysLack(h, '=') && NoneEmpty(g) && KeysLack(g, '=')
    requires Tails(tag, Entries(x, h)) == Tails(tag, Entries(y, g))
    ensures h == g
  {
    EntryNamesLack(x, h);
    EntryNamesLack(y, g);
    hide *;
    OneListOfEntries(tag, Entries(x, h), Entries(y, g));
    EntriesGiveTheMap(x, h, y, g);
  }

  /** Both header maps come back from their texts, one behind the other. */
  lemma HeaderTextsAgree(dh: string, ch: string, h: Headers, g: Headers,
                         dh': string, ch': string, h': Headers, g': Headers)
    requires CleanHeaders(h) && CleanHeaders(g) && CleanHeaders(h') && CleanHeaders(g')
    requires IsHeadersText(dh, "~dh:", h) && IsHeadersText(ch, "~ch:", g)
    requires IsHeadersText(dh', "~dh:", h') && IsHeadersText(ch', "~ch:", g')
    requires dh + ch == dh' + ch'
    ensures h == h' && g == g'
  {
    assert "~dh:" == ['~'] + "dh:" && "~ch:" == ['~'] + "ch:";
    hide IsHeadersText, Marked, Tails, Entries, IsWalk, AllLack, AllTagged, NoneTagged;
    var x := AsPieces(dh, '~', "dh:", h);
    var y := AsPieces(ch, '~', "ch:", g);
    var x' := AsPieces(dh', '~', "dh:", h');
    var y' := AsPieces(ch', '~', "ch:", g');
    var a, b := Tails("dh:", Entries(x, h)), Tails("ch:", Entries(y, g));
    var a', b' := Tails("dh:", Entries(x', h')), Tails("ch:", Entries(y', g'));
    PiecesOfTwo(x, h, y, g);
    PiecesOfTwo(x', h', y', g');
    OneListOfPieces('~', a + b, a' + b');
    GroupsAgree(a, b, a', b', "dh:");
    SameMap("dh:", x, h, x', h');
    SameMap("ch:", y, g, y', g');
  }

  lemma PiecesOfTwo(x: seq<string>, h: Headers, y: seq<string>, g: Headers)
    requires (forall k <- x :: k in h) && (forall k <- y :: k in g) && HoldsNo(h, '~') && HoldsNo(g, '~')
    ensures var a, b := Tails("dh:", Entries(x, h)), Tails("ch:", Entries(y, g));
            && AllLack(a + b, '~') && AllTagged(a, "dh:") && NoneTagged(b, "dh:")
            && Marked('~', a) + Marked('~', b) == Marked('~', a + b)
  {
    var a, b := Tails("dh:", Entries(x, h)), Tails("ch:", Entries(y, g));
    TailsLack("dh:", x, h, '~');
    TailsLack("ch:", y, g, '~');
    MarkedAppend('~', a, b);
    Tagged("dh:", Entries(x, h));
    Tagged("ch:", Entries(y, g));
    hide Entries, Tails, Marked;
    OtherTag(b, "ch:", "dh:", 0);
  }

  lemma Tagged(tag: string, es: seq<Entry>)
    ensures AllTagged(Tails(tag, es), tag)
  {
  }

  // Pins

  /** A pin list as one value, the way it is printed. */
  ghost function Joined(pins: Headers): Headers {
    map host <- pins :: [PinList(pins[host])]
  }

  lemma {:induction false} PinsAsHeaders(hosts: seq<string>, pins: Headers)
    requires forall h <- hosts :: h in pins
    ensures PinsText(hosts, pins) == HeadersText("^cp:", hosts, Joined(pins))
    decreases |hosts|
  {
    if hosts != [] {
      var front, h := hosts[..|hosts| - 1], hosts[|hosts| - 1];
      PinsAsHeaders(front, pins);
      var list := PinList(pins[h]);
      assert [list][..0] == [] && ValuesText("^cp:", h, []) == "";
      assert ValuesText("^cp:", h, [list]) == HeaderPiece("^cp:", h, list);
    }
  }

  lemma PinsTextIsHeadersText(text: string, pins: Headers)
    requires IsPinsText(text, pins)
    ensures IsHeadersText(text, "^cp:", Joined(pins))
  {
    var hosts :| IsSortedWalk(hosts, pins) && text == PinsText(hosts, pins);
    PinsAsHeaders(hosts, pins);
    assert IsSortedWalk(hosts, Joined(pins));
  }

  lemma {:induction false} PinListLacks(pins: seq<string>, c: char)
    requires c != ',' && forall pin <- pins :: Lacks(pin, c)
    ensures Lacks(PinList(pins), c)
    decreases |pins|
  {
    if pins != [] {
      assert Lacks(pins[|pins| - 1], c);
      PinListLacks(pins[..|pins| - 1], c);
    }
  }

  lemma {:induction false} OnePinList(a: seq<string>, b: seq<string>)
    requires (forall pin <- a :: Lacks(pin, ',')) && (forall pin <- b :: Lacks(pin, ','))
    requires PinList(a) == PinList(b)
    ensures a == b
    decreases |a|
  {
    if a != [] && b != [] {
      var f, x, g, y := a[..|a| - 1], a[|a| - 1], b[..|b| - 1], b[|b| - 1];
      assert PinList(a)[..|PinList(a)| - 1] == PinList(f) + x;
      assert PinList(b)[..|PinList(b)| - 1] == PinList(g) + y;
      CutBehind(PinList(f), x, PinList(g), y, ',');
      OnePinList(f, g);
      assert a == f + [x] && b == g + [y];
    }
  }

  /** Pins whose texts can be told apart. A host without pins leaves a trace, so there may be such. */
  ghost predicate CleanPins(pins: Headers) {
    && KeysLack(pins, '=') && HoldsNo(pins, '^') && HoldsNo(pins, '|')
    && forall h <- pins, pin <- pins[h] :: Lacks(pin, ',')
  }

  lemma JoinedHoldsNo(pins: Headers, c: char)
    requires HoldsNo(pins, c) && c != ','
    ensures HoldsNo(Joined(pins), c)
  {
    forall h <- pins ensures Lacks(PinList(pins[h]), c) {
      PinListLacks(pins[h], c);
    }
  }

  lemma JoinedIsOneToOne(p: Headers, q: Headers)
    requires CleanPins(p) && CleanPins(q) && Joined(p) == Joined(q)
    ensures p == q
  {
    assert p.Keys == Joined(p).Keys && q.Keys == Joined(q).Keys;
    forall h <- p ensures p[h] == q[h] {
      assert Joined(p)[h] == [PinList(p[h])] && Joined(q)[h] == [PinList(q[h])];
      assert [PinList(p[h])][0] == [PinList(q[h])][0];
      OnePinList(p[h], q[h]);
    }
  }

  lemma JoinedIsClean(pins: Headers)
    requires CleanPins(pins)
    ensures NoneEmpty(Joined(pins)) && KeysLack(Joined(pins), '=') && HoldsNo(Joined(pins), '^')
  {
    JoinedHoldsNo(pins, '^');
  }

  lemma PinTextsAgree(text: string, p: Headers, q: Headers)
    requires CleanPins(p) && CleanPins(q) && IsPinsText(text, p) && IsPinsText(text, q)
    ensures p == q
  {
    assert "^cp:" == ['^'] + "cp:" && Lacks("cp:", '^');
    hide *;
    PinsTextIsHeadersText(text, p);
    PinsTextIsHeadersText(text, q);
    JoinedIsClean(p);
    JoinedIsClean(q);
    var x := AsPieces(text, '^', "cp:", Joined(p));
    var y := AsPieces(text, '^', "cp:", Joined(q));
    TailsLack("cp:", x, Joined(p), '^');
    TailsLack("cp:", y, Joined(q), '^');
    OneListOfPieces('^', Tails("cp:", Entries(x, Joined(p))), Tails("cp:", Entries(y, Joined(q))));
    SameMap("cp:", x, Joined(p), y, Joined(q));
    JoinedIsOneToOne(p, q);
  }

  // Settings, payloads and suites

  function SettingTails(tag: string, settings: seq<Setting>): (tails: seq<string>)
    ensures |tails| == |settings|
  {
    seq(|settings|, i requires 0 <= i < |settings| => tag + settings[i].key + "=" + Dec(settings[i].value))
  }

  function PayloadTails(payloads: seq<nat>): (tails: seq<string>)
    ensures |tails| == |payloads|
  {
    seq(|payloads|, i requires 0 <= i < |payloads| => "echp:" + Dec(payloads[i]))
  }

  function SuiteTails(suites: seq<Suite>): (tails: seq<string>)
    ensures |tails| == |suites|
  {
    seq(|suites|, i requires 0 <= i < |suites| => "echcs:" + suites[i].kdfId + "," + suites[i].aeadId)
  }

  lemma {:induction false} SettingsAreMarked(tag: string, settings: seq<Setting>)
    ensures SettingsText("|" + tag, settings) == Marked('|', SettingTails(tag, settings))
    decreases |settings|
  {
    if settings != [] {
      var front, s := settings[..|settings| - 1], settings[|settings| - 1];
      SettingsAreMarked(tag, front);
      assert SettingTails(tag, settings) == SettingTails(tag, front) + [tag + s.key + "=" + Dec(s.value)];
      MarkedSnoc('|', SettingTails(tag, front), tag + s.key + "=" + Dec(s.value));
      assert SettingPiece("|" + tag, s) == "|" + (tag + s.key + "=" + Dec(s.value));
    }
  }

  lemma {:induction false} PayloadsAreMarked(payloads: seq<nat>)
    ensures PayloadsText(payloads) == Marked('|', PayloadTails(payloads))
    decreases |payloads|
  {
    if payloads != [] {
      var front, p := payloads[..|payloads| - 1], payloads[|payloads| - 1];
      PayloadsAreMarked(front);
      assert PayloadTails(payloads) == PayloadTails(front) + ["echp:" + Dec(p)];
      MarkedSnoc('|', PayloadTails(front), "echp:" + Dec(p));
      assert "|echp:" + Dec(p) == "|" + ("echp:" + Dec(p));
    }
  }

  lemma {:induction false} SuitesAreMarked(suites: seq<Suite>)
    ensures SuitesText(suites) == Marked('|', SuiteTails(suites))
    decreases |suites|
  {
    if suites != [] {
      var front, e := suites[..|suites| - 1], suites[|suites| - 1];
      SuitesAreMarked(front);
      assert SuiteTails(suites) == SuiteTails(front) + ["echcs:" + e.kdfId + "," + e.aeadId];
      MarkedSnoc('|', SuiteTails(front), "echcs:" + e.kdfId + "," + e.aeadId);
      assert "|echcs:" + e.kdfId + "," + e.aeadId == "|" + ("echcs:" + e.kdfId + "," + e.aeadId);
    }
  }

  lemma DecLacks(n: nat, c: char)
    requires !IsDigit(c)
    ensures Lacks(Dec(n), c)
  {
    DecIsCanonical(n);
  }

  lemma OneNumber(m: nat, n: nat)
    requires Dec(m) == Dec(n)
    ensures m == n
  {
    ValueOfDec(m);
    ValueOfDec(n);
  }

  /** The value begins behind the last `=`, so a name may hold one. */
  lemma SameSetting(tag: string, s: Setting, t: Setting)
    requires tag + s.key + "=" + Dec(s.value) == tag + t.key + "=" + Dec(t.value)
    ensures s == t
  {
    DecLacks(s.value, '=');
    DecLacks(t.value, '=');
    var a, b := tag + s.key + "=", tag + t.key + "=";
    hide Dec;
    CutBehind(a, Dec(s.value), b, Dec(t.value), '=');
    OneNumber(s.value, t.value);
    assert s.key == a[|tag|..|a| - 1] && t.key == b[|tag|..|b| - 1];
  }

  lemma OneListOfSettings(tag: string, a: seq<Setting>, b: seq<Setting>)
    requires SettingTails(tag, a) == SettingTails(tag, b)
    ensures a == b
  {
    assert |a| == |b|;
    forall i | 0 <= i < |a| ensures a[i] == b[i] {
      assert SettingTails(tag, a)[i] == SettingTails(tag, b)[i];
      SameSetting(tag, a[i], b[i]);
    }
  }

  lemma OneListOfPayloads(a: seq<nat>, b: seq<nat>)
    requires PayloadTails(a) == PayloadTails(b)
    ensures a == b
  {
    assert |a| == |b|;
    forall i | 0 <= i < |a| ensures a[i] == b[i] {
      assert PayloadTails(a)[i][5..] == Dec(a[i]) && PayloadTails(b)[i][5..] == Dec(b[i]);
      OneNumber(a[i], b[i]);
    }
  }

  ghost predicate CleanSettings(settings: seq<Setting>) {
    forall s <- settings :: Lacks(s.key, '|')
  }

  ghost predicate CleanSuites(suites: seq<Suite>) {
    forall e <- suites :: Lacks(e.kdfId, ',') && Lacks(e.kdfId, '|') && Lacks(e.aeadId, '|')
  }

  lemma SameSuite(e: Suite, f: Suite)
    requires "echcs:" + e.kdfId + "," + e.aeadId == "echcs:" + f.kdfId + "," + f.aeadId
    requires Lacks(e.kdfId, ',') && Lacks(f.kdfId, ',')
    ensures e == f
  {
    assert ("echcs:" + e.kdfId + "," + e.aeadId)[6..] == e.kdfId + ("," + e.aeadId);
    assert ("echcs:" + f.kdfId + "," + f.aeadId)[6..] == f.kdfId + ("," + f.aeadId);
    CutAt(e.kdfId, "," + e.aeadId, f.kdfId, "," + f.aeadId, ',');
    assert ("," + e.aeadId)[1..] == e.aeadId && ("," + f.aeadId)[1..] == f.aeadId;
  }

  lemma OneListOfSuites(a: seq<Suite>, b: seq<Suite>)
    requires CleanSuites(a) && CleanSuites(b) && SuiteTails(a) == SuiteTails(b)
    ensures a == b
  {
    assert |a| == |b|;
    forall i | 0 <= i < |a| ensures a[i] == b[i] {
      assert SuiteTails(a)[i] == SuiteTails(b)[i];
      assert a[i] in a && b[i] in b;
      SameSuite(a[i], b[i]);
    }
  }

  /** The pieces of the four lists, one behind the other. */
  ghost function FourTails(h2: seq<Setting>, h3: seq<Setting>, payloads: seq<nat>, suites: seq<Suite>): seq<string> {
    SettingTails("h2s:", h2) + (SettingTails("h3s:", h3) + (PayloadTails(payloads) + SuiteTails(suites)))
  }

  lemma FourListsAreMarked(h2: seq<Setting>, h3: seq<Setting>, payloads: seq<nat>, suites: seq<Suite>)
    ensures SettingsText("|h2s:", h2) + SettingsText("|h3s:", h3) + PayloadsText(payloads) + SuitesText(suites)
            == Marked('|', FourTails(h2, h3, payloads, suites))
  {
    assert "|h2s:" == "|" + "h2s:" && "|h3s:" == "|" + "h3s:";
    var a, b, c, d := SettingTails("h2s:", h2), SettingTails("h3s:", h3), PayloadTails(payloads), SuiteTails(suites);
    assert FourTails(h2, h3, payloads, suites) == a + (b + (c + d));
    hide *;
    SettingsAreMarked("h2s:", h2);
    SettingsAreMarked("h3s:", h3);
    PayloadsAreMarked(payloads);
    SuitesAreMarked(suites);
    MarkedAppend('|', c, d);
    MarkedAppend('|', b, c + d);
    MarkedAppend('|', a, b + (c + d));
    Associates(Marked('|', a), Marked('|', b), Marked('|', c));
    Associates(Marked('|', a), Marked('|', b) + Marked('|', c), Marked('|', d));
    Associates(Marked('|', b), Marked('|', c), Marked('|', d));
  }

  lemma FourTailsLackMarks(h2: seq<Setting>, h3: seq<Setting>, payloads: seq<nat>, suites: seq<Suite>)
    requires CleanSettings(h2) && CleanSettings(h3) && CleanSuites(suites)
    ensures AllLack(FourTails(h2, h3, payloads, suites), '|')
  {
    SettingTailsLackMarks("h2s:", h2);
    SettingTailsLackMarks("h3s:", h3);
    forall tail <- PayloadTails(payloads) ensures Lacks(tail, '|') {
      var i :| 0 <= i < |payloads| && PayloadTails(payloads)[i] == tail;
      DecLacks(payloads[i], '|');
    }
    forall tail <- SuiteTails(suites) ensures Lacks(tail, '|') {
      var i :| 0 <= i < |suites| && SuiteTails(suites)[i] == tail;
      assert suites[i] in suites;
    }
  }

  lemma SettingTailsLackMarks(tag: string, settings: seq<Setting>)
    requires CleanSettings(settings) && Lacks(tag, '|')
    ensures AllLack(SettingTails(tag, settings), '|')
  {
    forall tail <- SettingTails(tag, settings) ensures Lacks(tail, '|') {
      var i :| 0 <= i < |settings| && SettingTails(tag, settings)[i] == tail;
      assert settings[i] in settings;
      DecLacks(settings[i].value, '|');
    }
  }

  lemma SettingsTagged(tag: string, settings: seq<Setting>)
    ensures AllTagged(SettingTails(tag, settings), tag)
  {
  }

  lemma OthersTagged(h3: seq<Setting>, payloads: seq<nat>, suites: seq<Suite>)
    ensures AllTagged(SettingTails("h3s:", h3), "h3s:") && NoneTagged(SettingTails("h3s:", h3), "h2s:")
    ensures AllTagged(PayloadTails(payloads), "echp:")
    ensures NoneTagged(PayloadTails(payloads), "h2s:") && NoneTagged(PayloadTails(payloads), "h3s:")
    ensures NoneTagged(SuiteTails(suites), "h2s:") && NoneTagged(SuiteTails(suites), "h3s:")
    ensures NoneTagged(SuiteTails(suites), "echp:")
  {
    SettingsTagged("h3s:", h3);
    var b, c, d := SettingTails("h3s:", h3), PayloadTails(payloads), SuiteTails(suites);
    assert AllTagged(c, "echp:") && AllTagged(d, "echcs:");
    hide *;
    OtherTag(b, "h3s:", "h2s:", 1);
    OtherTag(c, "echp:", "h2s:", 0);
    OtherTag(c, "echp:", "h3s:", 0);
    OtherTag(d, "echcs:", "h2s:", 0);
    OtherTag(d, "echcs:", "h3s:", 0);
    OtherTag(d, "echcs:", "echp:", 3);
  }

  lemma FourGroupsAgree(h2: seq<Setting>, h3: seq<Setting>, payloads: seq<nat>, suites: seq<Suite>,
                        h2': seq<Setting>, h3': seq<Setting>, payloads': seq<nat>, suites': seq<Suite>)
    requires FourTails(h2, h3, payloads, suites) == FourTails(h2', h3', payloads', suites')
    ensures SettingTails("h2s:", h2) == SettingTails("h2s:", h2')
    ensures SettingTails("h3s:", h3) == SettingTails("h3s:", h3')
    ensures PayloadTails(payloads) == PayloadTails(payloads') && SuiteTails(suites) == SuiteTails(suites')
  {
    var a, b, c, d := SettingTails("h2s:", h2), SettingTails("h3s:", h3), PayloadTails(payloads), SuiteTails(suites);
    var a', b', c', d' :=
      SettingTails("h2s:", h2'), SettingTails("h3s:", h3'), PayloadTails(payloads'), SuiteTails(suites');
    assert a + (b + (c + d)) == a' + (b' + (c' + d'));
    hide *;
    SettingsTagged("h2s:", h2);
    SettingsTagged("h2s:", h2');
    OthersTagged(h3, payloads, suites);
    OthersTagged(h3', payloads', suites');
    ThreeCuts(a, b, c, d, a', b', c', d');
  }

  lemma ThreeCuts(a: seq<string>, b: seq<string>, c: seq<string>, d: seq<string>,
                  a': seq<string>, b': seq<string>, c': seq<string>, d': seq<string>)
    requires a + (b + (c + d)) == a' + (b' + (c' + d'))
    requires AllTagged(a, "h2s:") && AllTagged(b, "h3s:") && AllTagged(c, "echp:")
    requires AllTagged(a', "h2s:") && AllTagged(b', "h3s:") && AllTagged(c', "echp:")
    requires forall t <- [b, c, d, b', c', d'] :: NoneTagged(t, "h2s:")
    requires forall t <- [c, d, c', d'] :: NoneTagged(t, "h3s:")
    requires forall t <- [d, d'] :: NoneTagged(t, "echp:")
    ensures a == a' && b == b' && c == c' && d == d'
  {
    assert forall t <- [b, c, d, b', c', d'] :: NoneTagged(t, "h2s:");
    hide AllTagged, NoneTagged;
    NoneTaggedAppend(c, d, "h2s:");
    NoneTaggedAppend(c', d', "h2s:");
    NoneTaggedAppend(b, c + d, "h2s:");
    NoneTaggedAppend(b', c' + d', "h2s:");
    GroupsAgree(a, b + (c + d), a', b' + (c' + d'), "h2s:");
    NoneTaggedAppend(c, d, "h3s:");
    NoneTaggedAppend(c', d', "h3s:");
    GroupsAgree(b, c + d, b', c' + d', "h3s:");
    GroupsAgree(c, d, c', d', "echp:");
  }

  /** The four lists come back from their texts, one behind the other. */
  lemma FourTextsAgree(h2: seq<Setting>, h3: seq<Setting>, payloads: seq<nat>, suites: seq<Suite>,
                       h2': seq<Setting>, h3': seq<Setting>, payloads': seq<nat>, suites': seq<Suite>)
    requires CleanSettings(h2) && CleanSettings(h3) && CleanSuites(suites)
    requires CleanSettings(h2') && CleanSettings(h3') && CleanSuites(suites')
    requires SettingsText("|h2s:", h2) + SettingsText("|h3s:", h3) + PayloadsText(payloads) + SuitesText(suites)
             == SettingsText("|h2s:", h2') + SettingsText("|h3s:", h3') + PayloadsText(payloads') + SuitesText(suites')
    ensures h2 == h2' && h3 == h3' && payloads == payloads' && suites == suites'
  {
    hide Marked, FourTails, SettingTails, PayloadTails, SuiteTails, SettingsText, PayloadsText, SuitesText, AllLack;
    FourListsAreMarked(h2, h3, payloads, suites);
    FourListsAreMarked(h2', h3', payloads', suites');
    FourTailsLackMarks(h2, h3, payloads, suites);
    FourTailsLackMarks(h2', h3', payloads', suites');
    OneListOfPieces('|', FourTails(h2, h3, payloads, suites), FourTails(h2', h3', payloads', suites'));
    FourGroupsAgree(h2, h3, payloads, suites, h2', h3', payloads', suites');
    OneListOfSettings("h2s:", h2, h2');
    OneListOfSettings("h3s:", h3, h3');
    OneListOfPayloads(payloads, payloads');
    OneListOfSuites(suites, suites');
  }

  // The whole text

  /** Configurations whose texts can be told apart: keys have values and hold no `=`, pins no `,`, the first
      identifier of a suite no `,`, and nothing holds a mark that may follow it. */
  ghost predicate Clean(cfg: Config) {
    && CleanHeaders(cfg.defaultHeaders) && CleanHeaders(cfg.connectHeaders) && CleanPins(cfg.certificatePinningHosts)
    && CleanSettings(cfg.h2Settings) && CleanSettings(cfg.h3Settings) && CleanSuites(cfg.echSuites)
  }

  /** What is carried along is the same, and between the sorted parts it begins with a mark, as every field
      there does. */
  ghost predicate SameFrame(c: Config, d: Config) {
    c.front == d.front && c.middle == d.middle && c.back == d.back && Begins(c.middle, '|')
  }

  /** The text of the maps, and the text of the lists. */
  function MapsText(p: Parts): string {
    p.dh + p.ch + p.cp
  }

  function ListsText(p: Parts, payloads: seq<nat>): string {
    p.h2 + p.h3 + PayloadsText(payloads) + p.suites
  }

  lemma MapsSection(p: Parts, cfg: Config)
    requires Clean(cfg) && ArePartsOf(p, cfg)
    ensures Lacks(p.dh + p.ch, '^') && Begins(p.cp, '^') && Lacks(MapsText(p), '|')
  {
    hide IsHeadersText, IsPinsText, CleanHeaders, CleanPins, Lacks, Begins;
    HeaderTags();
    HeadersLack(p.dh, "dh:", cfg.defaultHeaders);
    HeadersLack(p.ch, "ch:", cfg.connectHeaders);
    PinsLack(p.cp, cfg.certificatePinningHosts);
    BothLack(p.dh, p.ch, '^');
    BothLack(p.dh, p.ch, '|');
    BothLack(p.dh + p.ch, p.cp, '|');
  }

  lemma HeaderTags()
    ensures "~" + "dh:" == "~dh:" && Lacks("dh:", '^') && Lacks("dh:", '|')
    ensures "~" + "ch:" == "~ch:" && Lacks("ch:", '^') && Lacks("ch:", '|')
  {
  }

  lemma BothLack(a: string, b: string, c: char)
    requires Lacks(a, c) && Lacks(b, c)
    ensures Lacks(a + b, c)
  {
  }

  lemma HeadersLack(text: string, tag: string, headers: Headers)
    requires IsHeadersText(text, "~" + tag, headers) && CleanHeaders(headers) && Lacks(tag, '^') && Lacks(tag, '|')
    ensures Lacks(text, '^') && Lacks(text, '|')
  {
    assert "~" + tag == ['~'] + tag;
    hide IsHeadersText, HoldsNo, KeysLack, NoneEmpty;
    TextLacks(text, '~', tag, headers, '^');
    TextLacks(text, '~', tag, headers, '|');
  }

  lemma PinsLack(text: string, pins: Headers)
    requires IsPinsText(text, pins) && CleanPins(pins)
    ensures Begins(text, '^') && Lacks(text, '|')
  {
    assert "^cp:" == ['^'] + "cp:";
    hide IsHeadersText, IsPinsText, Joined, HoldsNo, KeysLack, NoneEmpty, Tails, Entries;
    PinsTextIsHeadersText(text, pins);
    JoinedHoldsNo(pins, '|');
    var keys := AsPieces(text, '^', "cp:", Joined(pins));
    TextLacks(text, '^', "cp:", Joined(pins), '|');
  }

  lemma MapsAgree(p: Parts, c: Config, q: Parts, d: Config)
    requires Clean(c) && Clean(d) && ArePartsOf(p, c) && ArePartsOf(q, d) && MapsText(p) == MapsText(q)
    ensures c.defaultHeaders == d.defaultHeaders && c.connectHeaders == d.connectHeaders
    ensures c.certificatePinningHosts == d.certificatePinningHosts
  {
    hide IsHeadersText, IsPinsText, CleanHeaders, CleanPins;
    MapsSection(p, c);
    MapsSection(q, d);
    CutAt(p.dh + p.ch, p.cp, q.dh + q.ch, q.cp, '^');
    HeaderTextsAgree(p.dh, p.ch, c.defaultHeaders, c.connectHeaders, q.dh, q.ch, d.defaultHeaders, d.connectHeaders);
    PinTextsAgree(p.cp, c.certificatePinningHosts, d.certificatePinningHosts);
  }

  /** The two sections are where they were. */
  lemma SectionsAgree(front: string, s: string, middle: string, t: string, back: string, s': string, t': string)
    requires front + s + middle + t + back == front + s' + middle + t' + back
    requires Lacks(s, '|') && Lacks(s', '|') && Begins(middle, '|') && Begins(t, '|') && Begins(t', '|')
    ensures s == s' && t == t'
  {
    var x, y := s + (middle + t), s' + (middle + t');
    assert front + s + middle + t + back == front + x + back && front + s' + middle + t' + back == front + y + back;
    assert |x| == |y|;
    assert x == (front + x + back)[|front|..|front| + |x|] && y == (front + y + back)[|front|..|front| + |y|];
    CutAt(s, middle + t, s', middle + t', '|');
    assert t == (middle + t)[|middle|..] && t' == (middle + t')[|middle|..];
  }

  lemma ListsAgree(p: Parts, c: Config, q: Parts, d: Config)
    requires Clean(c) && Clean(d) && ArePartsOf(p, c) && ArePartsOf(q, d)
    requires ListsText(p, c.echPayloads) == ListsText(q, d.echPayloads)
    ensures multiset(c.h2Settings) == multiset(d.h2Settings) && multiset(c.h3Settings) == multiset(d.h3Settings)
    ensures c.echPayloads == d.echPayloads && multiset(c.echSuites) == multiset(d.echSuites)
  {
    hide SettingsText, SuitesText, PayloadsText, IsSettingsText, IsSuitesText, CleanSettings, CleanSuites;
    var x := SettingsSorted(p.h2, "|h2s:", c.h2Settings);
    var y := SettingsSorted(p.h3, "|h3s:", c.h3Settings);
    var z := SuitesSorted(p.suites, c.echSuites);
    var x' := SettingsSorted(q.h2, "|h2s:", d.h2Settings);
    var y' := SettingsSorted(q.h3, "|h3s:", d.h3Settings);
    var z' := SuitesSorted(q.suites, d.echSuites);
    FourTextsAgree(x, y, c.echPayloads, z, x', y', d.echPayloads, z');
  }

  lemma SettingsSorted(text: string, tag: string, settings: seq<Setting>) returns (sorted: seq<Setting>)
    requires IsSettingsText(text, tag, settings) && CleanSettings(settings)
    ensures multiset(sorted) == multiset(settings) && CleanSettings(sorted) && text == SettingsText(tag, sorted)
  {
    sorted :| SortsTo(settings, sorted, SettingLess) && text == SettingsText(tag, sorted);
    SameMembers(settings, sorted);
  }

  lemma SuitesSorted(text: string, suites: seq<Suite>) returns (sorted: seq<Suite>)
    requires IsSuitesText(text, suites) && CleanSuites(suites)
    ensures multiset(sorted) == multiset(suites) && CleanSuites(sorted) && text == SuitesText(sorted)
  {
    sorted :| SortsTo(suites, sorted, SuiteLess) && text == SuitesText(sorted);
    SameMembers(suites, sorted);
  }

  lemma ListsBegin(p: Parts, cfg: Config)
    requires Clean(cfg) && ArePartsOf(p, cfg)
    ensures Begins(ListsText(p, cfg.echPayloads), '|')
  {
    hide SettingsText, SuitesText, PayloadsText, IsSettingsText, IsSuitesText, CleanSettings, CleanSuites;
    var x := SettingsSorted(p.h2, "|h2s:", cfg.h2Settings);
    var y := SettingsSorted(p.h3, "|h3s:", cfg.h3Settings);
    var z := SuitesSorted(p.suites, cfg.echSuites);
    FourListsAreMarked(x, y, cfg.echPayloads, z);
  }

  /** Two clean configurations with one text are the same up to order. */
  lemma SameTextSameConfig(text: string, c: Config, d: Config)
    requires Clean(c) && Clean(d) && SameFrame(c, d) && IsText(text, c) && IsText(text, d)
    ensures SameUpToOrder(c, d)
  {
    hide Clean, ArePartsOf, Assembled, MapsText, ListsText;
    var p :| ArePartsOf(p, c) && text == Assembled(c, p);
    var q :| ArePartsOf(q, d) && text == Assembled(d, q);
    InSections(c, p);
    InSections(d, q);
    MapsSection(p, c);
    MapsSection(q, d);
    ListsBegin(p, c);
    ListsBegin(q, d);
    SectionsAgree(c.front, MapsText(p), c.middle, ListsText(p, c.echPayloads), c.back,
                  MapsText(q), ListsText(q, d.echPayloads));
    MapsAgree(p, c, q, d);
    ListsAgree(p, c, q, d);
  }

  lemma InSections(cfg: Config, p: Parts)
    ensures Assembled(cfg, p) == cfg.front + MapsText(p) + cfg.middle + ListsText(p, cfg.echPayloads) + cfg.back
  {
    var list := PayloadsText(cfg.echPayloads);
    hide PayloadsText;
    assert cfg.front + p.dh + p.ch + p.cp == cfg.front + (p.dh + p.ch + p.cp);
    var left := cfg.front + p.dh + p.ch + p.cp + cfg.middle;
    assert left + p.h2 + p.h3 + list + p.suites == left + (p.h2 + p.h3 + list + p.suites);
  }

  /** What the text is for: two clean configurations share one, and with it one pooled client, exactly when
      they differ in nothing but the order of settings and suites. */
  lemma TextsAgreeIff(a: string, b: string, c: Config, d: Config)
    requires Clean(c) && Clean(d) && SameFrame(c, d) && IsText(a, c) && IsText(b, d)
    requires NoConflict(c.h2Settings) && NoConflict(c.h3Settings)
    ensures a == b <==> SameUpToOrder(c, d)
  {
    hide Clean, IsText, NoConflict;
    if a == b {
      SameTextSameConfig(a, c, d);
    }
    if SameUpToOrder(c, d) {
      TextIgnoresOrder(a, b, c, d);
    }
  }

  // Why the characters matter

  lemma OneKeyText(tag: string, k: string, values: seq<string>)
    ensures IsHeadersText(ValuesText(tag, k, values), tag, map[k := values])
  {
    var keys, h: Headers := [k], map[k := values];
    assert keys[..0] == [] && HeadersText(tag, [], h) == "";
    assert HeadersText(tag, keys, h) == ValuesText(tag, k, values);
    assert IsSortedWalk(keys, h);
  }

  lemma OneValueText(tag: string, k: string, v: string)
    ensures ValuesText(tag, k, [v]) == HeaderPiece(tag, k, v)
  {
    assert [v][..0] == [] && ValuesText(tag, k, []) == "";
  }

  lemma TwoKeysText(tag: string, a: string, v: string, b: string, w: string)
    requires StringLess(a, b)
    ensures IsHeadersText(HeaderPiece(tag, a, v) + HeaderPiece(tag, b, w), tag, map[a := [v], b := [w]])
  {
    Trichotomy(a, b);
    var keys, h: Headers := [a, b], map[a := [v], b := [w]];
    assert keys[..1] == [a] && [a][..0] == [] && HeadersText(tag, [], h) == "";
    OneValueText(tag, a, v);
    OneValueText(tag, b, w);
    assert HeadersText(tag, [a], h) == HeaderPiece(tag, a, v);
    assert IsSortedWalk(keys, h);
  }

  lemma PieceInAValue(a: string, v: string, b: string, w: string)
    ensures HeaderPiece("~dh:", a, v + "~dh:" + b + "=" + w) == HeaderPiece("~dh:", a, v) + HeaderPiece("~dh:", b, w)
  {
    var t, m := "~dh:" + a + "=", "~dh:" + b + "=";
    assert v + "~dh:" + b + "=" + w == v + (m + w);
    assert t + (v + (m + w)) == t + v + (m + w);
  }

  /** A value that holds what looks like the next piece: one header with it, or two without. */
  lemma MarkInAValue(a: string, v: string, b: string, w: string) returns (text: string)
    requires StringLess(a, b)
    ensures IsHeadersText(text, "~dh:", map[a := [v + "~dh:" + b + "=" + w]])
    ensures IsHeadersText(text, "~dh:", map[a := [v], b := [w]])
    ensures a != b
  {
    Trichotomy(a, b);
    hide *;
    text := HeaderPiece("~dh:", a, v) + HeaderPiece("~dh:", b, w);
    var value := v + "~dh:" + b + "=" + w;
    OneKeyText("~dh:", a, [value]);
    OneValueText("~dh:", a, value);
    PieceInAValue(a, v, b, w);
    TwoKeysText("~dh:", a, v, b, w);
  }

  lemma KeyOrValue(tag: string, a: string, x: string, v: string)
    ensures HeaderPiece(tag, a + "=" + x, v) == HeaderPiece(tag, a, x + "=" + v)
  {
    var t := tag + a + "=";
    assert tag + (a + "=" + x) + "=" + v == t + x + "=" + v == t + (x + "=" + v);
  }

  /** A `=` may end the key or belong to it. */
  lemma EqualsInAKey(tag: string, a: string, x: string, v: string) returns (text: string)
    ensures IsHeadersText(text, tag, map[a + "=" + x := [v]]) && IsHeadersText(text, tag, map[a := [x + "=" + v]])
    ensures a + "=" + x != a
  {
    assert |a + "=" + x| != |a|;
    hide *;
    text := HeaderPiece(tag, a, x + "=" + v);
    OneKeyText(tag, a + "=" + x, [v]);
    OneValueText(tag, a + "=" + x, v);
    OneKeyText(tag, a, [x + "=" + v]);
    OneValueText(tag, a, x + "=" + v);
    KeyOrValue(tag, a, x, v);
  }

  /** A key without values leaves no trace. */
  lemma NoValuesNoTrace(tag: string, k: string)
    ensures IsHeadersText("", tag, map[]) && IsHeadersText("", tag, map[k := []])
  {
    var none: seq<string> := [];
    assert IsSortedWalk(none, map[]) && HeadersText(tag, none, map[]) == "";
    OneKeyText(tag, k, []);
  }

  /** A `,` may end a pin or belong to it. */
  lemma CommaInAPin(host: string, p: string, q: string) returns (text: string)
    ensures var x: Headers, y: Headers := map[host := [p + "," + q]], map[host := [p, q]];
            x != y && IsPinsText(text, x) && IsPinsText(text, y)
  {
    var one, two := [p + "," + q], [p, q];
    assert one[..0] == [];
    TwoPins(p, q);
    assert PinList(one) == p + "," + q + "," == PinList(two);
    text := "^cp:" + host + "=" + PinList(one);
    OneHostText(host, one);
    OneHostText(host, two);
    var x: Headers, y: Headers := map[host := one], map[host := two];
    assert |x[host]| != |y[host]|;
  }

  lemma OneHostText(host: string, pins: seq<string>)
    ensures IsPinsText("^cp:" + host + "=" + PinList(pins), map[host := pins])
  {
    var hosts, m: Headers := [host], map[host := pins];
    assert hosts[..0] == [] && PinsText([], m) == "";
    assert PinsText(hosts, m) == "^cp:" + host + "=" + PinList(pins);
    assert IsSortedWalk(hosts, m);
  }

  /** A `,` may end the first identifier of a suite or belong to it. */
  lemma CommaInASuite(k: string, x: string, a: string) returns (text: string)
    ensures Suite(k + "," + x, a) != Suite(k, x + "," + a)
    ensures IsSuitesText(text, [Suite(k + "," + x, a)]) && IsSuitesText(text, [Suite(k, x + "," + a)])
  {
    assert |k + "," + x| != |k|;
    text := "|echcs:" + k + "," + (x + "," + a);
    OneSuiteText(Suite(k + "," + x, a));
    OneSuiteText(Suite(k, x + "," + a));
    assert text == "|echcs:" + (k + "," + x) + "," + a;
  }

  lemma OneSuiteText(e: Suite)
    ensures IsSuitesText("|echcs:" + e.kdfId + "," + e.aeadId, [e])
  {
    assert [e][..0] == [] && SuitesText([]) == "";
    assert SuitesText([e]) == "|echcs:" + e.kdfId + "," + e.aeadId;
    assert SortsTo([e], [e], SuiteLess);
  }

  /** A configuration with nothing but default headers. */
  function Only(headers: Headers): Config {
    Config("", headers, map[], map[], "", [], [], [], [], "")
  }

  /** Two configurations that differ in a header and have one text, and so one pooled client. */
  lemma TwoConfigurationsOneText() returns (text: string)
    ensures var c, d := Only(map["a" := ["1~dh:b=2"]]), Only(map["a" := ["1"], "b" := ["2"]]);
            SameFrame(c, d) && !SameUpToOrder(c, d) && Clean(d) && IsText(text, c) && IsText(text, d)
  {
    var h: Headers, g: Headers := map["a" := ["1~dh:b=2"]], map["a" := ["1"], "b" := ["2"]];
    assert "1" + "~dh:" + "b" + "=" + "2" == "1~dh:b=2";
    assert StringLess("a", "b");
    assert "b" in g && "b" !in h;
    OnlyCleanHeaders(g);
    hide IsHeadersText, IsText, Clean;
    text := MarkInAValue("a", "1", "b", "2");
    OnlyHeadersText(text, h);
    OnlyHeadersText(text, g);
  }

  lemma OnlyCleanHeaders(h: Headers)
    requires CleanHeaders(h)
    ensures Clean(Only(h))
  {
  }

  lemma NoText()
    ensures IsHeadersText("", "~ch:", map[]) && IsPinsText("", map[])
    ensures IsSettingsText("", "|h2s:", []) && IsSettingsText("", "|h3s:", []) && IsSuitesText("", [])
  {
    var none: seq<string> := [];
    NoValuesNoTrace("~ch:", "");
    assert IsSortedWalk(none, map[]) && PinsText(none, map[]) == "";
    assert SortsTo<Setting>([], [], SettingLess) && SortsTo<Suite>([], [], SuiteLess);
    assert SettingsText("|h2s:", []) == "" && SettingsText("|h3s:", []) == "" && SuitesText([]) == "";
  }

  lemma OnlyHeadersText(text: string, h: Headers)
    requires IsHeadersText(text, "~dh:", h)
    ensures IsText(text, Only(h))
  {
    NoText();
    hide IsHeadersText, IsPinsText, IsSettingsText, IsSuitesText;
    var p := Parts(text, "", "", "", "", "");
    assert ArePartsOf(p, Only(h)) && text == Assembled(Only(h), p);
  }

  // A text, letter by letter

  lemma OneSettingText(tag: string, x: Setting)
    ensures IsSettingsText(SettingPiece(tag, x), tag, [x])
  {
    OneSetting(tag, x);
    assert SortsTo([x], [x], SettingLess);
  }

  lemma KnownLists()
    ensures IsSettingsText("|h2s:k=7", "|h2s:", [Setting("k", 7)])
    ensures IsSettingsText("|h3s:l=12", "|h3s:", [Setting("l", 12)])
    ensures PayloadsText([9]) == "|echp:9" && IsSuitesText("|echcs:x,y", [Suite("x", "y")])
  {
    assert Dec(7) == "7" && Dec(9) == "9" && Dec(12) == "12";
    assert "|h2s:" + "k" + "=" + "7" == "|h2s:k=7" && "|h3s:" + "l" + "=" + "12" == "|h3s:l=12";
    hide IsSettingsText, IsSuitesText;
    OneSettingText("|h2s:", Setting("k", 7));
    OneSettingText("|h3s:", Setting("l", 12));
    assert [9 as nat][..0] == [] && PayloadsText([]) == "";
    OneSuiteText(Suite("x", "y"));
    assert "|echcs:" + "x" + "," + "y" == "|echcs:x,y";
  }

  lemma KnownMaps()
    ensures IsHeadersText("~dh:a=1~dh:b=2", "~dh:", map["b" := ["2"], "a" := ["1"]])
    ensures IsHeadersText("~ch:c=3", "~ch:", map["c" := ["3"]]) && IsPinsText("^cp:h=p,q,", map["h" := ["p", "q"]])
  {
    assert StringLess("a", "b");
    assert HeaderPiece("~dh:", "a", "1") + HeaderPiece("~dh:", "b", "2") == "~dh:a=1~dh:b=2";
    assert HeaderPiece("~ch:", "c", "3") == "~ch:c=3" && "^cp:" + "h" + "=" + ("p" + "," + "q" + ",") == "^cp:h=p,q,";
    hide *;
    SameTwoKeys();
    TwoKeysText("~dh:", "a", "1", "b", "2");
    OneKeyText("~ch:", "c", ["3"]);
    OneValueText("~ch:", "c", "3");
    TwoPins("p", "q");
    OneHostText("h", ["p", "q"]);
  }

  lemma SameTwoKeys()
    ensures map["b" := ["2"], "a" := ["1"]] == map["a" := ["1"], "b" := ["2"]]
  {
  }

  lemma TwoPins(p: string, q: string)
    ensures PinList([p, q]) == p + "," + q + ","
  {
    assert [p, q][..1] == [p] && [p][..0] == [];
    assert PinList([p]) == p + ",";
  }

  lemma KnownFront()
    ensures "f" + "~dh:a=1~dh:b=2" + "~ch:c=3" + "^cp:h=p,q," == "f~dh:a=1~dh:b=2~ch:c=3^cp:h=p,q,"
  {
    assert "f" + "~dh:a=1~dh:b=2" == "f~dh:a=1~dh:b=2";
    assert "f~dh:a=1~dh:b=2" + "~ch:c=3" == "f~dh:a=1~dh:b=2~ch:c=3";
  }

  lemma KnownBack()
    ensures "|m" + "|h2s:k=7" + "|h3s:l=12" + "|echp:9" + "|echcs:x,y" + "|e"
            == "|m|h2s:k=7|h3s:l=12|echp:9|echcs:x,y|e"
  {
    assert "|m" + "|h2s:k=7" == "|m|h2s:k=7";
    assert "|m|h2s:k=7" + "|h3s:l=12" == "|m|h2s:k=7|h3s:l=12";
    assert "|m|h2s:k=7|h3s:l=12" + "|echp:9" == "|m|h2s:k=7|h3s:l=12|echp:9";
    assert "|m|h2s:k=7|h3s:l=12|echp:9" + "|echcs:x,y" == "|m|h2s:k=7|h3s:l=12|echp:9|echcs:x,y";
  }

  lemma FiveMore(front: string, a: string, b: string, c: string, d: string, e: string, f: string)
    ensures front + a + b + c + d + e + f == front + (a + b + c + d + e + f)
  {
  }

  /** A configuration with something in every sorted part. */
  function Known(): Config {
    Config("f", map["b" := ["2"], "a" := ["1"]], map["c" := ["3"]], map["h" := ["p", "q"]], "|m",
           [Setting("k", 7)], [Setting("l", 12)], [9], [Suite("x", "y")], "|e")
  }

  /** Its text, and no other. */
  lemma KnownText(text: string)
    ensures IsText(text, Known())
            <==> text == "f~dh:a=1~dh:b=2~ch:c=3^cp:h=p,q," + "|m|h2s:k=7|h3s:l=12|echp:9|echcs:x,y|e"
  {
    var cfg := Known();
    assert NoConflict(cfg.h2Settings) && NoConflict(cfg.h3Settings);
    hide IsHeadersText, IsPinsText, IsSettingsText, IsSuitesText, PayloadsText, NoConflict;
    KnownLists();
    KnownMaps();
    var p := Parts("~dh:a=1~dh:b=2", "~ch:c=3", "^cp:h=p,q,", "|h2s:k=7", "|h3s:l=12", "|echcs:x,y");
    assert ArePartsOf(p, cfg);
    KnownFront();
    KnownBack();
    FiveMore("f~dh:a=1~dh:b=2~ch:c=3^cp:h=p,q,", "|m", p.h2, p.h3, "|echp:9", p.suites, "|e");
    assert IsText(Assembled(cfg, p), cfg);
    if IsText(text, cfg) {
      TextIgnoresOrder(text, Assembled(cfg, p), cfg, cfg);
    }
  }
}
