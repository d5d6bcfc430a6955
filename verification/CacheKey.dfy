/** buildCacheKeyFromConfig: the text that is hashed, as far as it is built from maps and from lists whose
    order does not matter. */
module CacheKey {
  import opened Decimal
  import opened Seqs
  import opened SortedForm
  import opened StringOrder

  type Headers = map<string, seq<string>>

  datatype Setting = Setting(key: string, value: nat)

  datatype Suite = Suite(kdfId: string, aeadId: string)

  /** The text before, between and behind the sorted parts does not depend on any order and is carried
      along. */
  datatype Config = Config(
    front: string,
    defaultHeaders: Headers,
    connectHeaders: Headers,
    certificatePinningHosts: Headers,
    middle: string,
    h2Settings: seq<Setting>,
    h3Settings: seq<Setting>,
    echPayloads: seq<nat>,
    echSuites: seq<Suite>,
    back: string)

  // The orders

  predicate SettingLess(a: Setting, b: Setting) {
    StringLess(a.key, b.key)
  }

  predicate SuiteLess(a: Suite, b: Suite) {
    if a.kdfId != b.kdfId then StringLess(a.kdfId, b.kdfId) else StringLess(a.aeadId, b.aeadId)
  }

  lemma SettingLessIsLess()
    ensures IsLess(SettingLess)
  {
    StringLessIsLess();
  }

  lemma SuiteLessIsLess()
    ensures IsLess(SuiteLess) && forall s: seq<Suite> :: Decides(SuiteLess, s)
  {
    forall x, y ensures !(SuiteLess(x, y) && SuiteLess(y, x)) && (x == y || SuiteLess(x, y) || SuiteLess(y, x)) {
      Trichotomy(x.kdfId, y.kdfId);
      Trichotomy(x.aeadId, y.aeadId);
    }
    forall x, y, z | !SuiteLess(x, y) && !SuiteLess(y, z) ensures !SuiteLess(x, z) {
      Trichotomy(x.kdfId, y.kdfId);
      Trichotomy(y.kdfId, z.kdfId);
      Trichotomy(x.kdfId, z.kdfId);
      Transitive(x.kdfId, y.kdfId, z.kdfId);
      if x.kdfId == y.kdfId == z.kdfId {
        Transitive(x.aeadId, y.aeadId, z.aeadId);
      }
    }
  }

  // The pieces

  function HeaderPiece(tag: string, key: string, value: string): string {
    tag + key + "=" + value
  }

  function ValuesText(tag: string, key: string, values: seq<string>): string {
    if values == [] then ""
    else ValuesText(tag, key, values[..|values| - 1]) + HeaderPiece(tag, key, values[|values| - 1])
  }

  function HeadersText(tag: string, keys: seq<string>, headers: Headers): string
    requires forall k <- keys :: k in headers
  {
    if keys == [] then ""
    else
      var k := keys[|keys| - 1];
      HeadersText(tag, keys[..|keys| - 1], headers) + ValuesText(tag, k, headers[k])
  }

  function PinList(pins: seq<string>): string {
    if pins == [] then "" else PinList(pins[..|pins| - 1]) + pins[|pins| - 1] + ","
  }

  function PinsText(hosts: seq<string>, pins: Headers): string
    requires forall h <- hosts :: h in pins
  {
    if hosts == [] then ""
    else
      var h := hosts[|hosts| - 1];
      PinsText(hosts[..|hosts| - 1], pins) + ("^cp:" + h + "=" + PinList(pins[h]))
  }

  function SettingPiece(tag: string, s: Setting): string {
    tag + s.key + "=" + Dec(s.value)
  }

  function SettingsText(tag: string, settings: seq<Setting>): string {
    if settings == [] then ""
    else SettingsText(tag, settings[..|settings| - 1]) + SettingPiece(tag, settings[|settings| - 1])
  }

  function PayloadsText(payloads: seq<nat>): string {
    if payloads == [] then "" else PayloadsText(payloads[..|payloads| - 1]) + ("|echp:" + Dec(payloads[|payloads| - 1]))
  }

  function SuitesText(suites: seq<Suite>): string {
    if suites == [] then ""
    else
      var e := suites[|suites| - 1];
      SuitesText(suites[..|suites| - 1]) + ("|echcs:" + e.kdfId + "," + e.aeadId)
  }

  // The code

  ghost predicate IsSortedWalk(keys: seq<string>, headers: Headers)
    ensures IsSortedWalk(keys, headers) ==> forall k <- keys :: k in headers
  {
    IsWalk(keys, headers) && Sorted(keys, StringLess)
  }

  ghost predicate IsHeadersText(text: string, tag: string, headers: Headers) {
    exists keys :: IsSortedWalk(keys, headers) && text == HeadersText(tag, keys, headers)
  }

  ghost predicate IsPinsText(text: string, pins: Headers) {
    exists hosts :: IsSortedWalk(hosts, pins) && text == PinsText(hosts, pins)
  }

  ghost predicate IsSettingsText(text: string, tag: string, settings: seq<Setting>) {
    exists sorted :: SortsTo(settings, sorted, SettingLess) && text == SettingsText(tag, sorted)
  }

  ghost predicate IsSuitesText(text: string, suites: seq<Suite>) {
    exists sorted :: SortsTo(suites, sorted, SuiteLess) && text == SuitesText(sorted)
  }

  lemma SortedWalk(order: seq<string>, keys: seq<string>, headers: Headers)
    requires IsWalk(order, headers) && multiset(order) == multiset(keys)
    ensures IsWalk(keys, headers) && forall k <- keys :: k in headers
  {
    SameMembers(order, keys);
    PermutationIsDistinct(order, keys);
  }

  method WriteValues(text: string, tag: string, key: string, values: seq<string>) returns (longer: string)
    ensures longer == text + ValuesText(tag, key, values)
  {
    longer := text;
    for j := 0 to |values|
      invariant longer == text + ValuesText(tag, key, values[..j])
    {
      assert values[..j + 1][..j] == values[..j];
      Associates(text, ValuesText(tag, key, values[..j]), HeaderPiece(tag, key, values[j]));
      longer := longer + HeaderPiece(tag, key, values[j]);
    }
    assert values[..|values|] == values;
  }

  method WriteHeaders(tag: string, headers: Headers, order: seq<string>) returns (text: string)
    requires IsWalk(order, headers)
    ensures IsHeadersText(text, tag, headers)
  {
    StringLessIsLess();
    hide StringLess, Sorted, IsWalk, IsLess, Decides, ValuesText;
    var sortedKeys := Sort(order, StringLess);
    SortedWalk(order, sortedKeys, headers);
    text := "";
    for i := 0 to |sortedKeys|
      invariant forall k <- sortedKeys[..i] :: k in headers
      invariant text == HeadersText(tag, sortedKeys[..i], headers)
    {
      var key := sortedKeys[i];
      assert sortedKeys[..i + 1][..i] == sortedKeys[..i];
      text := WriteValues(text, tag, key, headers[key]);
    }
    assert sortedKeys[..|sortedKeys|] == sortedKeys;
  }

  method WritePinsOf(text: string, host: string, pins: seq<string>) returns (longer: string)
    ensures longer == text + ("^cp:" + host + "=" + PinList(pins))
  {
    longer := text + ("^cp:" + host + "=");
    for j := 0 to |pins|
      invariant longer == text + ("^cp:" + host + "=" + PinList(pins[..j]))
    {
      assert pins[..j + 1][..j] == pins[..j];
      PinAdded(text, "^cp:" + host + "=", PinList(pins[..j]), pins[j]);
      longer := longer + (pins[j] + ",");
    }
    assert pins[..|pins|] == pins;
  }

  method WritePins(pins: Headers, order: seq<string>) returns (text: string)
    requires IsWalk(order, pins)
    ensures IsPinsText(text, pins)
  {
    StringLessIsLess();
    var sortedHosts := Sort(order, StringLess);
    SortedWalk(order, sortedHosts, pins);
    text := "";
    for i := 0 to |sortedHosts|
      invariant forall h <- sortedHosts[..i] :: h in pins
      invariant text == PinsText(sortedHosts[..i], pins)
    {
      var host := sortedHosts[i];
      assert sortedHosts[..i + 1][..i] == sortedHosts[..i];
      text := WritePinsOf(text, host, pins[host]);
    }
    assert sortedHosts[..|sortedHosts|] == sortedHosts;
  }

  lemma PinAdded(before: string, tag: string, list: string, pin: string)
    ensures before + (tag + list) + (pin + ",") == before + (tag + (list + pin + ","))
  {
  }

  method WriteSettings(tag: string, settings: seq<Setting>) returns (text: string)
    ensures IsSettingsText(text, tag, settings)
  {
    SettingLessIsLess();
    var pairs := Sort(settings, SettingLess);
    text := "";
    for i := 0 to |pairs|
      invariant text == SettingsText(tag, pairs[..i])
    {
      assert pairs[..i + 1][..i] == pairs[..i];
      text := text + SettingPiece(tag, pairs[i]);
    }
    assert pairs[..|pairs|] == pairs;
  }

  method WriteSuites(suites: seq<Suite>) returns (text: string)
    ensures IsSuitesText(text, suites)
  {
    SuiteLessIsLess();
    var entries := Sort(suites, SuiteLess);
    text := "";
    for i := 0 to |entries|
      invariant text == SuitesText(entries[..i])
    {
      assert entries[..i + 1][..i] == entries[..i];
      text := text + ("|echcs:" + entries[i].kdfId + "," + entries[i].aeadId);
    }
    assert entries[..|entries|] == entries;
  }

  // What the text depends on

  /** One map, one text. */
  lemma HeadersTextIsUnique(a: string, b: string, tag: string, headers: Headers)
    requires IsHeadersText(a, tag, headers) && IsHeadersText(b, tag, headers)
    ensures a == b
  {
    var x :| IsSortedWalk(x, headers) && a == HeadersText(tag, x, headers);
    var y :| IsSortedWalk(y, headers) && b == HeadersText(tag, y, headers);
    SortedWalksAgree(x, y, headers);
  }

  lemma PinsTextIsUnique(a: string, b: string, pins: Headers)
    requires IsPinsText(a, pins) && IsPinsText(b, pins)
    ensures a == b
  {
    var x :| IsSortedWalk(x, pins) && a == PinsText(x, pins);
    var y :| IsSortedWalk(y, pins) && b == PinsText(y, pins);
    SortedWalksAgree(x, y, pins);
  }

  lemma SortedWalksAgree(x: seq<string>, y: seq<string>, headers: Headers)
    requires IsSortedWalk(x, headers) && IsSortedWalk(y, headers)
    ensures x == y
  {
    hide StringLess, IsWalk, Sorted, Decides;
    WalksPermute(x, y, headers);
    StringsDecide(x);
    OneSortedForm(x, y, StringLess);
  }

  lemma StringsDecide(x: seq<string>)
    ensures Decides(StringLess, x)
  {
    StringLessIsLess();
  }

  lemma WalksPermute(x: seq<string>, y: seq<string>, headers: Headers)
    requires IsWalk(x, headers) && IsWalk(y, headers)
    ensures multiset(x) == multiset(y)
  {
    assert forall k :: k in x <==> k in y;
    SameElements(x, y);
  }

  lemma SuitesTextIsUnique(a: string, b: string, s: seq<Suite>, t: seq<Suite>)
    requires multiset(s) == multiset(t) && IsSuitesText(a, s) && IsSuitesText(b, t)
    ensures a == b
  {
    SuiteLessIsLess();
    var x :| SortsTo(s, x, SuiteLess) && a == SuitesText(x);
    var y :| SortsTo(t, y, SuiteLess) && b == SuitesText(y);
    OneSortedForm(x, y, SuiteLess);
  }

  /** No name has two values. */
  ghost predicate NoConflict(settings: seq<Setting>) {
    forall x, y | x in settings && y in settings && x.key == y.key :: x.value == y.value
  }

  lemma NoConflictDecides(settings: seq<Setting>)
    requires NoConflict(settings)
    ensures Decides(SettingLess, settings)
  {
    forall x, y | x in settings && y in settings && !SettingLess(x, y) && !SettingLess(y, x) ensures x == y {
      Trichotomy(x.key, y.key);
    }
  }

  lemma SettingsTextIsUnique(a: string, b: string, tag: string, s: seq<Setting>, t: seq<Setting>)
    requires multiset(s) == multiset(t) && NoConflict(s) && IsSettingsText(a, tag, s) && IsSettingsText(b, tag, t)
    ensures a == b
  {
    var x :| SortsTo(s, x, SettingLess) && a == SettingsText(tag, x);
    var y :| SortsTo(t, y, SettingLess) && b == SettingsText(tag, y);
    SameMembers(s, x);
    NoConflictDecides(x);
    OneSortedForm(x, y, SettingLess);
  }

  // Settings with two values for one name

  lemma {:induction false} SettingsTextAppend(tag: string, a: seq<Setting>, b: seq<Setting>)
    ensures SettingsText(tag, a + b) == SettingsText(tag, a) + SettingsText(tag, b)
    decreases |b|
  {
    if b == [] {
      assert a + b == a;
    } else {
      var front, last := b[..|b| - 1], b[|b| - 1];
      assert (a + b)[..|a + b| - 1] == a + front && (a + b)[|a + b| - 1] == last;
      SettingsTextAppend(tag, a, front);
      Associates(SettingsText(tag, a), SettingsText(tag, front), SettingPiece(tag, last));
    }
  }

  lemma PiecesDoNotCommute(tag: string, x: Setting, y: Setting)
    requires tag in {"|h2s:", "|h3s:"} && x.key == y.key && |Dec(x.value)| <= |Dec(y.value)|
    requires SettingPiece(tag, x) + SettingPiece(tag, y) == SettingPiece(tag, y) + SettingPiece(tag, x)
    ensures x == y
  {
    var c, u, v := tag + x.key + "=", Dec(x.value), Dec(y.value);
    ValueOfDec(x.value);
    ValueOfDec(y.value);
    if |u| < |v| {
      OtherLength(c, u, v);
    } else {
      EqualLength(c, u, v);
    }
  }

  lemma EqualLength(c: string, u: string, v: string)
    requires |u| == |v| && (c + u) + (c + v) == (c + v) + (c + u)
    ensures u == v
  {
    assert u == ((c + u) + (c + v))[|c|..|c| + |u|];
    assert v == ((c + v) + (c + u))[|c|..|c| + |u|];
  }

  lemma OtherLength(c: string, u: string, v: string)
    requires c != "" && c[0] == '|' && |u| < |v| && forall d <- v :: IsDigit(d)
    ensures (c + u) + (c + v) != (c + v) + (c + u)
  {
    var l, r := (c + u) + (c + v), (c + v) + (c + u);
    assert l[|c| + |u|] == c[0] && r[|c| + |u|] == v[|u|] && v[|u|] in v;
  }

  lemma NeighboursDoNotCommute(tag: string, before: seq<Setting>, x: Setting, y: Setting, rest: seq<Setting>)
    requires tag in {"|h2s:", "|h3s:"} && x.key == y.key && x != y
    ensures SettingsText(tag, before + [x, y] + rest) != SettingsText(tag, before + [y, x] + rest)
  {
    TwoInTheMiddle(tag, before, x, y, rest);
    TwoInTheMiddle(tag, before, y, x, rest);
    var p, q := SettingPiece(tag, x), SettingPiece(tag, y);
    var a, b := SettingsText(tag, before), SettingsText(tag, rest);
    hide SettingsText, SettingPiece;
    if a + (p + q) + b == a + (q + p) + b {
      Cancel(a, p + q, q + p, b);
      if |Dec(x.value)| <= |Dec(y.value)| {
        PiecesDoNotCommute(tag, x, y);
      } else {
        PiecesDoNotCommute(tag, y, x);
      }
    }
  }

  lemma Cancel(a: string, p: string, q: string, b: string)
    requires a + p + b == a + q + b && |p| == |q|
    ensures p == q
  {
    assert p == (a + p + b)[|a|..|a| + |p|] && q == (a + q + b)[|a|..|a| + |q|];
  }

  lemma TwoInTheMiddle(tag: string, before: seq<Setting>, x: Setting, y: Setting, rest: seq<Setting>)
    ensures SettingsText(tag, before + [x, y] + rest)
              == SettingsText(tag, before) + (SettingPiece(tag, x) + SettingPiece(tag, y)) + SettingsText(tag, rest)
  {
    SettingsTextAppend(tag, before + [x, y], rest);
    SettingsTextAppend(tag, before, [x, y]);
    assert [x, y] == [x] + [y];
    SettingsTextAppend(tag, [x], [y]);
    OneSetting(tag, x);
    OneSetting(tag, y);
    hide SettingsText, SettingPiece;
  }

  lemma OneSetting(tag: string, x: Setting)
    ensures SettingsText(tag, [x]) == SettingPiece(tag, x)
  {
    assert [x][..0] == [] && SettingsText(tag, []) == "";
  }

  /** Somewhere between two different elements, two neighbours differ. */
  lemma {:induction false} NeighboursDiffer(s: seq<Setting>, i: nat, j: nat) returns (m: nat)
    requires i < j < |s| && s[i] != s[j]
    ensures i <= m < j && s[m] != s[m + 1]
    decreases j - i
  {
    if s[i] != s[i + 1] {
      m := i;
    } else {
      m := NeighboursDiffer(s, i + 1, j);
    }
  }

  lemma ConflictIn(settings: seq<Setting>) returns (i: nat, j: nat)
    requires !NoConflict(settings)
    ensures i < j < |settings| && settings[i].key == settings[j].key && settings[i] != settings[j]
  {
    var x, y :| x in settings && y in settings && x.key == y.key && x.value != y.value;
    i :| 0 <= i < |settings| && settings[i] == x;
    j :| 0 <= j < |settings| && settings[j] == y;
    if j < i { i, j := j, i; }
  }

  /** A conflict puts two different settings of one name side by side. */
  lemma ConflictingNeighbours(sorted: seq<Setting>) returns (m: nat)
    requires Sorted(sorted, SettingLess) && !NoConflict(sorted)
    ensures m + 1 < |sorted| && sorted[m] != sorted[m + 1] && sorted[m].key == sorted[m + 1].key
  {
    var lo, hi := ConflictIn(sorted);
    hide Sorted, NoConflict;
    m := NeighboursDiffer(sorted, lo, hi);
    BetweenEquals(sorted, lo, m, hi);
    BetweenEquals(sorted, lo, m + 1, hi);
  }

  lemma BetweenEquals(sorted: seq<Setting>, lo: nat, m: nat, hi: nat)
    requires Sorted(sorted, SettingLess) && lo <= m <= hi < |sorted| && sorted[lo].key == sorted[hi].key
    ensures sorted[m].key == sorted[lo].key
  {
    Trichotomy(sorted[lo].key, sorted[m].key);
    if lo < m < hi {
      assert !SettingLess(sorted[m], sorted[lo]) && !SettingLess(sorted[hi], sorted[m]);
    }
  }

  /** The text of the settings is determined exactly when no name has two values: a sort that is not
      stable may write conflicting settings in either order. */
  lemma SettingsTextDetermined(tag: string, settings: seq<Setting>)
    requires tag in {"|h2s:", "|h3s:"}
    ensures (forall a, b | IsSettingsText(a, tag, settings) && IsSettingsText(b, tag, settings) :: a == b)
            <==> NoConflict(settings)
  {
    if NoConflict(settings) {
      forall a, b | IsSettingsText(a, tag, settings) && IsSettingsText(b, tag, settings) ensures a == b {
        SettingsTextIsUnique(a, b, tag, settings, settings);
      }
    } else {
      var a, b := TwoTexts(tag, settings);
    }
  }

  lemma TwoTexts(tag: string, settings: seq<Setting>) returns (a: string, b: string)
    requires tag in {"|h2s:", "|h3s:"} && !NoConflict(settings)
    ensures IsSettingsText(a, tag, settings) && IsSettingsText(b, tag, settings) && a != b
  {
    hide SettingsText, Sorted, NoConflict;
    var sorted := ASortedForm(settings);
    var before, x, y, rest := Conflict(sorted);
    var other := before + [y, x] + rest;
    SwapStaysSorted(before, x, y, rest);
    NeighboursDoNotCommute(tag, before, x, y, rest);
    a, b := SettingsText(tag, sorted), SettingsText(tag, other);
  }

  lemma Conflict(sorted: seq<Setting>) returns (before: seq<Setting>, x: Setting, y: Setting, rest: seq<Setting>)
    requires Sorted(sorted, SettingLess) && !NoConflict(sorted)
    ensures sorted == before + [x, y] + rest && x != y && x.key == y.key
  {
    var m := ConflictingNeighbours(sorted);
    before, x, y, rest := sorted[..m], sorted[m], sorted[m + 1], sorted[m + 2..];
  }

  lemma ASortedForm(settings: seq<Setting>) returns (sorted: seq<Setting>)
    requires !NoConflict(settings)
    ensures SortsTo(settings, sorted, SettingLess) && !NoConflict(sorted)
  {
    SettingLessIsLess();
    sorted := SortedFormExists(settings, SettingLess);
    SameMembers(settings, sorted);
  }

  lemma SwapStaysSorted(before: seq<Setting>, x: Setting, y: Setting, rest: seq<Setting>)
    requires Sorted(before + [x, y] + rest, SettingLess) && x.key == y.key
    ensures Sorted(before + [y, x] + rest, SettingLess)
    ensures multiset(before + [x, y] + rest) == multiset(before + [y, x] + rest)
  {
    var s, t := before + [x, y] + rest, before + [y, x] + rest;
    forall i, j | 0 <= i < j < |t| ensures !SettingLess(t[j], t[i]) {
      Trichotomy(x.key, x.key);
      assert t[i].key == s[i].key && t[j].key == s[j].key;
      assert !SettingLess(s[j], s[i]);
    }
  }

  // The whole text

  /** What the sorted parts write. */
  datatype Parts = Parts(dh: string, ch: string, cp: string, h2: string, h3: string, suites: string)

  ghost predicate ArePartsOf(p: Parts, cfg: Config) {
    && IsHeadersText(p.dh, "~dh:", cfg.defaultHeaders)
    && IsHeadersText(p.ch, "~ch:", cfg.connectHeaders)
    && IsPinsText(p.cp, cfg.certificatePinningHosts)
    && IsSettingsText(p.h2, "|h2s:", cfg.h2Settings)
    && IsSettingsText(p.h3, "|h3s:", cfg.h3Settings)
    && IsSuitesText(p.suites, cfg.echSuites)
  }

  function Assembled(cfg: Config, p: Parts): string {
    cfg.front + p.dh + p.ch + p.cp + cfg.middle + p.h2 + p.h3 + PayloadsText(cfg.echPayloads) + p.suites + cfg.back
  }

  ghost predicate IsText(text: string, cfg: Config) {
    exists p :: ArePartsOf(p, cfg) && text == Assembled(cfg, p)
  }

  method WritePayloads(payloads: seq<nat>) returns (text: string)
    ensures text == PayloadsText(payloads)
  {
    text := "";
    for i := 0 to |payloads|
      invariant text == PayloadsText(payloads[..i])
    {
      assert payloads[..i + 1][..i] == payloads[..i];
      text := text + ("|echp:" + Dec(payloads[i]));
    }
    assert payloads[..|payloads|] == payloads;
  }

  method BuildText(cfg: Config, dhOrder: seq<string>, chOrder: seq<string>, cpOrder: seq<string>) returns (text: string)
    requires IsWalk(dhOrder, cfg.defaultHeaders) && IsWalk(chOrder, cfg.connectHeaders)
    requires IsWalk(cpOrder, cfg.certificatePinningHosts)
    ensures IsText(text, cfg)
  {
    hide IsWalk, IsHeadersText, IsPinsText, IsSettingsText, IsSuitesText;
    var dh := WriteHeaders("~dh:", cfg.defaultHeaders, dhOrder);
    var ch := WriteHeaders("~ch:", cfg.connectHeaders, chOrder);
    var cp := WritePins(cfg.certificatePinningHosts, cpOrder);
    var h2 := WriteSettings("|h2s:", cfg.h2Settings);
    var h3 := WriteSettings("|h3s:", cfg.h3Settings);
    var payloads := WritePayloads(cfg.echPayloads);
    var suites := WriteSuites(cfg.echSuites);
    text := cfg.front + dh + ch + cp + cfg.middle + h2 + h3 + payloads + suites + cfg.back;
    var parts := Parts(dh, ch, cp, h2, h3, suites);
    assert ArePartsOf(parts, cfg) && text == Assembled(cfg, parts);
  }

  /** The same settings and suites in another order; the maps have no order to begin with. */
  ghost predicate SameUpToOrder(c: Config, d: Config) {
    && c == d.(h2Settings := c.h2Settings, h3Settings := c.h3Settings, echSuites := c.echSuites)
    && multiset(c.h2Settings) == multiset(d.h2Settings) && multiset(c.h3Settings) == multiset(d.h3Settings)
    && multiset(c.echSuites) == multiset(d.echSuites)
  }

  /** One configuration, one text: however the maps are walked, whatever order the settings and suites
      came in, and whatever the sort does with equal elements. */
  lemma TextIgnoresOrder(a: string, b: string, c: Config, d: Config)
    requires SameUpToOrder(c, d) && NoConflict(c.h2Settings) && NoConflict(c.h3Settings)
    requires IsText(a, c) && IsText(b, d)
    ensures a == b
  {
    var p :| ArePartsOf(p, c) && a == Assembled(c, p);
    var q :| ArePartsOf(q, d) && b == Assembled(d, q);
    hide IsText, IsHeadersText, IsPinsText, IsSettingsText, IsSuitesText, NoConflict;
    HeadersTextIsUnique(p.dh, q.dh, "~dh:", c.defaultHeaders);
    HeadersTextIsUnique(p.ch, q.ch, "~ch:", c.connectHeaders);
    PinsTextIsUnique(p.cp, q.cp, c.certificatePinningHosts);
    SettingsTextIsUnique(p.h2, q.h2, "|h2s:", c.h2Settings, d.h2Settings);
    SettingsTextIsUnique(p.h3, q.h3, "|h3s:", c.h3Settings, d.h3Settings);
    SuitesTextIsUnique(p.suites, q.suites, c.echSuites, d.echSuites);
  }
}
