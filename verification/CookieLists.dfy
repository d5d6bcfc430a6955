/** Lists of cookies, and the finite map from names to cookies that such a list stands for. */
module CookieLists {
  import opened Seqs

  datatype Name = Name(text: string)

  datatype Cookie = Cookie(name: Name, value: string, maxAge: int)

  type Cookies = seq<Cookie>

  type Named = map<Name, Cookie>

  function Names(cs: Cookies): set<Name> {
    set c <- cs :: c.name
  }

  ghost predicate DistinctNames(cs: Cookies) {
    forall i, j | 0 <= i < j < |cs| :: cs[i].name != cs[j].name
  }

  /** The last cookie of a name counts. */
  function AsMap(cs: Cookies): Named {
    if cs == [] then map[] else map[cs[0].name := cs[0]] + AsMap(cs[1..])
  }

  lemma MapsAssociate<K, V>(a: map<K, V>, b: map<K, V>, c: map<K, V>)
    ensures a + b + c == a + (b + c)
  {
  }

  lemma MinusPut<K, V>(m: map<K, V>, k: K, v: V, ks: set<K>)
    ensures m[k := v] - ks == if k in ks then m - ks else (m - ks)[k := v]
  {
  }

  lemma PutUnder<K, V>(m: map<K, V>, k: K, v: V)
    ensures map[k := v] + m == if k in m then m else m[k := v]
  {
  }

  lemma PlusRest<K, V>(a: map<K, V>, b: map<K, V>)
    ensures a + (b - a.Keys) == b + a == (b - a.Keys) + a
  {
  }

  lemma {:induction false} AsMapAppend(a: Cookies, b: Cookies)
    ensures AsMap(a + b) == AsMap(a) + AsMap(b)
  {
    if a == [] {
      assert a + b == b;
    } else {
      assert (a + b)[1..] == a[1..] + b && (a + b)[0] == a[0];
      AsMapAppend(a[1..], b);
      MapsAssociate(map[a[0].name := a[0]], AsMap(a[1..]), AsMap(b));
    }
  }

  lemma AsMapSnoc(a: Cookies, c: Cookie)
    ensures AsMap(a + [c]) == AsMap(a)[c.name := c]
  {
    AsMapAppend(a, [c]);
    AsMapOne(c);
    hide AsMap;
  }

  lemma AsMapOne(c: Cookie)
    ensures AsMap([c]) == map[c.name := c]
  {
    assert [c][1..] == [];
    assert AsMap([c]) == map[c.name := c] + AsMap([]);
  }

  lemma NamesSnoc(a: Cookies, c: Cookie)
    ensures Names(a + [c]) == Names(a) + {c.name}
  {
    assert forall d <- a :: d in a + [c];
    assert c in a + [c];
  }

  lemma {:induction false} KeysAreNames(cs: Cookies)
    ensures AsMap(cs).Keys == Names(cs)
    decreases |cs|
  {
    if cs != [] {
      var front, c := cs[..|cs| - 1], cs[|cs| - 1];
      assert cs == front + [c];
      KeysAreNames(front);
      AsMapSnoc(front, c);
      NamesSnoc(front, c);
      hide AsMap, Names;
    }
  }

  /** Where names are distinct, the map holds every cookie of the list. */
  lemma {:induction false} EveryCookieIsInTheMap(cs: Cookies)
    requires DistinctNames(cs)
    ensures HoldsAll(AsMap(cs), cs)
  {
    if cs != [] {
      FirstIsPut(cs);
      hide AsMap, DistinctNames, HoldsAll;
      EveryCookieIsInTheMap(cs[1..]);
      PutHoldsAll(AsMap(cs[1..]), cs[1..], cs[0]);
      assert cs == [cs[0]] + cs[1..];
    }
  }

  /** The map and the list have the same cookies, each under its own name. */
  ghost predicate HoldsAll(m: Named, cs: Cookies) {
    && (forall c <- cs :: c.name in m && m[c.name] == c)
    && forall n <- m :: m[n] in cs && m[n].name == n
  }

  lemma PutHoldsAll(m: Named, cs: Cookies, c: Cookie)
    requires HoldsAll(m, cs) && c.name !in m
    ensures HoldsAll(m[c.name := c], [c] + cs)
  {
    assert c in [c] + cs;
    forall d <- [c] + cs ensures d.name in m[c.name := c] && m[c.name := c][d.name] == d {
      assert d == c || d in cs;
    }
  }

  lemma FirstIsPut(cs: Cookies)
    requires DistinctNames(cs) && cs != []
    ensures DistinctNames(cs[1..]) && cs[0].name !in AsMap(cs[1..])
    ensures AsMap(cs) == AsMap(cs[1..])[cs[0].name := cs[0]]
  {
    KeysAreNames(cs[1..]);
  }

  // The filters

  function Outside(cs: Cookies, names: set<Name>): (r: Cookies)
    ensures forall c <- r :: c in cs && c.name !in names
  {
    if cs == [] then []
    else
      var front, c := Outside(cs[..|cs| - 1], names), cs[|cs| - 1];
      if c.name in names then front else front + [c]
  }

  function NonEmpty(cs: Cookies, allowEmpty: bool): (r: Cookies)
    ensures forall c <- r :: c in cs
  {
    if cs == [] then []
    else
      var front, c := NonEmpty(cs[..|cs| - 1], allowEmpty), cs[|cs| - 1];
      if c.value == "" && !allowEmpty then front else front + [c]
  }

  function NotExpired(cs: Cookies): (r: Cookies)
    ensures forall c <- r :: c in cs && c.maxAge >= 0
  {
    if cs == [] then []
    else
      var front, c := NotExpired(cs[..|cs| - 1]), cs[|cs| - 1];
      if c.maxAge < 0 then front else front + [c]
  }

  /** What each filter keeps, in the order of the list. */
  lemma {:induction false} FiltersKeep(cs: Cookies, names: set<Name>, allowEmpty: bool)
    ensures Outside(cs, names) == Keeping(cs, (c: Cookie) => c.name !in names)
    ensures NonEmpty(cs, allowEmpty) == Keeping(cs, (c: Cookie) => c.value != "" || allowEmpty)
    ensures NotExpired(cs) == Keeping(cs, (c: Cookie) => c.maxAge >= 0)
    decreases |cs|
  {
    if cs != [] {
      FiltersKeep(cs[..|cs| - 1], names, allowEmpty);
    }
  }

  /** The last occurrence of every name, the last of all first. */
  function Unique(cs: Cookies): (r: Cookies)
    ensures forall c <- r :: c in cs
  {
    if cs == [] then []
    else
      var rest := Unique(cs[1..]);
      if cs[0].name in Names(rest) then rest else rest + [cs[0]]
  }

  lemma {:induction false} UniqueMeansTheSame(cs: Cookies)
    ensures AsMap(Unique(cs)) == AsMap(cs) && DistinctNames(Unique(cs))
  {
    if cs != [] {
      var c, rest := cs[0], Unique(cs[1..]);
      UniqueMeansTheSame(cs[1..]);
      KeysAreNames(rest);
      AsMapSnoc(rest, c);
      DistinctSnoc(rest, c);
      PutUnder(AsMap(rest), c.name, c);
      assert AsMap(cs) == map[c.name := c] + AsMap(rest);
      hide AsMap, Names, DistinctNames;
    }
  }

  /** The last cookie of its name. */
  ghost predicate IsLast(cs: Cookies, i: nat) {
    i < |cs| && cs[i].name !in Names(cs[i + 1..])
  }

  /** `d` stands before `c`. */
  ghost predicate Before(list: Cookies, d: Cookie, c: Cookie) {
    exists k, l | 0 <= k < l < |list| :: list[k] == d && list[l] == c
  }

  /** The last cookie of every name and no other, the last of all first. */
  ghost predicate LastFirst(cs: Cookies, list: Cookies) {
    && DistinctNames(list)
    && (forall c <- list :: exists i | 0 <= i < |cs| :: IsLast(cs, i) && cs[i] == c)
    && (forall i | 0 <= i < |cs| :: IsLast(cs, i) ==> cs[i] in list)
    && forall i, j | 0 <= i < j < |cs| :: IsLast(cs, i) && IsLast(cs, j) ==> Before(list, cs[j], cs[i])
  }

  lemma LastShifts(cs: Cookies, i: nat)
    requires cs != [] && i + 1 < |cs|
    ensures IsLast(cs, i + 1) <==> IsLast(cs[1..], i)
  {
    assert cs[1..][i + 1..] == cs[i + 2..];
    hide Names;
  }

  lemma {:induction false} LastStays(cs: Cookies, i: nat)
    requires IsLast(cs, i)
    ensures cs[i] in Unique(cs)
  {
    UniqueMeansTheSame(cs[1..]);
    KeysAreNames(cs[1..]);
    KeysAreNames(Unique(cs[1..]));
    if i > 0 {
      LastShifts(cs, i - 1);
      LastStays(cs[1..], i - 1);
    }
    hide AsMap, DistinctNames;
  }

  lemma UniqueStep(cs: Cookies)
    requires cs != []
    ensures var rest := Unique(cs[1..]); Unique(cs) == if IsLast(cs, 0) then rest + [cs[0]] else rest
  {
    UniqueMeansTheSame(cs[1..]);
    KeysAreNames(cs[1..]);
    KeysAreNames(Unique(cs[1..]));
    hide AsMap, Names, DistinctNames;
  }

  lemma BeforeMore(list: Cookies, d: Cookie, c: Cookie, more: Cookie)
    ensures Before(list, d, c) ==> Before(list + [more], d, c)
    ensures d in list ==> Before(list + [more], d, more)
  {
    if Before(list, d, c) {
      var k, l :| 0 <= k < l < |list| && list[k] == d && list[l] == c;
      assert (list + [more])[k] == d && (list + [more])[l] == c;
    }
    if d in list {
      var k :| 0 <= k < |list| && list[k] == d;
      assert (list + [more])[k] == d && (list + [more])[|list|] == more;
    }
  }

  lemma {:induction false} LaterComesFirst(cs: Cookies, i: nat, j: nat)
    requires i < j < |cs| && IsLast(cs, i) && IsLast(cs, j)
    ensures Before(Unique(cs), cs[j], cs[i])
  {
    hide Before, Unique, IsLast;
    var rest := Unique(cs[1..]);
    UniqueStep(cs);
    LastShifts(cs, j - 1);
    BeforeMore(rest, cs[j], cs[i], cs[0]);
    if i > 0 {
      LastShifts(cs, i - 1);
      LaterComesFirst(cs[1..], i - 1, j - 1);
    } else {
      LastStays(cs[1..], j - 1);
    }
  }

  lemma {:induction false} OnlyTheLast(cs: Cookies, c: Cookie) returns (i: nat)
    requires c in Unique(cs)
    ensures IsLast(cs, i) && cs[i] == c
  {
    var rest := Unique(cs[1..]);
    if c in rest {
      i := OnlyTheLast(cs[1..], c);
      LastShifts(cs, i);
      i := i + 1;
    } else {
      UniqueMeansTheSame(cs[1..]);
      KeysAreNames(cs[1..]);
      KeysAreNames(rest);
      i := 0;
    }
  }

  /** The list without repeated names. */
  lemma UniqueIsLastFirst(cs: Cookies)
    ensures LastFirst(cs, Unique(cs))
  {
    UniqueMeansTheSame(cs);
    hide Unique, IsLast, Before, DistinctNames;
    forall c <- Unique(cs) ensures exists i | 0 <= i < |cs| :: IsLast(cs, i) && cs[i] == c {
      var i := OnlyTheLast(cs, c);
      IsLastBound(cs, i);
    }
    forall i | 0 <= i < |cs| ensures IsLast(cs, i) ==> cs[i] in Unique(cs) {
      if IsLast(cs, i) { LastStays(cs, i); }
    }
    forall i, j | 0 <= i < j < |cs| ensures IsLast(cs, i) && IsLast(cs, j) ==> Before(Unique(cs), cs[j], cs[i]) {
      if IsLast(cs, i) && IsLast(cs, j) { LaterComesFirst(cs, i, j); }
    }
  }

  lemma IsLastBound(cs: Cookies, i: nat)
    requires IsLast(cs, i)
    ensures i < |cs|
  {
  }

  lemma DistinctSnoc(cs: Cookies, c: Cookie)
    requires DistinctNames(cs)
    ensures c.name !in Names(cs) ==> DistinctNames(cs + [c])
  {
  }

  lemma DistinctFront(cs: Cookies, c: Cookie)
    requires DistinctNames(cs + [c])
    ensures DistinctNames(cs) && c.name !in Names(cs)
  {
    assert (cs + [c])[..|cs|] == cs;
    forall d | d in cs ensures d.name != c.name {
      var i :| 0 <= i < |cs| && cs[i] == d;
      assert (cs + [c])[i] == d && (cs + [c])[|cs|] == c;
    }
    forall i, j | 0 <= i < j < |cs| ensures cs[i].name != cs[j].name {
      assert (cs + [c])[i].name != (cs + [c])[j].name;
    }
  }

  lemma {:induction false} OutsideMeans(cs: Cookies, names: set<Name>)
    ensures AsMap(Outside(cs, names)) == AsMap(cs) - names
    decreases |cs|
  {
    if cs != [] {
      var front, c := cs[..|cs| - 1], cs[|cs| - 1];
      OutsideMeans(front, names);
      assert cs == front + [c];
      AsMapSnoc(front, c);
      AsMapSnoc(Outside(front, names), c);
      MinusPut(AsMap(front), c.name, c, names);
    }
  }

  lemma {:induction false} OutsideIsDistinct(cs: Cookies, names: set<Name>)
    requires DistinctNames(cs)
    ensures DistinctNames(Outside(cs, names)) && Names(Outside(cs, names)) <= Names(cs)
    decreases |cs|
  {
    if cs != [] {
      var front, c := cs[..|cs| - 1], cs[|cs| - 1];
      assert cs == front + [c];
      DistinctFront(front, c);
      OutsideIsDistinct(front, names);
      DistinctSnoc(Outside(front, names), c);
    }
  }

  function Living(m: Named): Named {
    map n | n in m && m[n].maxAge >= 0 :: m[n]
  }

  lemma LivingPut(m: Named, c: Cookie)
    requires c.name !in m
    ensures Living(m[c.name := c]) == if c.maxAge < 0 then Living(m) else Living(m)[c.name := c]
  {
  }

  lemma {:induction false} NotExpiredMeans(cs: Cookies)
    requires DistinctNames(cs)
    ensures DistinctNames(NotExpired(cs))
    ensures AsMap(NotExpired(cs)) == Living(AsMap(cs))
    decreases |cs|
  {
    if cs != [] {
      var front, c := cs[..|cs| - 1], cs[|cs| - 1];
      assert cs == front + [c];
      DistinctFront(front, c);
      NotExpiredMeans(front);
      KeysAreNames(front);
      KeysAreNames(NotExpired(front));
      AsMapSnoc(front, c);
      AsMapSnoc(NotExpired(front), c);
      DistinctSnoc(NotExpired(front), c);
      LivingPut(AsMap(front), c);
      hide AsMap, Names, DistinctNames, Living;
    }
  }

  lemma {:induction false} NonEmptyAppend(a: Cookies, b: Cookies, allowEmpty: bool)
    ensures NonEmpty(a + b, allowEmpty) == NonEmpty(a, allowEmpty) + NonEmpty(b, allowEmpty)
    decreases |b|
  {
    if b == [] {
      assert a + b == a;
    } else {
      assert (a + b)[..|a + b| - 1] == a + b[..|b| - 1];
      NonEmptyAppend(a, b[..|b| - 1], allowEmpty);
    }
  }
}
