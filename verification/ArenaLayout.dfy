/** Where packResponseArena puts the strings of a response, and what a C reader finds there. */
module ArenaLayout {
  import opened Bytes
  import opened Seqs

  type Str = seq<Byte>

  datatype Pair = Pair(key: Str, value: Str)

  // The layout

  function Cell(p: Pair): seq<Byte> {
    p.key + [0] + p.value + [0]
  }

  function Layout(ps: seq<Pair>): seq<Byte> {
    if ps == [] then [] else Cell(ps[0]) + Layout(ps[1..])
  }

  lemma {:induction false} LayoutAppend(a: seq<Pair>, b: seq<Pair>)
    ensures Layout(a + b) == Layout(a) + Layout(b)
  {
    if a == [] {
      assert a + b == b;
    } else {
      hide Cell;
      LayoutAppend(a[1..], b);
      assert (a + b)[1..] == a[1..] + b && (a + b)[0] == a[0];
      Associates(Cell(a[0]), Layout(a[1..]), Layout(b));
    }
  }

  lemma LayoutSnoc(a: seq<Pair>, p: Pair)
    ensures Layout(a + [p]) == Layout(a) + Cell(p)
  {
    LayoutAppend(a, [p]);
    assert Layout([p]) == Cell(p) + Layout([]);
  }

  /** Where the `i`-th pair starts. */
  function Offset(ps: seq<Pair>, i: nat): nat
    requires i <= |ps|
  {
    |Layout(ps[..i])|
  }

  lemma CellAt(ps: seq<Pair>, i: nat)
    requires i < |ps|
    ensures Offset(ps, i + 1) == Offset(ps, i) + |Cell(ps[i])| <= |Layout(ps)|
    ensures Layout(ps)[Offset(ps, i)..Offset(ps, i + 1)] == Cell(ps[i])
  {
    assert ps[..i + 1] == ps[..i] + [ps[i]] && ps == ps[..i + 1] + ps[i + 1..];
    LayoutSnoc(ps[..i], ps[i]);
    LayoutAppend(ps[..i + 1], ps[i + 1..]);
  }

  lemma {:induction false} OffsetsGrow(ps: seq<Pair>, i: nat, j: nat)
    requires i <= j <= |ps|
    ensures Offset(ps, i) <= Offset(ps, j) <= |Layout(ps)|
  {
    if i < j {
      OffsetsGrow(ps, i, j - 1);
      CellAt(ps, j - 1);
    } else if j < |ps| {
      CellAt(ps, j);
    } else {
      assert ps[..j] == ps;
    }
  }

  // Reading it back as C does

  /** The bytes from `at` to the first NUL. */
  function CString(memory: seq<Byte>, at: nat): Str
    decreases |memory| - at
  {
    if at >= |memory| || memory[at] == 0 then [] else [memory[at]] + CString(memory, at + 1)
  }

  /** What a C reader makes of a string that was written with a terminator. */
  function UpToNul(s: Str): Str {
    if s == [] || s[0] == 0 then [] else [s[0]] + UpToNul(s[1..])
  }

  lemma {:induction false} UpToNulIsWhole(s: Str)
    ensures UpToNul(s) == s <==> 0 !in s
  {
    if s != [] {
      UpToNulIsWhole(s[1..]);
      assert s == [s[0]] + s[1..];
    }
  }

  lemma {:induction false} ReadTerminated(memory: seq<Byte>, at: nat, s: Str)
    requires at + |s| < |memory| && memory[at..at + |s|] == s && memory[at + |s|] == 0
    ensures CString(memory, at) == UpToNul(s)
    decreases |s|
  {
    if s != [] {
      assert memory[at] == s[0];
      if s[0] != 0 {
        assert memory[at + 1..at + 1 + |s[1..]|] == s[1..];
        ReadTerminated(memory, at + 1, s[1..]);
      }
    }
  }

  ghost predicate ReadsAs(memory: seq<Byte>, at: nat, s: Str) {
    CString(memory, at) == UpToNul(s) && (CString(memory, at) == s <==> 0 !in s)
  }

  lemma Slice(memory: seq<Byte>, at: nat, cell: seq<Byte>, i: nat, part: seq<Byte>)
    requires at + |cell| <= |memory| && memory[at..at + |cell|] == cell
    requires i + |part| <= |cell| && cell[i..i + |part|] == part
    ensures memory[at + i..at + i + |part|] == part
  {
    forall k | 0 <= k < |part| ensures memory[at + i + k] == part[k] {
      assert memory[at..at + |cell|][i + k] == cell[i..i + |part|][k];
    }
  }

  lemma CellSlices(memory: seq<Byte>, at: nat, p: Pair)
    requires at + |Cell(p)| <= |memory| && memory[at..at + |Cell(p)|] == Cell(p)
    ensures var v := at + |p.key| + 1;
            && memory[at..at + |p.key|] == p.key && memory[at + |p.key|] == 0
            && memory[v..v + |p.value|] == p.value && memory[v + |p.value|] == 0
  {
    var cell, v := Cell(p), |p.key| + 1;
    assert cell[0..|p.key|] == p.key && cell[v..v + |p.value|] == p.value;
    Slice(memory, at, cell, 0, p.key);
    Slice(memory, at, cell, v, p.value);
    assert memory[at..at + |cell|][|p.key|] == 0 && memory[at..at + |cell|][v + |p.value|] == 0;
  }

  lemma ReadString(memory: seq<Byte>, at: nat, s: Str)
    requires at + |s| < |memory| && memory[at..at + |s|] == s && memory[at + |s|] == 0
    ensures ReadsAs(memory, at, s)
  {
    ReadTerminated(memory, at, s);
    UpToNulIsWhole(s);
  }

  lemma ReadCell(memory: seq<Byte>, at: nat, p: Pair)
    requires at + |Cell(p)| <= |memory| && memory[at..at + |Cell(p)|] == Cell(p)
    ensures ReadsAs(memory, at, p.key) && ReadsAs(memory, at + |p.key| + 1, p.value)
  {
    CellSlices(memory, at, p);
    assert |Cell(p)| == |p.key| + 1 + |p.value| + 1;
    hide Cell, ReadsAs;
    ReadString(memory, at, p.key);
    ReadString(memory, at + |p.key| + 1, p.value);
  }

  /** C reads key and value of every pair back, and reads them whole exactly when they hold no NUL. */
  lemma ReadsBack(ps: seq<Pair>, i: nat)
    requires i < |ps|
    ensures ReadsAs(Layout(ps), Offset(ps, i), ps[i].key)
    ensures ReadsAs(Layout(ps), Offset(ps, i) + |ps[i].key| + 1, ps[i].value)
  {
    hide *;
    CellAt(ps, i);
    ReadCell(Layout(ps), Offset(ps, i), ps[i]);
  }

  /** The strings lie one after the other without a gap: the first starts the arena, each pair starts where
      the one before it ends, and the last ends with the arena. */
  lemma PairsAreAdjacent(ps: seq<Pair>, i: nat)
    requires i < |ps|
    ensures Offset(ps, 0) == 0
    ensures var end := Offset(ps, i) + |ps[i].key| + 1 + |ps[i].value| + 1;
            end == if i + 1 < |ps| then Offset(ps, i + 1) else |Layout(ps)|
    ensures Offset(ps, i) <= |Layout(ps)| && ps[i].key + [0] + ps[i].value + [0] <= Layout(ps)[Offset(ps, i)..]
  {
    CellAt(ps, i);
    assert ps[..|ps|] == ps;
    var at, next := Offset(ps, i), Offset(ps, i + 1);
    assert Layout(ps)[at..next] == Layout(ps)[at..][..next - at];
  }

  /** None overlaps another. */
  lemma StringsAreDisjoint(ps: seq<Pair>, i: nat, j: nat)
    requires i < j < |ps|
    ensures Offset(ps, i) + |ps[i].key| + 1 + |ps[i].value| + 1 <= Offset(ps, j)
    ensures Offset(ps, j) + |ps[j].key| + 1 + |ps[j].value| + 1 <= |Layout(ps)|
    ensures j + 1 == |ps| ==> Offset(ps, j) + |Cell(ps[j])| == |Layout(ps)|
  {
    CellAt(ps, i);
    CellAt(ps, j);
    OffsetsGrow(ps, i + 1, j);
    assert ps[..|ps|] == ps;
  }

  // Walking a header map

  type Headers = map<Str, seq<Str>>

  function PairsOf(key: Str, values: seq<Str>): (ps: seq<Pair>)
    ensures |ps| == |values| && forall i | 0 <= i < |ps| :: ps[i] == Pair(key, values[i])
  {
    seq(|values|, i requires 0 <= i < |values| => Pair(key, values[i]))
  }

  function Walk(order: seq<Str>, headers: Headers): seq<Pair>
    requires forall k <- order :: k in headers
  {
    if order == [] then [] else PairsOf(order[0], headers[order[0]]) + Walk(order[1..], headers)
  }

  lemma {:induction false} WalkAppend(a: seq<Str>, b: seq<Str>, headers: Headers)
    requires forall k <- a + b :: k in headers
    ensures (forall k <- a :: k in headers) && (forall k <- b :: k in headers)
    ensures Walk(a + b, headers) == Walk(a, headers) + Walk(b, headers)
  {
    assert forall k <- a :: k in a + b;
    assert forall k <- b :: k in a + b;
    if a == [] {
      assert a + b == b;
    } else {
      assert (a + b)[1..] == a[1..] + b;
      WalkAppend(a[1..], b, headers);
    }
  }

  lemma WalkWithout(b: seq<Str>, i: nat, headers: Headers)
    requires i < |b| && forall k <- b :: k in headers
    ensures forall k <- Without(b, i) :: k in headers
    ensures multiset(Walk(b, headers)) ==
              multiset(PairsOf(b[i], headers[b[i]])) + multiset(Walk(Without(b, i), headers))
  {
    var front, back := b[..i], b[i + 1..];
    assert b == front + ([b[i]] + back);
    WalkAppend(front, [b[i]] + back, headers);
    WalkAppend([b[i]], back, headers);
    WalkAppend(front, back, headers);
    assert Walk([b[i]], headers) == PairsOf(b[i], headers[b[i]]) + Walk([], headers);
  }

  /** However the two passes walk the map, they meet the same pairs. */
  lemma {:induction false} WalksAgree(a: seq<Str>, b: seq<Str>, headers: Headers)
    requires Distinct(a) && Distinct(b) && (forall k :: k in a <==> k in b) && (forall k <- b :: k in headers)
    ensures forall k <- a :: k in headers
    ensures multiset(Walk(a, headers)) == multiset(Walk(b, headers))
    decreases |a|
  {
    assert b == [] || b[0] in a;
    if a != [] {
      assert a[0] in b;
      var i :| 0 <= i < |b| && b[i] == a[0];
      WithoutDistinct(b, i);
      WithoutDistinct(a, 0);
      assert Without(a, 0) == a[1..];
      WalkWithout(b, i, headers);
      WalksAgree(a[1..], Without(b, i), headers);
    }
  }

  /** Under every key a walk has all its values, in their order, and nothing under any other. */
  lemma {:induction false} WalkHasEveryValue(order: seq<Str>, headers: Headers, key: Str)
    requires Distinct(order) && forall k <- order :: k in headers
    ensures var mine := Keeping(Walk(order, headers), (p: Pair) => p.key == key);
            if key in order then
              |mine| == |headers[key]| && forall j | 0 <= j < |mine| :: mine[j] == Pair(key, headers[key][j])
            else mine == []
  {
    if order != [] {
      var first, rest := order[0], order[1..];
      assert order == [first] + rest;
      WalkHasEveryValue(rest, headers, key);
      KeepingAppend(PairsOf(first, headers[first]), Walk(rest, headers), (p: Pair) => p.key == key);
      KeptOfOne(first, headers[first], key);
      hide Keeping, PairsOf;
    }
  }

  lemma {:induction false} KeptOfOne(first: Str, values: seq<Str>, key: Str)
    ensures Keeping(PairsOf(first, values), (p: Pair) => p.key == key) ==
              if first == key then PairsOf(first, values) else []
    decreases |values|
  {
    if values != [] {
      assert PairsOf(first, values)[..|values| - 1] == PairsOf(first, values[..|values| - 1]);
      KeptOfOne(first, values[..|values| - 1], key);
      assert PairsOf(first, values) == PairsOf(first, values[..|values| - 1]) + [Pair(first, values[|values| - 1])];
    }
  }

  /** Keys come in the order of the walk. */
  lemma {:induction false} WalkKeepsOrder(order: seq<Str>, headers: Headers, i: nat, j: nat)
    requires (forall k <- order :: k in headers) && i < j < |Walk(order, headers)|
    ensures var w := Walk(order, headers);
            w[i].key in order && w[j].key in order &&
            exists a, b | 0 <= a <= b < |order| :: order[a] == w[i].key && order[b] == w[j].key
  {
    var w, here := Walk(order, headers), |headers[order[0]]|;
    if i >= here {
      WalkKeepsOrder(order[1..], headers, i - here, j - here);
      var a, b :| 0 <= a <= b < |order| - 1 && order[1..][a] == w[i].key && order[1..][b] == w[j].key;
      assert order[a + 1] == w[i].key && order[b + 1] == w[j].key;
    } else {
      KeysAreWalked(order, headers, j);
      var b :| 0 <= b < |order| && order[b] == w[j].key;
      assert order[0] == w[i].key;
    }
  }

  lemma {:induction false} KeysAreWalked(order: seq<Str>, headers: Headers, j: nat)
    requires (forall k <- order :: k in headers) && j < |Walk(order, headers)|
    ensures Walk(order, headers)[j].key in order
  {
    var here := |headers[order[0]]|;
    if j >= here {
      KeysAreWalked(order[1..], headers, j - here);
    }
  }

  lemma LayoutWithout(b: seq<Pair>, i: nat)
    requires i < |b|
    ensures |Layout(b)| == |Cell(b[i])| + |Layout(Without(b, i))|
    ensures multiset(Without(b, i)) == multiset(b) - multiset{b[i]}
  {
    WithoutElements(b, i);
    assert b == b[..i] + [b[i]] + b[i + 1..];
    LayoutAppend(b[..i] + [b[i]], b[i + 1..]);
    LayoutSnoc(b[..i], b[i]);
    LayoutAppend(b[..i], b[i + 1..]);
  }

  /** The size of the arena does not depend on the order of the pairs. */
  lemma {:induction false} LayoutSizeByMultiset(a: seq<Pair>, b: seq<Pair>)
    requires multiset(a) == multiset(b)
    ensures |a| == |b| && |Layout(a)| == |Layout(b)|
    decreases |a|
  {
    SameLength(a, b);
    if a != [] {
      hide Layout, Cell;
      var i := WhereIs(a[0], a, b);
      LayoutWithout(b, i);
      LayoutWithout(a, 0);
      LayoutSizeByMultiset(Without(a, 0), Without(b, i));
    }
  }
}
