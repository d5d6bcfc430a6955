/** Texts made of pieces, each behind a mark and with a tag, and how to take them apart again. */
module Pieces {
  import opened Seqs
  import opened Splitting

  /** Every piece behind its mark. */
  function Marked(mark: char, tails: seq<string>): string {
    if tails == [] then "" else [mark] + tails[0] + Marked(mark, tails[1..])
  }

  ghost predicate AllLack(tails: seq<string>, c: char) {
    forall tail <- tails :: Lacks(tail, c)
  }

  predicate Begins(s: string, c: char) {
    s == "" || s[0] == c
  }

  /** The first `c` ends what lacks it. */
  lemma CutAt(a: string, r: string, b: string, t: string, c: char)
    requires a + r == b + t && Lacks(a, c) && Lacks(b, c) && Begins(r, c) && Begins(t, c)
    ensures a == b && r == t
  {
    var s := a + r;
    assert forall i | 0 <= i < |a| :: s[i] == a[i] && a[i] in a;
    assert forall i | 0 <= i < |b| :: s[i] == (b + t)[i] == b[i] && b[i] in b;
    assert r != "" ==> s[|a|] == r[0];
    assert t != "" ==> s[|b|] == (b + t)[|b|] == t[0];
    assert |a| == |b|;
    assert a == s[..|a|] && b == s[..|b|] && r == s[|a|..] && t == s[|b|..];
  }

  predicate EndsWith(s: string, c: char) {
    s == "" || s[|s| - 1] == c
  }

  /** What lacks `c` begins behind the last `c`. */
  lemma CutBehind(a: string, r: string, b: string, t: string, c: char)
    requires a + r == b + t && Lacks(r, c) && Lacks(t, c) && EndsWith(a, c) && EndsWith(b, c)
    ensures a == b && r == t
  {
    var s := a + r;
    assert forall i | |a| <= i < |s| :: s[i] == r[i - |a|] && r[i - |a|] in r;
    assert forall i | |b| <= i < |s| :: s[i] == (b + t)[i] == t[i - |b|] && t[i - |b|] in t;
    assert a != "" ==> s[|a| - 1] == a[|a| - 1];
    assert b != "" ==> s[|b| - 1] == (b + t)[|b| - 1] == b[|b| - 1];
    assert |a| == |b|;
    assert a == s[..|a|] && b == s[..|b|] && r == s[|a|..] && t == s[|b|..];
  }

  lemma {:induction false} MarkedAppend(mark: char, a: seq<string>, b: seq<string>)
    ensures Marked(mark, a + b) == Marked(mark, a) + Marked(mark, b)
  {
    if a == [] {
      assert a + b == b;
    } else {
      assert (a + b)[1..] == a[1..] + b && (a + b)[0] == a[0];
      MarkedAppend(mark, a[1..], b);
      Associates([mark] + a[0], Marked(mark, a[1..]), Marked(mark, b));
    }
  }

  lemma MarkedSnoc(mark: char, a: seq<string>, tail: string)
    ensures Marked(mark, a + [tail]) == Marked(mark, a) + ([mark] + tail)
  {
    MarkedAppend(mark, a, [tail]);
    assert Marked(mark, [tail]) == [mark] + tail + Marked(mark, []);
  }

  lemma {:induction false} MarkedLacks(mark: char, tails: seq<string>, c: char)
    requires mark != c && AllLack(tails, c)
    ensures Lacks(Marked(mark, tails), c)
  {
    if tails != [] {
      assert tails[0] in tails && forall tail <- tails[1..] :: tail in tails;
      MarkedLacks(mark, tails[1..], c);
    }
  }

  /** A text has one list of pieces. */
  lemma {:induction false} OneListOfPieces(mark: char, a: seq<string>, b: seq<string>)
    requires AllLack(a, mark) && AllLack(b, mark) && Marked(mark, a) == Marked(mark, b)
    ensures a == b
  {
    if a != [] && b != [] {
      FirstPiece(mark, a, b);
      assert forall tail <- a[1..] :: tail in a;
      assert forall tail <- b[1..] :: tail in b;
      OneListOfPieces(mark, a[1..], b[1..]);
      assert a == [a[0]] + a[1..] && b == [b[0]] + b[1..];
    }
  }

  lemma FirstPiece(mark: char, a: seq<string>, b: seq<string>)
    requires a != [] && b != [] && AllLack(a, mark) && AllLack(b, mark) && Marked(mark, a) == Marked(mark, b)
    ensures a[0] == b[0] && Marked(mark, a[1..]) == Marked(mark, b[1..])
  {
    var r, t := Marked(mark, a[1..]), Marked(mark, b[1..]);
    assert Marked(mark, a)[1..] == a[0] + r && Marked(mark, b)[1..] == b[0] + t;
    assert Begins(r, mark) && Begins(t, mark);
    assert a[0] in a && b[0] in b;
    hide Marked, AllLack;
    CutAt(a[0], r, b[0], t, mark);
  }

  /** Two groups of pieces, told apart by a tag. */
  lemma GroupsAgree(a: seq<string>, r: seq<string>, b: seq<string>, t: seq<string>, tag: string)
    requires a + r == b + t
    requires AllTagged(a, tag) && AllTagged(b, tag) && NoneTagged(r, tag) && NoneTagged(t, tag)
    ensures a == b && r == t
  {
    var s := a + r;
    assert forall i | 0 <= i < |a| :: s[i] == a[i];
    assert forall i | 0 <= i < |b| :: s[i] == (b + t)[i] == b[i];
    assert r != [] ==> s[|a|] == r[0];
    assert t != [] ==> s[|b|] == (b + t)[|b|] == t[0];
    assert |a| == |b|;
    assert a == s[..|a|] && b == s[..|b|] && r == s[|a|..] && t == s[|b|..];
  }

  ghost predicate AllTagged(tails: seq<string>, tag: string) {
    forall i | 0 <= i < |tails| :: tag <= tails[i]
  }

  ghost predicate NoneTagged(tails: seq<string>, tag: string) {
    forall i | 0 <= i < |tails| :: !(tag <= tails[i])
  }

  lemma NoneTaggedAppend(a: seq<string>, b: seq<string>, tag: string)
    requires NoneTagged(a, tag) && NoneTagged(b, tag)
    ensures NoneTagged(a + b, tag)
  {
  }

  /** Tags that differ somewhere are not both there. */
  lemma OtherTag(tails: seq<string>, tag: string, other: string, at: nat)
    requires AllTagged(tails, tag) && at < |tag| && at < |other| && tag[at] != other[at]
    ensures NoneTagged(tails, other)
  {
    forall i | 0 <= i < |tails| ensures !(other <= tails[i]) {
      assert tag <= tails[i] && tails[i][at] == tag[at];
    }
  }
}
