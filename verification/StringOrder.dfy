/** Go's order on strings, and on pairs of strings. */
module StringOrder {
  import opened SortedForm

  predicate StringLess(s: string, t: string) {
    if t == "" then false
    else if s == "" then true
    else if s[0] != t[0] then s[0] < t[0]
    else StringLess(s[1..], t[1..])
  }

  lemma {:induction false} Trichotomy(s: string, t: string)
    ensures s == t || StringLess(s, t) || StringLess(t, s)
    ensures !(StringLess(s, t) && StringLess(t, s)) && !StringLess(s, s)
  {
    if s != "" && t != "" && s[0] == t[0] {
      Trichotomy(s[1..], t[1..]);
      assert s == [s[0]] + s[1..] && t == [t[0]] + t[1..];
    }
    if s != "" {
      Irreflexive(s);
    }
  }

  /** `s` and `t` agree up to `n`, where `s` ends or has the smaller byte. */
  predicate DecidedAt(s: string, t: string, n: nat) {
    n < |t| && n <= |s| && s[..n] == t[..n] && (n == |s| || s[n] < t[n])
  }

  lemma DecidedLater(s: string, t: string, n: nat)
    requires s != "" && t != "" && s[0] == t[0]
    ensures DecidedAt(s, t, n + 1) <==> DecidedAt(s[1..], t[1..], n)
  {
    if n + 1 <= |s| && n + 1 <= |t| {
      assert s[..n + 1] == [s[0]] + s[1..][..n] && t[..n + 1] == [t[0]] + t[1..][..n];
      assert s[1..][..n] == s[..n + 1][1..] && t[1..][..n] == t[..n + 1][1..];
    }
  }

  /** Byte by byte: the first difference decides, and a proper prefix comes first. */
  lemma {:induction false} LessMeans(s: string, t: string)
    ensures StringLess(s, t) <==> exists n: nat :: DecidedAt(s, t, n)
  {
    if s != "" && t != "" && s[0] == t[0] {
      LessMeans(s[1..], t[1..]);
      hide DecidedAt;
      if n: nat :| DecidedAt(s[1..], t[1..], n) {
        DecidedLater(s, t, n);
      }
      if n: nat :| DecidedAt(s, t, n) {
        NotAtOnce(s, t);
        DecidedLater(s, t, n - 1);
      }
    } else if t != "" {
      if s == "" || s[0] < t[0] { assert DecidedAt(s, t, 0); }
      if n: nat :| DecidedAt(s, t, n) {
        OnlyAtOnce(s, t, n);
      }
    }
  }

  lemma OnlyAtOnce(s: string, t: string, n: nat)
    requires DecidedAt(s, t, n)
    ensures n > 0 ==> s[0] == t[0]
  {
    if n > 0 { assert s[..n][0] == t[..n][0]; }
  }

  lemma NotAtOnce(s: string, t: string)
    requires s != "" && t != "" && s[0] == t[0]
    ensures !DecidedAt(s, t, 0)
  {
  }

  lemma {:induction false} Irreflexive(s: string)
    ensures !StringLess(s, s)
  {
    if s != "" { Irreflexive(s[1..]); }
  }

  lemma {:induction false} Transitive(s: string, t: string, u: string)
    requires !StringLess(s, t) && !StringLess(t, u)
    ensures !StringLess(s, u)
  {
    if u != "" && t != "" && s != "" && s[0] == t[0] == u[0] {
      Transitive(s[1..], t[1..], u[1..]);
    }
  }

  lemma StringLessIsLess()
    ensures IsLess(StringLess)
    ensures forall s: seq<string> :: Decides(StringLess, s)
  {
    forall x, y ensures !(StringLess(x, y) && StringLess(y, x)) && (x == y || StringLess(x, y) || StringLess(y, x)) {
      Trichotomy(x, y);
    }
    forall x, y, z | !StringLess(x, y) && !StringLess(y, z) ensures !StringLess(x, z) {
      Transitive(x, y, z);
    }
  }
}
