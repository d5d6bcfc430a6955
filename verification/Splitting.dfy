/** strings.Split for a separator of one character, and what undoes it. */
module Splitting {
  predicate Lacks(part: string, sep: char) {
    sep !in part
  }

  function Split(s: string, sep: char): (parts: seq<string>)
    ensures |parts| >= 1
  {
    if s == "" then [""]
    else
      var rest := Split(s[1..], sep);
      if s[0] == sep then [""] + rest else [[s[0]] + rest[0]] + rest[1..]
  }

  function Join(parts: seq<string>, sep: char): string {
    if parts == [] then "" else if |parts| == 1 then parts[0] else parts[0] + [sep] + Join(parts[1..], sep)
  }

  lemma {:induction false} PartsLack(s: string, sep: char)
    ensures forall part <- Split(s, sep) :: Lacks(part, sep)
  {
    if s != "" {
      PartsLack(s[1..], sep);
      var rest := Split(s[1..], sep);
      assert Lacks(rest[0], sep) && forall part <- rest[1..] :: part in rest;
    }
  }

  lemma {:induction false} JoinSplit(s: string, sep: char)
    ensures Join(Split(s, sep), sep) == s
  {
    if s != "" {
      var rest := Split(s[1..], sep);
      JoinSplit(s[1..], sep);
      assert s == [s[0]] + s[1..];
      if s[0] == sep {
        assert ([""] + rest)[1..] == rest;
      } else if |rest| > 1 {
        var parts := [[s[0]] + rest[0]] + rest[1..];
        assert parts[1..] == rest[1..];
        assert Join(parts, sep) == [s[0]] + rest[0] + [sep] + Join(rest[1..], sep);
        assert Join(rest, sep) == rest[0] + [sep] + Join(rest[1..], sep);
      }
    }
  }

  lemma {:induction false} SplitOne(part: string, sep: char)
    requires Lacks(part, sep)
    ensures Split(part, sep) == [part]
  {
    if part != "" {
      assert forall c <- part[1..] :: c in part;
      SplitOne(part[1..], sep);
      assert part == [part[0]] + part[1..];
      assert part[0] in part;
    }
  }

  lemma {:induction false} SplitAt(part: string, sep: char, rest: string)
    requires Lacks(part, sep)
    ensures Split(part + [sep] + rest, sep) == [part] + Split(rest, sep)
  {
    var s := part + [sep] + rest;
    if part == "" {
      assert s[1..] == rest;
    } else {
      assert part[0] in part && forall c <- part[1..] :: c in part;
      assert s[1..] == part[1..] + [sep] + rest;
      SplitAt(part[1..], sep, rest);
      assert part == [part[0]] + part[1..];
    }
  }

  lemma {:induction false} SplitJoin(parts: seq<string>, sep: char)
    requires parts != [] && forall part <- parts :: Lacks(part, sep)
    ensures Split(Join(parts, sep), sep) == parts
  {
    assert parts[0] in parts;
    if |parts| == 1 {
      SplitOne(parts[0], sep);
    } else {
      assert forall part <- parts[1..] :: part in parts;
      SplitJoin(parts[1..], sep);
      SplitAt(parts[0], sep, Join(parts[1..], sep));
      assert parts == [parts[0]] + parts[1..];
    }
  }
}
