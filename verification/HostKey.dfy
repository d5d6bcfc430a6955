/** buildCookieHostKey: which hosts share their cookies. */
module HostKey {
  import opened Splitting

  const DOT := '.'

  /** The key: the last two of two or three parts, and otherwise the host. */
  function Key(host: string): string {
    var parts := Split(host, DOT);
    if |parts| in {2, 3} then parts[|parts| - 2] + [DOT] + parts[|parts| - 1] else host
  }

  predicate IsShort(host: string) {
    |Split(host, DOT)| in {2, 3}
  }

  function LastTwo(host: string): (parts: (string, string))
    requires IsShort(host)
  {
    var parts := Split(host, DOT);
    (parts[|parts| - 2], parts[|parts| - 1])
  }

  lemma KeyOfShort(host: string)
    requires IsShort(host)
    ensures Split(Key(host), DOT) == [LastTwo(host).0, LastTwo(host).1]
  {
    var (a, b) := LastTwo(host);
    PartsLack(host, DOT);
    SplitAt(a, DOT, b);
    SplitOne(b, DOT);
  }

  /** The key of a host with two or three parts is its last two, and any other host is its own key. */
  lemma KeyOfParts(parts: seq<string>)
    requires parts != [] && forall part <- parts :: '.' !in part
    ensures Key(Join(parts, '.')) ==
              if |parts| == 2 then parts[0] + "." + parts[1]
              else if |parts| == 3 then parts[1] + "." + parts[2]
              else Join(parts, '.')
  {
    SplitJoin(parts, '.');
    hide Join, Split;
  }

  /** Two hosts share their cookies exactly when they are the same, or when both have two or three parts
      and the last two of them agree. */
  lemma SameKey(a: string, b: string)
    ensures Key(a) == Key(b) <==> a == b || (IsShort(a) && IsShort(b) && LastTwo(a) == LastTwo(b))
  {
    if IsShort(a) { KeyOfShort(a); }
    if IsShort(b) { KeyOfShort(b); }
  }

  /** The key of a host is its own key. */
  lemma KeyIsStable(host: string)
    ensures Key(Key(host)) == Key(host)
  {
    if IsShort(host) {
      KeyOfShort(host);
    }
  }
}
