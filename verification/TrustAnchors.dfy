/** profiles/extension_data.go: the trust_anchors payload, split into records, shuffled and printed. */
module TrustAnchors {
  import opened Bytes
  import opened Seqs
  import opened Shuffle

  type Record = seq<Byte>

  datatype SplitResult = Records(records: seq<Record>) | ShortPayload | LengthMismatch | PastEnd

  /** An 8-bit length and the ID that follows it. */
  predicate IsRecord(r: Record) {
    |r| >= 1 && |r| - 1 == r[0]
  }

  lemma RecordMeans(r: Record)
    ensures IsRecord(r) <==> exists id: seq<Byte> :: |id| < 256 && r == [|id|] + id
  {
    if IsRecord(r) {
      assert r == [|r[1..]|] + r[1..];
    }
  }

  predicate AllRecords(records: seq<Record>) {
    forall i | 0 <= i < |records| :: IsRecord(records[i])
  }

  /** The payload of a list of records; the length field has 16 bits, whatever the list needs. */
  function Print(records: seq<Record>): seq<Byte> {
    Be16(|Flatten(records)|) + Flatten(records)
  }

  /** The length field has its high byte first, and the records follow end to end. */
  lemma PrintOnTheWire(records: seq<Record>)
    ensures var n := |Flatten(records)|;
            Print(records) == [n / 256 % 256, n % 256] + Flatten(records)
  {
  }

  ghost predicate SplitsTo(payload: seq<Byte>, result: SplitResult) {
    match result
    case ShortPayload => |payload| < 2
    case LengthMismatch => |payload| >= 2 && FromBe16(payload[0], payload[1]) != |payload| - 2
    case Records(records) =>
      && |payload| >= 2 && FromBe16(payload[0], payload[1]) == |payload| - 2
      && AllRecords(records) && payload[2..] == Flatten(records)
    case PastEnd =>
      && |payload| >= 2 && FromBe16(payload[0], payload[1]) == |payload| - 2
      && forall records: seq<Record> | AllRecords(records) :: payload[2..] != Flatten(records)
  }

  // Records are a prefix code

  /** A list that starts with a record is split there or nowhere. */
  lemma {:induction false} SplitsAtTheFirst(records: seq<Record>, first: Record, rest: seq<Byte>)
    requires AllRecords(records) && IsRecord(first) && Flatten(records) == first + rest
    ensures records != [] && records[0] == first && Flatten(records[1..]) == rest
  {
    var head, tail := records[0], Flatten(records[1..]);
    assert (head + tail)[0] == head[0] && (first + rest)[0] == first[0];
    assert head == (head + tail)[..|head|] && first == (first + rest)[..|first|];
    assert tail == (head + tail)[|head|..] && rest == (first + rest)[|first|..];
  }

  lemma {:induction false} SplitsOneWay(done: seq<Record>, records: seq<Record>, rest: seq<Byte>)
    requires AllRecords(done) && AllRecords(records) && Flatten(records) == Flatten(done) + rest
    ensures |done| <= |records| && records[..|done|] == done && Flatten(records[|done|..]) == rest
    decreases |done|
  {
    if done == [] {
      assert records[0..] == records && [] + rest == rest;
    } else {
      Associates(done[0], Flatten(done[1..]), rest);
      SplitsAtTheFirst(records, done[0], Flatten(done[1..]) + rest);
      SplitsOneWay(done[1..], records[1..], rest);
      assert records[1..][|done| - 1..] == records[|done|..];
      assert records[..|done|] == [records[0]] + records[1..][..|done| - 1];
    }
  }

  lemma TooShortForARecord(records: seq<Record>, rest: seq<Byte>)
    requires AllRecords(records) && 0 < |rest| <= rest[0]
    ensures Flatten(records) != rest
  {
    if records != [] {
      assert Flatten(records)[0] == records[0][0] && |Flatten(records)| >= |records[0]|;
    }
  }

  lemma PartialRecord(records: seq<Record>, done: seq<Record>, rest: seq<Byte>)
    requires AllRecords(done) && AllRecords(records) && 0 < |rest| <= rest[0]
    ensures Flatten(records) != Flatten(done) + rest
  {
    if Flatten(records) == Flatten(done) + rest {
      SplitsOneWay(done, records, rest);
      TooShortForARecord(records[|done|..], rest);
    }
  }

  // Parsing

  /** splitTrustAnchors, behind the hexadecimal text. */
  method SplitTrustAnchors(payload: seq<Byte>) returns (result: SplitResult)
    ensures SplitsTo(payload, result)
    ensures result.Records? ==> |result.records| <= |payload|
  {
    if |payload| < 2 {
      return ShortPayload;
    }
    var list := payload[2..];
    if FromBe16(payload[0], payload[1]) != |list| {
      return LengthMismatch;
    }
    var records: seq<Record> := [];
    var i := 0;
    while i < |list|
      invariant 0 <= i <= |list| && AllRecords(records) && |records| <= i
      invariant list[..i] == Flatten(records)
    {
      var end := i + 1 + list[i];
      if end > |list| {
        forall other: seq<Record> | AllRecords(other) ensures list != Flatten(other) {
          PartialRecord(other, records, list[i..]);
          assert list == list[..i] + list[i..];
        }
        return PastEnd;
      }
      FlattenSnoc(records, list[i..end]);
      assert list[..end] == list[..i] + list[i..end];
      records := records + [list[i..end]];
      i := end;
    }
    assert list[..i] == list;
    return Records(records);
  }

  /** Every payload is split in one way only. */
  lemma OneSplit(payload: seq<Byte>, a: SplitResult, b: SplitResult)
    requires SplitsTo(payload, a) && SplitsTo(payload, b)
    ensures a == b
  {
    if a.Records? && b.Records? {
      var x, y := a.records, b.records;
      assert Flatten(x) + [] == Flatten(x);
      SplitsOneWay(x, y, []);
      NothingLeft(y[|x|..]);
      assert y == y[..|x|] + y[|x|..];
    }
    if a.Records? { RecordsOrPastEnd(payload, a.records); }
    if b.Records? { RecordsOrPastEnd(payload, b.records); }
  }

  lemma RecordsOrPastEnd(payload: seq<Byte>, records: seq<Record>)
    requires AllRecords(records)
    ensures !(SplitsTo(payload, Records(records)) && SplitsTo(payload, PastEnd))
  {
  }

  lemma NothingLeft(records: seq<Record>)
    requires AllRecords(records)
    ensures Flatten(records) == [] ==> records == []
  {
    if records != [] {
      assert |Flatten(records)| == |records[0]| + |Flatten(records[1..])|;
    }
  }

  /** An accepted payload is its length field and its records, end to end. */
  lemma SplitThenPrint(payload: seq<Byte>, records: seq<Record>)
    requires SplitsTo(payload, Records(records))
    ensures Print(records) == payload && |Flatten(records)| < 65536
  {
    assert payload == payload[..2] + payload[2..];
    Be16Inverse(payload[0], payload[1]);
  }

  lemma PrintFields(records: seq<Record>)
    ensures var payload, n := Print(records), |Flatten(records)|;
            |payload| == 2 + n && payload[2..] == Flatten(records) && FromBe16(payload[0], payload[1]) == n % 65536
  {
    var payload, n := Print(records), |Flatten(records)|;
    Be16RoundTrip(n);
    assert payload[0] == Be16(n)[0] && payload[1] == Be16(n)[1];
    hide FromBe16, Be16;
  }

  /** Well-formed records come back from their printed form exactly when they fit the length field. */
  lemma PrintThenSplit(records: seq<Record>, result: SplitResult)
    requires AllRecords(records) && SplitsTo(Print(records), result)
    ensures result == Records(records) <==> |Flatten(records)| < 65536
    ensures |Flatten(records)| >= 65536 ==> result == LengthMismatch
  {
    var n := |Flatten(records)|;
    PrintFields(records);
    hide Print, FromBe16;
    if n < 65536 {
      OneSplit(Print(records), result, Records(records));
    } else {
      OneSplit(Print(records), result, LengthMismatch);
    }
  }

  // Shuffling and printing

  method FisherYates(records: array<Record>, draws: seq<nat>)
    requires IsDraws(draws) && |draws| == records.Length
    modifies records
    ensures records[..] == Shuffled(old(records[..]), draws, {})
  {
    hide Shuffled;
    ghost var goal := Shuffled(records[..], draws, {});
    assert draws[..|draws|] == draws;
    var i := records.Length - 1;
    while i > 0
      invariant -1 <= i < records.Length && (i == -1 ==> records.Length == 0)
      invariant Shuffled(records[..], draws[..i + 1], {}) == goal
    {
      var j := draws[i];
      ghost var next := Swap(records[..], i, j);
      ShuffledStep(records[..], draws, i, {});
      records[i], records[j] := records[j], records[i];
      assert records[..] == next;
      i := i - 1;
    }
    ShuffledNothing(records[..], draws[..i + 1], {});
  }

  method Serialise(records: array<Record>) returns (payload: seq<Byte>)
    ensures payload == Print(records[..])
  {
    var size := 0;
    for i := 0 to records.Length
      invariant size == |Flatten(records[..i])|
    {
      FlattenSnoc(records[..i], records[i]);
      assert records[..i + 1] == records[..i] + [records[i]];
      size := size + |records[i]|;
    }
    assert records[..records.Length] == records[..];
    payload := Be16(size);
    for i := 0 to records.Length
      invariant payload == Be16(size) + Flatten(records[..i])
    {
      FlattenSnoc(records[..i], records[i]);
      assert records[..i + 1] == records[..i] + [records[i]];
      Associates(Be16(size), Flatten(records[..i]), records[i]);
      payload := payload + records[i];
    }
  }

  /** shuffleTrustAnchors: the records it is given stay as they are. */
  method ShuffleTrustAnchors(anchors: seq<Record>, draws: seq<nat>) returns (payload: seq<Byte>)
    requires IsDraws(draws) && |draws| == |anchors|
    ensures payload == Print(Shuffled(anchors, draws, {}))
  {
    var records := new Record[|anchors|](i requires 0 <= i < |anchors| => anchors[i]);
    assert records[..] == anchors;
    FisherYates(records, draws);
    payload := Serialise(records);
  }

  /** BuildTrustAnchorsPayload: a capture that splits gives a payload of the same size, under the same
      length field, that splits into the same records in another order; any other capture gives its
      error. */
  method BuildTrustAnchorsPayload(capture: seq<Byte>, draws: seq<nat>) returns (error: SplitResult, payload: seq<Byte>)
    requires IsDraws(draws) && |draws| >= |capture|
    ensures SplitsTo(capture, error)
    ensures error.Records? ==>
              && |error.records| <= |capture|
              && |payload| == |capture| && payload[..2] == capture[..2]
              && SplitsTo(payload, Records(Shuffled(error.records, draws[..|error.records|], {})))
              && multiset(Shuffled(error.records, draws[..|error.records|], {})) == multiset(error.records)
  {
    error := SplitTrustAnchors(capture);
    payload := [];
    if error.Records? {
      ghost var order := Shuffled(error.records, draws[..|error.records|], {});
      payload := ShuffleTrustAnchors(error.records, draws[..|error.records|]);
      SplitThenPrint(capture, error.records);
      KeepsElements(error.records, draws[..|error.records|], {});
      SameSize(error.records, order);
      RecordsStayRecords(error.records, order);
      PrintSplits(order);
    }
  }

  lemma PrintSplits(records: seq<Record>)
    requires AllRecords(records) && |Flatten(records)| < 65536
    ensures SplitsTo(Print(records), Records(records))
  {
    PrintFields(records);
    hide Print, FromBe16;
  }

  lemma RecordsStayRecords(a: seq<Record>, b: seq<Record>)
    requires multiset(a) == multiset(b) && AllRecords(a)
    ensures AllRecords(b)
  {
    forall i | 0 <= i < |b| ensures IsRecord(b[i]) {
      assert b[i] in multiset(a);
    }
  }

  lemma FlattenWithout(s: seq<Record>, j: nat)
    requires j < |s|
    ensures multiset(Without(s, j)) == multiset(s) - multiset{s[j]}
    ensures |Flatten(s)| == |Flatten(Without(s, j))| + |s[j]|
  {
    WithoutElements(s, j);
    assert s == s[..j] + [s[j]] + s[j + 1..];
    FlattenAppend(s[..j] + [s[j]], s[j + 1..]);
    FlattenSnoc(s[..j], s[j]);
    FlattenAppend(s[..j], s[j + 1..]);
  }

  /** Reordering parts does not change how long they are together. */
  lemma {:induction false} SameSize(a: seq<Record>, b: seq<Record>)
    requires multiset(a) == multiset(b)
    ensures |Flatten(a)| == |Flatten(b)|
    decreases |a|
  {
    SameLength(a, b);
    if a != [] {
      var j := WhereIs(a[0], a, b);
      hide Flatten;
      FlattenWithout(a, 0);
      FlattenWithout(b, j);
      SameSize(Without(a, 0), Without(b, j));
    }
  }

  /** Any order of the captured records can be built, and from one draw sequence only. */
  lemma EveryOrderOnce(records: seq<Record>, order: seq<nat>)
    requires IsOrder(order, |records|) && Within(order, |records|)
    ensures exists draws :: IsDraws(draws) && |draws| == |records|
              && Shuffled(Identity(|records|), draws, {}) == order
              && Shuffled(records, draws, {}) == Arrange(records, order)
    ensures forall d, e | IsDraws(d) && IsDraws(e) && |d| == |e| == |records|
              && Shuffled(Identity(|records|), d, {}) == order && Shuffled(Identity(|records|), e, {}) == order ::
              d == e
  {
    OneDrawSequencePerOrder(|records|, order);
    var draws :| IsDraws(draws) && |draws| == |records| && Shuffled(Identity(|records|), draws, {}) == order;
    ShuffleArranges(records, draws, {});
  }
}
