/** cffi_binding/ech.go: one parameter out of an HTTPS record, section 2.2 of RFC 9460. The searched key is
    a parameter. */
module EchRdata {
  import opened Bytes
  import opened Seqs
  import opened Wrappers

  // The format

  type Label = l: seq<Byte> | 0 < |l| < 256 witness [0]

  function Name(labels: seq<Label>): seq<Byte> {
    if labels == [] then [0] else [|labels[0]|] + labels[0] + Name(labels[1..])
  }

  datatype Param = Param(key: nat, value: seq<Byte>) {
    predicate Fits() {
      key < 65536 && |value| < 65536
    }

    function Bytes(): seq<Byte> {
      Be16(key) + Be16(|value|) + value
    }
  }

  ghost predicate AllFit(params: seq<Param>) {
    forall p <- params :: p.Fits()
  }

  function Params(params: seq<Param>): seq<Byte> {
    if params == [] then [] else params[0].Bytes() + Params(params[1..])
  }

  function Rdata(priority: nat, labels: seq<Label>, params: seq<Param>): seq<Byte> {
    Be16(priority) + Name(labels) + Params(params)
  }

  /** The value belongs to the first parameter with the key, whatever comes behind it. */
  ghost predicate IsFirst(params: seq<Param>, rest: seq<Byte>, key: nat, value: seq<Byte>, bytes: seq<Byte>) {
    && AllFit(params) && (forall p <- params :: p.key != key)
    && Param(key, value).Fits() && bytes == Params(params) + Param(key, value).Bytes() + rest
  }

  ghost predicate Finds(rdata: seq<Byte>, key: nat, value: seq<Byte>) {
    exists labels, params, rest, bytes ::
      |rdata| >= 2 && rdata[2..] == Name(labels) + bytes && IsFirst(params, rest, key, value, bytes)
  }

  /** A parameter byte by byte: key, length and value, numbers with the high byte first. */
  lemma ParamOnTheWire(p: Param)
    requires p.Fits()
    ensures p.Bytes() == [p.key / 256, p.key % 256, |p.value| / 256, |p.value| % 256] + p.value
  {
    assert Be16(p.key) == [p.key / 256, p.key % 256] && Be16(|p.value|) == [|p.value| / 256, |p.value| % 256];
  }

  /** A name is its labels, each behind its length, and a zero byte. */
  lemma NameOnTheWire(first: Label, labels: seq<Label>)
    ensures Name([]) == [0] && Name([first] + labels) == [|first|] + first + Name(labels)
  {
    assert ([first] + labels)[1..] == labels;
  }

  /** A priority of two bytes comes first, and the parameters come last. */
  lemma RdataOnTheWire(priority: nat, labels: seq<Label>, first: Param, params: seq<Param>)
    requires priority < 65536
    ensures Rdata(priority, labels, []) == [priority / 256, priority % 256] + Name(labels)
    ensures Rdata(priority, labels, [first] + params)
              == [priority / 256, priority % 256] + Name(labels) + (first.Bytes() + Params(params))
  {
    assert ([first] + params)[1..] == params;
    assert Be16(priority) == [priority / 256, priority % 256];
    hide Be16, Name, Param.Bytes;
  }

  // What the two loops compute

  /** What lies behind the name; nothing when the name runs past the end. */
  function SkipName(bytes: seq<Byte>): (rest: Option<seq<Byte>>)
    ensures rest.Some? ==> |rest.value| < |bytes|
  {
    if bytes == [] then None
    else if bytes[0] == 0 then Some(bytes[1..])
    else if 1 + bytes[0] as int > |bytes| then None
    else SkipName(bytes[1 + bytes[0]..])
  }

  function KeyOf(bytes: seq<Byte>): nat
    requires |bytes| >= 4
  {
    FromBe16(bytes[0], bytes[1])
  }

  function LengthOf(bytes: seq<Byte>): nat
    requires |bytes| >= 4
  {
    FromBe16(bytes[2], bytes[3])
  }

  function Search(bytes: seq<Byte>, key: nat): Option<seq<Byte>> {
    if |bytes| < 4 then None
    else if 4 + LengthOf(bytes) > |bytes| then None
    else if KeyOf(bytes) == key then Some(bytes[4..4 + LengthOf(bytes)])
    else Search(bytes[4 + LengthOf(bytes)..], key)
  }

  function Extract(rdata: seq<Byte>, key: nat): Option<seq<Byte>> {
    if |rdata| < 3 then None
    else
      var rest := SkipName(rdata[2..]);
      if rest.None? then None else Search(rest.value, key)
  }

  /** One turn of the first loop. */
  lemma NameStep(rdata: seq<Byte>, pos: nat)
    requires pos < |rdata|
    ensures SkipName(rdata[pos..]) ==
              if rdata[pos] == 0 then Some(rdata[pos + 1..])
              else if pos + 1 + rdata[pos] > |rdata| then None
              else SkipName(rdata[pos + 1 + rdata[pos]..])
  {
    var here := rdata[pos..];
    assert here[1..] == rdata[pos + 1..];
    if pos + 1 + rdata[pos] <= |rdata| {
      assert here[1 + rdata[pos]..] == rdata[pos + 1 + rdata[pos]..];
    }
  }

  /** One turn of the second loop. */
  lemma ParamStep(rdata: seq<Byte>, pos: nat, key: nat)
    requires pos + 4 <= |rdata|
    ensures var vlen := FromBe16(rdata[pos + 2], rdata[pos + 3]);
            Search(rdata[pos..], key) ==
              if pos + 4 + vlen > |rdata| then None
              else if FromBe16(rdata[pos], rdata[pos + 1]) == key then Some(rdata[pos + 4..pos + 4 + vlen])
              else Search(rdata[pos + 4 + vlen..], key)
  {
    var here, vlen := rdata[pos..], FromBe16(rdata[pos + 2], rdata[pos + 3]);
    assert KeyOf(here) == FromBe16(rdata[pos], rdata[pos + 1]) && LengthOf(here) == vlen;
    if pos + 4 + vlen <= |rdata| {
      assert here[4..4 + vlen] == rdata[pos + 4..pos + 4 + vlen];
      assert here[4 + vlen..] == rdata[pos + 4 + vlen..];
    }
  }

  ghost predicate IsTheValue(rdata: seq<Byte>, key: nat, r: Option<seq<Byte>>) {
    forall value :: r == Some(value) <==> Finds(rdata, key, value)
  }

  lemma ExtractIsTheValue(rdata: seq<Byte>, key: nat)
    ensures IsTheValue(rdata, key, Extract(rdata, key))
  {
    forall value ensures Extract(rdata, key) == Some(value) <==> Finds(rdata, key, value) {
      ExtractIffFinds(rdata, key, value);
    }
  }

  /** extractECHFromRDATA: every access is in bounds, on every input. */
  method ExtractFromRdata(rdata: seq<Byte>, key: nat) returns (r: Option<seq<Byte>>)
    ensures r == Extract(rdata, key) && IsTheValue(rdata, key, r)
  {
    ExtractIsTheValue(rdata, key);
    hide IsTheValue, FromBe16, SkipName, Search;
    if |rdata| < 3 {
      return None;
    }
    var pos := 2;
    while true
      invariant 2 <= pos
      invariant SkipName(rdata[2..]) == if pos <= |rdata| then SkipName(rdata[pos..]) else None
      decreases |rdata| - pos
    {
      if pos >= |rdata| {
        return None;
      }
      NameStep(rdata, pos);
      var l := rdata[pos];
      pos := pos + 1;
      if l == 0 {
        break;
      }
      pos := pos + l;
    }
    while pos + 4 <= |rdata|
      invariant 2 <= pos <= |rdata| && Extract(rdata, key) == Search(rdata[pos..], key)
      decreases |rdata| - pos
    {
      ParamStep(rdata, pos, key);
      var k, vlen := FromBe16(rdata[pos], rdata[pos + 1]), FromBe16(rdata[pos + 2], rdata[pos + 3]);
      pos := pos + 4;
      if pos + vlen > |rdata| {
        return None;
      }
      if k == key {
        return Some(rdata[pos..pos + vlen]);
      }
      pos := pos + vlen;
    }
    NoParam(rdata[pos..], key);
    return None;
  }

  lemma NoParam(bytes: seq<Byte>, key: nat)
    requires |bytes| < 4
    ensures Search(bytes, key) == None
  {
  }

  // The loops are the format

  lemma {:induction false} SkipsAName(labels: seq<Label>, bytes: seq<Byte>)
    ensures SkipName(Name(labels) + bytes) == Some(bytes)
  {
    var all := Name(labels) + bytes;
    if labels == [] {
      assert all[1..] == bytes;
    } else {
      var name := labels[0];
      assert all[1 + |name|..] == Name(labels[1..]) + bytes;
      SkipsAName(labels[1..], bytes);
    }
  }

  lemma {:induction false} SkippedAName(bytes: seq<Byte>) returns (labels: seq<Label>)
    requires SkipName(bytes).Some?
    ensures bytes == Name(labels) + SkipName(bytes).value
    decreases |bytes|
  {
    if bytes[0] == 0 {
      labels := [];
      assert bytes == [0] + bytes[1..];
    } else {
      var l := bytes[0];
      var rest := SkippedAName(bytes[1 + l..]);
      var name: Label := bytes[1..1 + l];
      labels := [name] + rest;
      assert labels[1..] == rest;
      assert bytes == [l] + name + bytes[1 + l..];
      Associates([l] + name, Name(rest), SkipName(bytes).value);
    }
  }

  lemma ParamFields(p: Param, rest: seq<Byte>)
    requires p.Fits()
    ensures var bytes := p.Bytes() + rest;
            && |p.Bytes()| == 4 + |p.value| && KeyOf(bytes) == p.key && LengthOf(bytes) == |p.value|
            && bytes[4..4 + |p.value|] == p.value && bytes[4 + |p.value|..] == rest
  {
    Be16RoundTrip(p.key);
    Be16RoundTrip(|p.value|);
    hide Be16, FromBe16;
  }

  lemma FieldsAreAParam(bytes: seq<Byte>) returns (p: Param)
    requires |bytes| >= 4 && 4 + LengthOf(bytes) <= |bytes|
    ensures p == Param(KeyOf(bytes), bytes[4..4 + LengthOf(bytes)]) && p.Fits()
    ensures bytes == p.Bytes() + bytes[4 + LengthOf(bytes)..]
  {
    p := Param(KeyOf(bytes), bytes[4..4 + LengthOf(bytes)]);
    Be16Inverse(bytes[0], bytes[1]);
    Be16Inverse(bytes[2], bytes[3]);
    hide Be16;
    assert Be16(p.key) == bytes[..2] && Be16(|p.value|) == bytes[2..4];
    assert bytes == bytes[..2] + bytes[2..4] + bytes[4..4 + LengthOf(bytes)] + bytes[4 + LengthOf(bytes)..];
  }

  lemma {:induction false} SearchFinds(params: seq<Param>, rest: seq<Byte>, key: nat, value: seq<Byte>,
                                       bytes: seq<Byte>)
    requires IsFirst(params, rest, key, value, bytes)
    ensures Search(bytes, key) == Some(value)
    decreases |params|
  {
    if params == [] {
      assert bytes == Param(key, value).Bytes() + rest;
      ParamFields(Param(key, value), rest);
    } else {
      var p, found := params[0], Param(key, value).Bytes();
      assert p in params;
      var tail := Params(params[1..]) + found + rest;
      assert bytes == p.Bytes() + tail;
      ParamFields(p, tail);
      SearchFinds(params[1..], rest, key, value, tail);
    }
  }

  lemma {:induction false} SearchFound(bytes: seq<Byte>, key: nat) returns (params: seq<Param>, rest: seq<Byte>)
    requires Search(bytes, key).Some?
    ensures IsFirst(params, rest, key, Search(bytes, key).value, bytes)
    decreases |bytes|
  {
    var p := FieldsAreAParam(bytes);
    var tail := bytes[4 + LengthOf(bytes)..];
    if KeyOf(bytes) == key {
      params, rest := [], tail;
      assert Params([]) + p.Bytes() == p.Bytes();
    } else {
      var more;
      more, rest := SearchFound(tail, key);
      params := [p] + more;
      FirstBehind(p, more, rest, key, Search(bytes, key).value, tail);
    }
  }

  lemma FirstBehind(p: Param, params: seq<Param>, rest: seq<Byte>, key: nat, value: seq<Byte>, bytes: seq<Byte>)
    requires p.Fits() && p.key != key && IsFirst(params, rest, key, value, bytes)
    ensures IsFirst([p] + params, rest, key, value, p.Bytes() + bytes)
  {
    assert ([p] + params)[1..] == params;
    var found := Param(key, value).Bytes();
    assert p.Bytes() + (Params(params) + found + rest) == p.Bytes() + Params(params) + found + rest;
  }

  /** The code finds a value exactly when the record has it: behind a whole name, behind whole parameters
      with other keys. So a truncated name, and a truncated parameter before the value, give nothing. */
  lemma ExtractIffFinds(rdata: seq<Byte>, key: nat, value: seq<Byte>)
    ensures Extract(rdata, key) == Some(value) <==> Finds(rdata, key, value)
  {
    if Extract(rdata, key) == Some(value) {
      var labels := SkippedAName(rdata[2..]);
      var bytes := SkipName(rdata[2..]).value;
      var params, rest := SearchFound(bytes, key);
    }
    if Finds(rdata, key, value) {
      var labels, params, rest, bytes :|
        |rdata| >= 2 && rdata[2..] == Name(labels) + bytes && IsFirst(params, rest, key, value, bytes);
      SkipsAName(labels, bytes);
      SearchFinds(params, rest, key, value, bytes);
      assert |Name(labels)| >= 1;
    }
  }

  /** What the first parameter with the key holds. */
  function FirstValue(params: seq<Param>, key: nat): Option<seq<Byte>> {
    if params == [] then None
    else if params[0].key == key then Some(params[0].value)
    else FirstValue(params[1..], key)
  }

  /** Reading a written record gives the first parameter with the key, or nothing when there is none. */
  lemma ReadsWhatIsWritten(priority: nat, labels: seq<Label>, params: seq<Param>, key: nat)
    requires AllFit(params)
    ensures Extract(Rdata(priority, labels, params), key) == FirstValue(params, key)
  {
    var rdata := Rdata(priority, labels, params);
    assert rdata[2..] == Name(labels) + Params(params);
    assert |Name(labels)| >= 1;
    SkipsAName(labels, Params(params));
    SearchParams(params, key);
  }

  lemma {:induction false} SearchParams(params: seq<Param>, key: nat)
    requires AllFit(params)
    ensures Search(Params(params), key) == FirstValue(params, key)
  {
    if params != [] {
      assert params[0] in params;
      ParamFields(params[0], Params(params[1..]));
      SearchParams(params[1..], key);
    }
  }

  /** Cutting a record short can lose the value but never change it. */
  lemma CutShort(rdata: seq<Byte>, cut: nat, key: nat)
    requires cut <= |rdata|
    ensures Extract(rdata[..cut], key) in {None, Extract(rdata, key)}
  {
    var short := rdata[..cut];
    if Extract(short, key).Some? {
      var value := Extract(short, key).value;
      ExtractIffFinds(short, key, value);
      var labels, params, rest, bytes :|
        |short| >= 2 && short[2..] == Name(labels) + bytes && IsFirst(params, rest, key, value, bytes);
      var more := rdata[cut..];
      assert rdata[2..] == short[2..] + more;
      Associates(Name(labels), bytes, more);
      Associates(Params(params) + Param(key, value).Bytes(), rest, more);
      assert IsFirst(params, rest + more, key, value, bytes + more);
      ExtractIffFinds(rdata, key, value);
    }
  }
}
