/** ja3.go: from a JA3 string to the lists of a ClientHello, and back. */
module Ja3 {
  import opened Decimal
  import opened Splitting

  const GREASE_PLACEHOLDER: nat := 2570
  const SUPPORTED_CURVES: nat := 10
  const SUPPORTED_POINTS: nat := 11
  const COMPRESS_CERTIFICATE: nat := 27
  const TRUST_ANCHORS: nat := 51764

  /** What getExtensionBaseMap and every call of stringToSpec put into the extension map, besides the two
      extensions that carry lists. */
  const ALWAYS_KNOWN: set<nat> := {
    0, 5, 13, 16, 18, 21, 23, 28, 34, 35, 41, 42, 43, 44, 45, 51, 13172, 17513, 17613, 65037, 65281
  }

  datatype Extension = Grease | Curves(ids: seq<nat>) | Points(ids: seq<nat>) | Plain(id: nat)

  datatype Error = BadNumber(text: string) | UnknownExtension(text: string) | NoTrustAnchors

  datatype Parsed<+T> = Ok(value: T) | Err(error: Error)

  datatype Spec = Spec(cipherSuites: seq<nat>, extensions: seq<Extension>)

  /** The arguments that decide which extensions are known, and the lists that two of them carry. */
  datatype Env = Env(certCompression: bool, trustAnchors: bool, curves: seq<nat>, points: seq<nat>) {
    predicate Knows(id: nat) {
      || id in ALWAYS_KNOWN + {GREASE_PLACEHOLDER, SUPPORTED_CURVES, SUPPORTED_POINTS}
      || (id == COMPRESS_CERTIFICATE && certCompression)
      || (id == TRUST_ANCHORS && trustAnchors)
    }

    function Extension(id: nat): Extension {
      if id == GREASE_PLACEHOLDER then Grease
      else if id == SUPPORTED_CURVES then Curves(curves)
      else if id == SUPPORTED_POINTS then Points(points)
      else Plain(id)
    }
  }

  /** strconv.ParseUint with base 10. */
  function ParseUint(s: string, max: nat): Parsed<nat> {
    if IsNumber(s) && Value(s) <= max then Ok(Value(s)) else Err(BadNumber(s))
  }

  /** A list of numbers, or the first part that is none. */
  function ParseAll(parts: seq<string>, max: nat): Parsed<seq<nat>> {
    if parts == [] then Ok([])
    else
      var front := ParseAll(parts[..|parts| - 1], max);
      if front.Err? then front
      else
        var last := ParseUint(parts[|parts| - 1], max);
        if last.Err? then Err(last.error) else Ok(front.value + [last.value])
  }

  function ParseExtension(part: string, env: Env): Parsed<Extension> {
    var id := ParseUint(part, 65535);
    if id.Err? then Err(id.error)
    else if env.Knows(id.value) then Ok(env.Extension(id.value))
    else if id.value == TRUST_ANCHORS then Err(NoTrustAnchors)
    else Err(UnknownExtension(part))
  }

  function ParseExtensions(parts: seq<string>, env: Env): Parsed<seq<Extension>> {
    if parts == [] then Ok([])
    else
      var front := ParseExtensions(parts[..|parts| - 1], env);
      if front.Err? then front
      else
        var last := ParseExtension(parts[|parts| - 1], env);
        if last.Err? then Err(last.error) else Ok(front.value + [last.value])
  }

  function Dashed(field: string): seq<string> {
    Split(field, '-')
  }

  /** Curves and point formats may be empty; the others may not. */
  function DashedOrEmpty(field: string): seq<string> {
    if Dashed(field) == [""] then [] else Dashed(field)
  }

  /** Curves are checked first, then points, extensions and ciphers. */
  function SpecOf(ja3: string, certCompression: bool, trustAnchors: bool): Parsed<Spec>
    requires |Split(ja3, ',')| >= 5
  {
    var fields := Split(ja3, ',');
    var curves := ParseAll(DashedOrEmpty(fields[3]), 65535);
    if curves.Err? then Err(curves.error)
    else
      var points := ParseAll(DashedOrEmpty(fields[4]), 255);
      if points.Err? then Err(points.error)
      else
        var exts := ParseExtensions(Dashed(fields[2]), Env(certCompression, trustAnchors, curves.value, points.value));
        if exts.Err? then Err(exts.error)
        else
          var suites := ParseAll(Dashed(fields[1]), 65535);
          if suites.Err? then Err(suites.error) else Ok(Spec(suites.value, exts.value))
  }

  // The code

  method Numbers(parts: seq<string>, max: nat) returns (r: Parsed<seq<nat>>)
    ensures r == ParseAll(parts, max)
  {
    var ids: seq<nat> := [];
    for i := 0 to |parts|
      invariant ParseAll(parts[..i], max) == Ok(ids)
    {
      assert parts[..i + 1][..i] == parts[..i];
      var id := ParseUint(parts[i], max);
      if id.Err? {
        FirstErrorStays(parts, i + 1, max);
        return Err(id.error);
      }
      ids := ids + [id.value];
    }
    assert parts[..|parts|] == parts;
    return Ok(ids);
  }

  lemma {:induction false} FirstErrorStays(parts: seq<string>, i: nat, max: nat)
    requires i <= |parts| && ParseAll(parts[..i], max).Err?
    ensures ParseAll(parts, max) == ParseAll(parts[..i], max)
    decreases |parts|
  {
    if i == |parts| {
      assert parts[..i] == parts;
    } else {
      assert parts[..|parts| - 1][..i] == parts[..i];
      FirstErrorStays(parts[..|parts| - 1], i, max);
    }
  }

  method Extensions(parts: seq<string>, env: Env) returns (r: Parsed<seq<Extension>>)
    ensures r == ParseExtensions(parts, env)
  {
    var exts: seq<Extension> := [];
    for i := 0 to |parts|
      invariant ParseExtensions(parts[..i], env) == Ok(exts)
    {
      assert parts[..i + 1][..i] == parts[..i];
      var id := ParseUint(parts[i], 65535);
      if id.Err? {
        FirstExtensionErrorStays(parts, i + 1, env);
        return Err(id.error);
      }
      if id.value == GREASE_PLACEHOLDER {
        exts := exts + [Grease];
        continue;
      }
      if !env.Knows(id.value) {
        FirstExtensionErrorStays(parts, i + 1, env);
        if id.value == TRUST_ANCHORS {
          return Err(NoTrustAnchors);
        }
        return Err(UnknownExtension(parts[i]));
      }
      exts := exts + [env.Extension(id.value)];
    }
    assert parts[..|parts|] == parts;
    return Ok(exts);
  }

  lemma {:induction false} FirstExtensionErrorStays(parts: seq<string>, i: nat, env: Env)
    requires i <= |parts| && ParseExtensions(parts[..i], env).Err?
    ensures ParseExtensions(parts, env) == ParseExtensions(parts[..i], env)
    decreases |parts|
  {
    if i == |parts| {
      assert parts[..i] == parts;
    } else {
      assert parts[..|parts| - 1][..i] == parts[..i];
      FirstExtensionErrorStays(parts[..|parts| - 1], i, env);
    }
  }

  /** stringToSpec */
  method StringToSpec(ja3: string, certCompression: bool, trustAnchors: bool) returns (r: Parsed<Spec>)
    requires |Split(ja3, ',')| >= 5
    ensures r == SpecOf(ja3, certCompression, trustAnchors)
  {
    hide Split, ParseAll, ParseExtensions;
    var fields := Split(ja3, ',');
    var curves := Numbers(DashedOrEmpty(fields[3]), 65535);
    if curves.Err? {
      return Err(curves.error);
    }
    var points := Numbers(DashedOrEmpty(fields[4]), 255);
    if points.Err? {
      return Err(points.error);
    }
    var exts := Extensions(Dashed(fields[2]), Env(certCompression, trustAnchors, curves.value, points.value));
    if exts.Err? {
      return Err(exts.error);
    }
    var suites := Numbers(Dashed(fields[1]), 65535);
    if suites.Err? {
      return Err(suites.error);
    }
    return Ok(Spec(suites.value, exts.value));
  }

  // What is accepted

  ghost predicate IsNumberList(parts: seq<string>, max: nat) {
    forall i | 0 <= i < |parts| :: IsNumber(parts[i]) && Value(parts[i]) <= max
  }

  lemma {:induction false} ParseAllMeans(parts: seq<string>, max: nat)
    ensures ParseAll(parts, max).Ok? <==> IsNumberList(parts, max)
    ensures ParseAll(parts, max).Ok? ==>
              && |ParseAll(parts, max).value| == |parts|
              && forall i | 0 <= i < |parts| :: IsNumber(parts[i]) && ParseAll(parts, max).value[i] == Value(parts[i])
    decreases |parts|
  {
    if parts != [] {
      var front := parts[..|parts| - 1];
      ParseAllMeans(front, max);
      assert forall i | 0 <= i < |front| :: front[i] == parts[i];
    }
  }

  ghost predicate AreKnown(parts: seq<string>, env: Env) {
    forall i | 0 <= i < |parts| :: IsNumber(parts[i]) && Value(parts[i]) <= 65535 && env.Knows(Value(parts[i]))
  }

  lemma ParseExtensionMeans(part: string, env: Env)
    ensures ParseExtension(part, env).Ok? <==> IsNumber(part) && Value(part) <= 65535 && env.Knows(Value(part))
    ensures ParseExtension(part, env).Ok? ==> ParseExtension(part, env).value == env.Extension(Value(part))
  {
  }

  lemma {:induction false} ParseExtensionsMeans(parts: seq<string>, env: Env)
    ensures ParseExtensions(parts, env).Ok? <==> AreKnown(parts, env)
    ensures ParseExtensions(parts, env).Ok? ==> AreExtensionsOf(ParseExtensions(parts, env).value, parts, env)
    decreases |parts|
  {
    if parts != [] {
      var front, part := parts[..|parts| - 1], parts[|parts| - 1];
      assert parts == front + [part];
      ParseExtensionMeans(part, env);
      KnownSnoc(front, part, env);
      hide ParseExtension, AreKnown, AreExtensionsOf;
      ParseExtensionsMeans(front, env);
      if ParseExtensions(parts, env).Ok? {
        ExtensionsSnoc(ParseExtensions(front, env).value, front, part, env);
      }
    }
  }

  /** Every part gives the extension of its own number. */
  ghost predicate AreExtensionsOf(exts: seq<Extension>, parts: seq<string>, env: Env) {
    && |exts| == |parts|
    && forall i | 0 <= i < |parts| :: IsNumber(parts[i]) && exts[i] == env.Extension(Value(parts[i]))
  }

  lemma KnownSnoc(front: seq<string>, part: string, env: Env)
    ensures AreKnown(front + [part], env)
            <==> AreKnown(front, env) && IsNumber(part) && Value(part) <= 65535 && env.Knows(Value(part))
  {
    var parts := front + [part];
    assert parts[|front|] == part;
    assert forall i | 0 <= i < |front| :: front[i] == parts[i];
  }

  lemma ExtensionsSnoc(exts: seq<Extension>, front: seq<string>, part: string, env: Env)
    requires AreExtensionsOf(exts, front, env) && IsNumber(part)
    ensures AreExtensionsOf(exts + [env.Extension(Value(part))], front + [part], env)
  {
  }

  /** What each extension number gives: its extension, or the error that names what is missing. */
  lemma WhatAnExtensionGives(part: string, env: Env)
    ensures ParseExtension(part, env) ==
              if !IsNumber(part) || Value(part) > 65535 then Err(BadNumber(part))
              else
                match Value(part)
                case 2570 => Ok(Grease)
                case 10 => Ok(Curves(env.curves))
                case 11 => Ok(Points(env.points))
                case 27 => if env.certCompression then Ok(Plain(27)) else Err(UnknownExtension(part))
                case 51764 => if env.trustAnchors then Ok(Plain(51764)) else Err(NoTrustAnchors)
                case id =>
                  if id in {0, 5, 13, 16, 18, 21, 23, 28, 34, 35, 41, 42, 43, 44, 45, 51,
                            13172, 17513, 17613, 65037, 65281}
                  then Ok(Plain(id)) else Err(UnknownExtension(part))
  {
  }

  /** All are numbers of known extensions: certificate compression and trust anchors if they are configured. */
  ghost predicate AreAccepted(parts: seq<string>, certCompression: bool, trustAnchors: bool) {
    forall i | 0 <= i < |parts| :: IsNumber(parts[i]) && Accepts(Value(parts[i]), certCompression, trustAnchors)
  }

  predicate Accepts(id: nat, certCompression: bool, trustAnchors: bool) {
    || id in {0, 5, 10, 11, 13, 16, 18, 21, 23, 28, 34, 35, 41, 42, 43, 44, 45, 51,
              2570, 13172, 17513, 17613, 65037, 65281}
    || (id == 27 && certCompression)
    || (id == 51764 && trustAnchors)
  }

  lemma KnownAreAccepted(parts: seq<string>, env: Env)
    ensures AreKnown(parts, env) <==> AreAccepted(parts, env.certCompression, env.trustAnchors)
  {
    assert forall id: nat :: env.Knows(id) <==> Accepts(id, env.certCompression, env.trustAnchors);
  }

  /** The error of a list is that of the first part with one. */
  lemma {:induction false} FirstErrorOf(parts: seq<string>, env: Env) returns (i: nat)
    requires ParseExtensions(parts, env).Err?
    ensures i < |parts| && ParseExtension(parts[i], env) == Err(ParseExtensions(parts, env).error)
    ensures forall k | 0 <= k < i :: ParseExtension(parts[k], env).Ok?
    decreases |parts|
  {
    hide ParseExtension;
    var front := parts[..|parts| - 1];
    if ParseExtensions(front, env).Err? {
      i := FirstErrorOf(front, env);
    } else {
      i := |front|;
      AllParse(front, env);
      assert forall k | 0 <= k < i :: front[k] == parts[k];
    }
  }

  lemma {:induction false} AllParse(parts: seq<string>, env: Env)
    requires ParseExtensions(parts, env).Ok?
    ensures forall k | 0 <= k < |parts| :: ParseExtension(parts[k], env).Ok?
    decreases |parts|
  {
    hide ParseExtension;
    if parts != [] {
      AllParse(parts[..|parts| - 1], env);
      assert forall k | 0 <= k < |parts| - 1 :: parts[..|parts| - 1][k] == parts[k];
    }
  }

  /** The first part of a field that is no number in range. */
  ghost predicate FirstBad(parts: seq<string>, max: nat, text: string) {
    exists i | 0 <= i < |parts| ::
      && parts[i] == text && !(IsNumber(text) && Value(text) <= max)
      && forall k | 0 <= k < i :: IsNumber(parts[k]) && Value(parts[k]) <= max
  }

  lemma {:induction false} ErrorIsFirstBad(parts: seq<string>, max: nat)
    ensures ParseAll(parts, max).Err? ==>
              ParseAll(parts, max).error.BadNumber? && FirstBad(parts, max, ParseAll(parts, max).error.text)
    decreases |parts|
  {
    if parts != [] {
      var front := parts[..|parts| - 1];
      ErrorIsFirstBad(front, max);
      ParseAllMeans(front, max);
      assert forall k | 0 <= k < |front| :: front[k] == parts[k];
    }
  }

  /** Curves are asked first, then point formats, extensions and ciphers, and the error is that of the first
      of them with one. */
  lemma WhichError(ja3: string, certCompression: bool, trustAnchors: bool)
    requires |Split(ja3, ',')| >= 5 && SpecOf(ja3, certCompression, trustAnchors).Err?
    ensures var fields, error := Split(ja3, ','), SpecOf(ja3, certCompression, trustAnchors).error;
            if !IsNumberList(DashedOrEmpty(fields[3]), 65535) then
              error.BadNumber? && FirstBad(DashedOrEmpty(fields[3]), 65535, error.text)
            else if !IsNumberList(DashedOrEmpty(fields[4]), 255) then
              error.BadNumber? && FirstBad(DashedOrEmpty(fields[4]), 255, error.text)
            else if !AreAccepted(Dashed(fields[2]), certCompression, trustAnchors) then
              exists i | 0 <= i < |Dashed(fields[2])| ::
                && ParseExtension(Dashed(fields[2])[i], Env(certCompression, trustAnchors, [], [])) == Err(error)
                && AreAccepted(Dashed(fields[2])[..i], certCompression, trustAnchors)
            else
              error.BadNumber? && FirstBad(Dashed(fields[1]), 65535, error.text)
  {
    var fields := Split(ja3, ',');
    var curves, points := ParseAll(DashedOrEmpty(fields[3]), 65535), ParseAll(DashedOrEmpty(fields[4]), 255);
    ParseAllMeans(DashedOrEmpty(fields[3]), 65535);
    ParseAllMeans(DashedOrEmpty(fields[4]), 255);
    ParseAllMeans(Dashed(fields[1]), 65535);
    ErrorIsFirstBad(DashedOrEmpty(fields[3]), 65535);
    ErrorIsFirstBad(DashedOrEmpty(fields[4]), 255);
    ErrorIsFirstBad(Dashed(fields[1]), 65535);
    hide FirstBad, IsNumberList, ParseAll, ParseExtensions, Dashed, DashedOrEmpty, Split;
    if curves.Ok? && points.Ok? {
      FirstRefused(Dashed(fields[2]), Env(certCompression, trustAnchors, curves.value, points.value));
    }
  }

  lemma FirstRefused(parts: seq<string>, env: Env)
    ensures ParseExtensions(parts, env).Ok? <==> AreAccepted(parts, env.certCompression, env.trustAnchors)
    ensures ParseExtensions(parts, env).Err? ==>
              exists i | 0 <= i < |parts| ::
                && ParseExtension(parts[i], Env(env.certCompression, env.trustAnchors, [], []))
                   == Err(ParseExtensions(parts, env).error)
                && AreAccepted(parts[..i], env.certCompression, env.trustAnchors)
  {
    ParseExtensionsMeans(parts, env);
    KnownAreAccepted(parts, env);
    if ParseExtensions(parts, env).Err? {
      var i := FirstErrorOf(parts, env);
      forall k | 0 <= k < i
        ensures IsNumber(parts[..i][k]) && Value(parts[..i][k]) <= 65535 && env.Knows(Value(parts[..i][k]))
      {
        ParseExtensionMeans(parts[k], env);
      }
      KnownAreAccepted(parts[..i], env);
    }
  }

  /** A string is accepted exactly when all its numbers are in range and all its extensions are known. */
  lemma AcceptedIff(ja3: string, certCompression: bool, trustAnchors: bool)
    requires |Split(ja3, ',')| >= 5
    ensures var fields := Split(ja3, ',');
            SpecOf(ja3, certCompression, trustAnchors).Ok? <==>
              && IsNumberList(Dashed(fields[1]), 65535)
              && AreAccepted(Dashed(fields[2]), certCompression, trustAnchors)
              && IsNumberList(DashedOrEmpty(fields[3]), 65535) && IsNumberList(DashedOrEmpty(fields[4]), 255)
  {
    var fields := Split(ja3, ',');
    ParseAllMeans(Dashed(fields[1]), 65535);
    ParseAllMeans(DashedOrEmpty(fields[3]), 65535);
    ParseAllMeans(DashedOrEmpty(fields[4]), 255);
    var curves, points := ParseAll(DashedOrEmpty(fields[3]), 65535), ParseAll(DashedOrEmpty(fields[4]), 255);
    if curves.Ok? && points.Ok? {
      var env := Env(certCompression, trustAnchors, curves.value, points.value);
      ParseExtensionsMeans(Dashed(fields[2]), env);
      KnownAreAccepted(Dashed(fields[2]), env);
    }
  }

  // Printing

  function Texts(ids: seq<nat>): (texts: seq<string>)
    ensures |texts| == |ids|
  {
    seq(|ids|, i requires 0 <= i < |ids| => Dec(ids[i]))
  }

  function Print(ids: seq<nat>): string {
    Join(Texts(ids), '-')
  }

  function Id(e: Extension): nat {
    match e
    case Grease => GREASE_PLACEHOLDER
    case Curves(_) => SUPPORTED_CURVES
    case Points(_) => SUPPORTED_POINTS
    case Plain(id) => id
  }

  function Ids(exts: seq<Extension>): (ids: seq<nat>)
    ensures |ids| == |exts|
  {
    seq(|exts|, i requires 0 <= i < |exts| => Id(exts[i]))
  }

  ghost predicate AllCanonical(parts: seq<string>) {
    forall i | 0 <= i < |parts| :: IsCanonical(parts[i])
  }

  /** Printing the numbers of a field gives the field exactly when none has a leading zero. */
  lemma PrintsBack(field: string, ids: seq<nat>)
    requires |ids| == |Dashed(field)|
    requires forall i | 0 <= i < |ids| :: IsNumber(Dashed(field)[i]) && ids[i] == Value(Dashed(field)[i])
    ensures Print(ids) == field <==> AllCanonical(Dashed(field))
  {
    var parts := Dashed(field);
    JoinSplit(field, '-');
    forall i | 0 <= i < |ids| ensures IsCanonical(Texts(ids)[i]) && Lacks(Texts(ids)[i], '-') {
      ValueOfDec(ids[i]);
    }
    if AllCanonical(parts) {
      forall i | 0 <= i < |ids| ensures Texts(ids)[i] == parts[i] {
        DecOfValue(parts[i]);
      }
      assert Texts(ids) == parts;
    }
    if Print(ids) == field {
      SplitJoin(Texts(ids), '-');
      assert Texts(ids) == parts;
    }
  }

  lemma PrintsBackOrEmpty(field: string, ids: seq<nat>)
    requires |ids| == |DashedOrEmpty(field)|
    requires forall i | 0 <= i < |ids| :: IsNumber(DashedOrEmpty(field)[i]) && ids[i] == Value(DashedOrEmpty(field)[i])
    ensures Print(ids) == field <==> AllCanonical(DashedOrEmpty(field))
  {
    if Dashed(field) == [""] {
      JoinSplit(field, '-');
      assert field == "" && Print(ids) == "";
    } else {
      PrintsBack(field, ids);
    }
  }

  /** The ciphers and extensions of an accepted string print back exactly when they are canonical, and the
      curves and point formats are in the extensions that carry them and print back likewise. */
  lemma RoundTrip(ja3: string, certCompression: bool, trustAnchors: bool, spec: Spec)
    requires |Split(ja3, ',')| >= 5 && SpecOf(ja3, certCompression, trustAnchors) == Ok(spec)
    ensures var fields := Split(ja3, ',');
            && (Print(spec.cipherSuites) == fields[1] <==> AllCanonical(Dashed(fields[1])))
            && (Print(Ids(spec.extensions)) == fields[2] <==> AllCanonical(Dashed(fields[2])))
            && (forall e | e in spec.extensions && e.Curves? ::
                  Print(e.ids) == fields[3] <==> AllCanonical(DashedOrEmpty(fields[3])))
            && (forall e | e in spec.extensions && e.Points? ::
                  Print(e.ids) == fields[4] <==> AllCanonical(DashedOrEmpty(fields[4])))
            && (SUPPORTED_CURVES in Ids(spec.extensions) <==> exists e :: e in spec.extensions && e.Curves?)
            && (SUPPORTED_POINTS in Ids(spec.extensions) <==> exists e :: e in spec.extensions && e.Points?)
  {
    var fields := Split(ja3, ',');
    var curves, points := ParseAll(DashedOrEmpty(fields[3]), 65535), ParseAll(DashedOrEmpty(fields[4]), 255);
    var env := Env(certCompression, trustAnchors, curves.value, points.value);
    ParseAllMeans(Dashed(fields[1]), 65535);
    ParseAllMeans(DashedOrEmpty(fields[3]), 65535);
    ParseAllMeans(DashedOrEmpty(fields[4]), 255);
    ParseExtensionsMeans(Dashed(fields[2]), env);
    PrintsBack(fields[1], spec.cipherSuites);
    PrintsBackOrEmpty(fields[3], curves.value);
    PrintsBackOrEmpty(fields[4], points.value);
    ExtensionsPrintBack(fields[2], env, spec.extensions);
  }

  lemma ExtensionsPrintBack(field: string, env: Env, exts: seq<Extension>)
    requires |exts| == |Dashed(field)| && AreKnown(Dashed(field), env)
    requires forall i | 0 <= i < |exts| :: exts[i] == env.Extension(Value(Dashed(field)[i]))
    ensures Print(Ids(exts)) == field <==> AllCanonical(Dashed(field))
    ensures forall e | e in exts :: (e.Curves? ==> e.ids == env.curves) && (e.Points? ==> e.ids == env.points)
    ensures SUPPORTED_CURVES in Ids(exts) <==> exists e :: e in exts && e.Curves?
    ensures SUPPORTED_POINTS in Ids(exts) <==> exists e :: e in exts && e.Points?
  {
    var parts := Dashed(field);
    forall i | 0 <= i < |exts| ensures Ids(exts)[i] == Value(parts[i]) && exts[i] == env.Extension(Ids(exts)[i]) {}
    PrintsBack(field, Ids(exts));
    hide Dashed, Print, AllCanonical, AreKnown;
    CarriedLists(env, exts);
  }

  lemma CarriedLists(env: Env, exts: seq<Extension>)
    requires forall i | 0 <= i < |exts| :: exts[i] == env.Extension(Ids(exts)[i])
    ensures forall e | e in exts :: (e.Curves? ==> e.ids == env.curves) && (e.Points? ==> e.ids == env.points)
    ensures SUPPORTED_CURVES in Ids(exts) <==> exists e :: e in exts && e.Curves?
    ensures SUPPORTED_POINTS in Ids(exts) <==> exists e :: e in exts && e.Points?
  {
    forall e | e in exts && (e.Curves? || e.Points?)
      ensures Id(e) in Ids(exts) && e == env.Extension(Id(e))
    {
      var i :| 0 <= i < |exts| && exts[i] == e;
      assert Ids(exts)[i] == Id(e);
    }
    forall id | id in Ids(exts) ensures env.Extension(id) in exts {
      var i :| 0 <= i < |exts| && Ids(exts)[i] == id;
      assert exts[i] == env.Extension(id);
    }
  }
}
