/** Printing and parsing of key derivation paths. */
module DerivationPath {
  import opened Basics
  import opened Separated

  const HARDENED := 0x8000_0000
  const MAX_UINT32 := 0xFFFF_FFFF

  type u32 = x: int | 0 <= x < 0x1_0000_0000

  datatype Error = MissingPath | Malformed | NotAbsolute | InvalidElem | OutOfRange | InvalidRootLen | InvalidRoot

  datatype Result = Ok(path: seq<u32>) | Err(error: Error)

  // ---- Printing ----

  function DigitChar(d: nat): char
    requires d < 16
  {
    if d < 10 then '0' + d as char else 'a' + (d - 10) as char
  }

  function Digits(n: nat): (r: string)
    ensures r != []
  {
    if n < 10 then [DigitChar(n)] else Digits(n / 10) + [DigitChar(n % 10)]
  }

  function Component(c: u32): string {
    if c >= HARDENED then Digits(c - HARDENED) + "'" else Digits(c)
  }

  function Components(path: seq<u32>): (r: seq<string>)
    ensures |r| == |path| && forall k :: 0 <= k < |r| ==> r[k] == Component(path[k])
  {
    seq(|path|, k requires 0 <= k < |path| => Component(path[k]))
  }

  /** `m`, then the components, each behind a slash; nothing for the empty path. */
  function Printed(path: seq<u32>): string {
    if path == [] then "" else Join(["m"] + Components(path), '/')
  }

  lemma PrintStep(path: seq<u32>, i: nat)
    requires i < |path|
    ensures Join(["m"] + Components(path[..i + 1]), '/')
         == Join(["m"] + Components(path[..i]), '/') + ("/" + Component(path[i]))
  {
    var parts := ["m"] + Components(path[..i + 1]);
    assert parts[..|parts| - 1] == ["m"] + Components(path[..i]);
    assert parts[|parts| - 1] == Component(path[i]);
  }

  method Print(path: seq<u32>) returns (result: string)
    ensures result == Printed(path)
  {
    if |path| <= 0 { return ""; }
    result := "m";
    for i := 0 to |path|
      invariant result == Join(["m"] + Components(path[..i]), '/')
    {
      var written := PrintOne(path[i]);
      result := result + ("/" + written);
      PrintStep(path, i);
    }
    assert path[..|path|] == path;
  }

  method PrintOne(step: u32) returns (written: string)
    ensures written == Component(step)
  {
    var component, hardened := step, false;
    if component >= HARDENED {
      component, hardened := component - HARDENED, true;
    }
    written := Digits(component);
    if hardened {
      written := written + "'";
    }
  }

  // ---- Numbers, with the prefixes and separators of Go's integer literals ----

  predicate IsSpace(c: char) {
    c in {'\t', '\n', '\U{0B}', '\U{0C}', '\r', ' ', '\U{85}', '\U{A0}', '\U{1680}', '\U{2028}', '\U{2029}', '\U{202F}', '\U{205F}', '\U{3000}'}
    || '\U{2000}' <= c <= '\U{200A}'
  }

  function TrimLeft(s: string): string {
    if s != [] && IsSpace(s[0]) then TrimLeft(s[1..]) else s
  }

  function TrimRight(s: string): string {
    if s != [] && IsSpace(s[|s| - 1]) then TrimRight(s[..|s| - 1]) else s
  }

  function TrimSpace(s: string): string {
    TrimRight(TrimLeft(s))
  }

  /** The value of a character as a digit; at least 36 if it is none. */
  function DigitValue(c: char): nat {
    if '0' <= c <= '9' then (c - '0') as int
    else if 'a' <= c <= 'z' then (c - 'a') as int + 10
    else if 'A' <= c <= 'Z' then (c - 'A') as int + 10
    else 36
  }

  /** A scan of digits: `afterDigit` and `afterSeparator` tell what came last. */
  datatype Scan = Scan(value: int, count: nat, afterDigit: bool, afterSeparator: bool, bad: bool)

  function Scanned(s: string, numBase: nat, prefixed: bool): Scan {
    if s == [] then Scan(0, 0, prefixed, false, false)
    else
      var before := Scanned(s[..|s| - 1], numBase, prefixed);
      var c := s[|s| - 1];
      if c == '_' then Scan(before.value, before.count, false, true, before.bad || !before.afterDigit)
      else if DigitValue(c) >= numBase then before.(bad := true)
      else Scan(before.value * numBase + DigitValue(c), before.count + 1, true, false, before.bad)
  }

  function Scannable(s: string, numBase: nat, prefixed: bool): Option<int> {
    var r := Scanned(s, numBase, prefixed);
    if r.bad || r.afterSeparator || r.count == 0 then None else Some(r.value)
  }

  function ParseNat(s: string): Option<int> {
    if s == [] then None
    else if s[0] != '0' then Scannable(s, 10, false)
    else if |s| == 1 then Some(0)
    else if s[1] in {'b', 'B'} then Scannable(s[2..], 2, true)
    else if s[1] in {'o', 'O'} then Scannable(s[2..], 8, true)
    else if s[1] in {'x', 'X'} then Scannable(s[2..], 16, true)
    else Scannable(s[1..], 8, true)
  }

  function ParseInt(s: string): Option<int> {
    if s == [] then None
    else if s[0] == '+' || s[0] == '-' then
      match ParseNat(s[1..])
      case None => None
      case Some(n) => Some(if s[0] == '-' then 0 - n else n)
    else
      match ParseNat(s)
      case None => None
      case Some(n) => Some(n)
  }

  // ---- Parsing ----

  datatype Elem = Step(value: u32) | Bad(error: Error)

  function ParseElem(raw: string): Elem {
    var elem := TrimSpace(raw);
    var hardened := elem != [] && elem[|elem| - 1] == '\'';
    var digits := if hardened then TrimSpace(elem[..|elem| - 1]) else elem;
    match ParseInt(digits)
    case None => Bad(InvalidElem)
    case Some(n) =>
      var value := if hardened then HARDENED else 0;
      if n < 0 || n > MAX_UINT32 - value then Bad(OutOfRange) else Step(value + n)
  }

  function ParseElems(elems: seq<string>): Result {
    if elems == [] then Ok([])
    else
      match ParseElems(elems[..|elems| - 1])
      case Err(e) => Err(e)
      case Ok(path) =>
        match ParseElem(elems[|elems| - 1])
        case Bad(e) => Err(e)
        case Step(v) => Ok(path + [v])
  }

  function Parsed(s: string, checkAbsolute: bool): Result {
    if s == "" then Err(MissingPath)
    else
      var elems := Split(s, '/');
      if "" in elems then Err(Malformed)
      else if checkAbsolute && elems[0] != "m" then Err(NotAbsolute)
      else if |elems| < 2 then Err(Malformed)
      else ParseElems(if TrimSpace(elems[0]) == "m" then elems[1..] else elems)
  }

  method Parse(s: string, checkAbsolute: bool) returns (r: Result)
    ensures r == Parsed(s, checkAbsolute)
  {
    if s == "" { return Err(MissingPath); }
    var elems := Split(s, '/');
    for i := 0 to |elems|
      invariant forall k :: 0 <= k < i ==> elems[k] != ""
    {
      if elems[i] == "" { return Err(Malformed); }
    }
    if checkAbsolute && elems[0] != "m" { return Err(NotAbsolute); }
    if |elems| < 2 { return Err(Malformed); }
    if TrimSpace(elems[0]) == "m" {
      elems := elems[1..];
    }
    r := ParseEach(elems);
  }

  method ParseEach(elems: seq<string>) returns (r: Result)
    ensures r == ParseElems(elems)
  {
    var path: seq<u32> := [];
    for i := 0 to |elems|
      invariant ParseElems(elems[..i]) == Ok(path)
    {
      assert elems[..i + 1][..i] == elems[..i];
      var elem := ParseElem(elems[i]);
      if elem.Bad? {
        FirstErrorStays(elems, i + 1, elem.error);
        return Err(elem.error);
      }
      path := path + [elem.value];
    }
    assert elems[..|elems|] == elems;
    r := Ok(path);
  }

  lemma {:induction false} FirstErrorStays(elems: seq<string>, i: nat, e: Error)
    requires i <= |elems| && ParseElems(elems[..i]) == Err(e)
    ensures ParseElems(elems) == Err(e)
  {
    if i == |elems| {
      assert elems[..i] == elems;
    } else {
      assert elems[..|elems| - 1][..i] == elems[..i];
      FirstErrorStays(elems[..|elems| - 1], i, e);
    }
  }

  function ParsedRoot(s: string): Result {
    match Parsed(s, true)
    case Err(e) => Err(e)
    case Ok(path) =>
      if |path| != 2 then Err(InvalidRootLen)
      else if path[0] < HARDENED || path[1] < HARDENED then Err(InvalidRoot)
      else Ok(path)
  }

  method ParseRoot(s: string) returns (r: Result)
    ensures r == ParsedRoot(s)
  {
    r := Parse(s, true);
    if r.Err? { return; }
    if |r.path| != 2 { return Err(InvalidRootLen); }
    if r.path[0] < HARDENED || r.path[1] < HARDENED { return Err(InvalidRoot); }
  }

  // ---- Printed paths parse back ----

  predicate AllDigits(s: string) {
    forall k :: 0 <= k < |s| ==> '0' <= s[k] <= '9'
  }

  lemma {:induction false} DigitsAreDigits(n: nat)
    ensures AllDigits(Digits(n))
    ensures n > 0 ==> Digits(n)[0] != '0'
  {
    if n >= 10 { DigitsAreDigits(n / 10); }
  }

  lemma DigitRoundTrip(d: nat)
    requires d < 16
    ensures DigitValue(DigitChar(d)) == d && DigitChar(d) != '_'
  {
  }

  lemma ScanOne(s: string, d: nat, numBase: nat, prefixed: bool)
    requires d < numBase <= 16
    ensures var before := Scanned(s, numBase, prefixed);
            Scanned(s + [DigitChar(d)], numBase, prefixed) == Scan(before.value * numBase + d, before.count + 1, true, false, before.bad)
  {
    DigitRoundTrip(d);
    assert (s + [DigitChar(d)])[..|s|] == s;
  }

  lemma {:induction false} ScanDigits(n: nat)
    ensures var r := Scanned(Digits(n), 10, false);
            r.value == n && r.count > 0 && !r.bad && !r.afterSeparator
  {
    if n < 10 {
      ScanOne([], n, 10, false);
      assert [] + [DigitChar(n)] == Digits(n);
    } else {
      ScanDigits(n / 10);
      ScanOne(Digits(n / 10), n % 10, 10, false);
    }
  }

  lemma ParseDigits(n: nat)
    ensures ParseInt(Digits(n)) == Some(n)
  {
    DigitsAreDigits(n);
    ScanDigits(n);
  }

  /** A number written with the digits `ds`. */
  function ValueOf(ds: seq<nat>, numBase: nat): nat {
    if ds == [] then 0 else ValueOf(ds[..|ds| - 1], numBase) * numBase + ds[|ds| - 1]
  }

  function TextOf(ds: seq<nat>): string
    requires forall k :: 0 <= k < |ds| ==> ds[k] < 16
  {
    if ds == [] then [] else TextOf(ds[..|ds| - 1]) + [DigitChar(ds[|ds| - 1])]
  }

  lemma {:induction false} ScanText(ds: seq<nat>, numBase: nat, prefixed: bool)
    requires numBase <= 16 && forall k :: 0 <= k < |ds| ==> ds[k] < numBase
    ensures Scanned(TextOf(ds), numBase, prefixed)
         == Scan(ValueOf(ds, numBase), |ds|, prefixed || ds != [], false, false)
  {
    if ds != [] {
      var n := |ds| - 1;
      ScanText(ds[..n], numBase, prefixed);
      ScanOne(TextOf(ds[..n]), ds[n], numBase, prefixed);
    }
  }

  predicate IsPrefix(prefix: string, numBase: nat) {
    || (prefix in {"0b", "0B"} && numBase == 2) || (prefix in {"0o", "0O"} && numBase == 8)
    || (prefix in {"0x", "0X"} && numBase == 16)
  }

  lemma ParsePrefixed(prefix: string, digits: string, numBase: nat)
    requires IsPrefix(prefix, numBase)
    ensures ParseInt(prefix + digits) == Scannable(digits, numBase, true)
  {
    assert |prefix| == 2 && (prefix + digits)[2..] == digits;
  }

  /** The literals that Go's integer syntax allows besides plain decimals: binary, octal and hexadecimal. */
  lemma ParseLiteral(prefix: string, ds: seq<nat>, numBase: nat)
    requires IsPrefix(prefix, numBase) && ds != [] && forall k :: 0 <= k < |ds| ==> ds[k] < numBase
    ensures ParseInt(prefix + TextOf(ds)) == Some(ValueOf(ds, numBase))
  {
    ScanText(ds, numBase, true);
    ParsePrefixed(prefix, TextOf(ds), numBase);
  }

  lemma ValueSnoc(read: seq<nat>, ds: seq<nat>, numBase: nat)
    requires ds != []
    ensures ValueOf(read + ds, numBase) == ValueOf(read + ds[..|ds| - 1], numBase) * numBase + ds[|ds| - 1]
  {
    assert (read + ds)[..|read + ds| - 1] == read + ds[..|ds| - 1];
  }

  /** Digits `ds` after a text that was read as the digits `read`. */
  lemma {:induction false} ScanOn(s: string, read: seq<nat>, ds: seq<nat>, numBase: nat, prefixed: bool)
    requires numBase <= 16 && forall k :: 0 <= k < |ds| ==> ds[k] < numBase
    requires Scanned(s, numBase, prefixed).value == ValueOf(read, numBase)
    ensures var before, after := Scanned(s, numBase, prefixed), Scanned(s + TextOf(ds), numBase, prefixed);
            && after.value == ValueOf(read + ds, numBase) && after.count == before.count + |ds| && after.bad == before.bad
            && (ds != [] ==> after.afterDigit && !after.afterSeparator)
  {
    if ds == [] {
      assert s + TextOf(ds) == s && read + ds == read;
    } else {
      var n := |ds| - 1;
      ScanOn(s, read, ds[..n], numBase, prefixed);
      ValueSnoc(read, ds, numBase);
      ScanOne(s + TextOf(ds[..n]), ds[n], numBase, prefixed);
      assert s + TextOf(ds) == (s + TextOf(ds[..n])) + [DigitChar(ds[n])];
    }
  }

  /** An underscore between digits does not change the number; one at the end, or two together, is refused. */
  lemma ParseSeparated(a: seq<nat>, b: seq<nat>, numBase: nat, prefixed: bool)
    requires numBase <= 16 && a != [] && b != []
    requires (forall k :: 0 <= k < |a| ==> a[k] < numBase) && forall k :: 0 <= k < |b| ==> b[k] < numBase
    ensures Scannable(TextOf(a) + "_" + TextOf(b), numBase, prefixed) == Some(ValueOf(a + b, numBase))
    ensures Scannable(TextOf(a) + "_", numBase, prefixed).None?
    ensures Scannable(TextOf(a) + "__" + TextOf(b), numBase, prefixed).None?
  {
    ScanText(a, numBase, prefixed);
    var one, two := TextOf(a) + "_", TextOf(a) + "__";
    assert one[..|one| - 1] == TextOf(a) && two[..|two| - 1] == one;
    ScanOn(one, a, b, numBase, prefixed);
    ScanOn(two, a, b, numBase, prefixed);
  }

  lemma ParseSigned(n: nat)
    ensures ParseInt("+" + Digits(n)) == Some(n) && ParseInt("-" + Digits(n)) == Some(0 - n)
  {
    ParseDigits(n);
    DigitsAreDigits(n);
    assert ("+" + Digits(n))[1..] == Digits(n) && ("-" + Digits(n))[1..] == Digits(n);
  }

  lemma TrimNothing(s: string)
    requires s != [] && !IsSpace(s[0]) && !IsSpace(s[|s| - 1])
    ensures TrimSpace(s) == s
  {
  }

  predicate AllSpace(s: string) {
    forall k :: 0 <= k < |s| ==> IsSpace(s[k])
  }

  /** Spaces around a text that neither starts nor ends with one are cut off. */
  lemma {:induction false} TrimAround(a: string, s: string, b: string)
    requires AllSpace(a) && AllSpace(b) && s != [] && !IsSpace(s[0]) && !IsSpace(s[|s| - 1])
    ensures TrimSpace(a + s + b) == s
    decreases |a| + |b|
  {
    if a != [] {
      assert (a + s + b)[1..] == a[1..] + s + b;
      TrimAround(a[1..], s, b);
    } else if b != [] {
      var n := |b| - 1;
      assert a + s + b == s + b && (s + b)[..|s + b| - 1] == s + b[..n] == a + s + b[..n];
      TrimAround(a, s, b[..n]);
      TrimRightStep(s + b);
    } else {
      assert a + s + b == s;
    }
  }

  lemma TrimRightStep(t: string)
    requires t != [] && !IsSpace(t[0]) && IsSpace(t[|t| - 1])
    ensures TrimSpace(t) == TrimRight(t[..|t| - 1]) == TrimSpace(t[..|t| - 1])
  {
    assert t[..|t| - 1] != [] && !IsSpace(t[..|t| - 1][0]);
  }

  /** An element of plain digits, hardened or not, with any spaces: the step it stands for, or out of range. */
  lemma ElemOfDigits(n: nat, hardened: bool, a: string, b: string, c: string)
    requires AllSpace(a) && AllSpace(b) && AllSpace(c)
    ensures ParseElem(a + (if hardened then Digits(n) + b + "'" else Digits(n)) + c)
         == if n + (if hardened then HARDENED else 0) <= MAX_UINT32 then Step(n + (if hardened then HARDENED else 0)) else Bad(OutOfRange)
  {
    var inner := if hardened then Digits(n) + b + "'" else Digits(n);
    DigitsAreDigits(n);
    ParseDigits(n);
    TrimAround(a, inner, c);
    if hardened { DigitsBeforeMark(n, b); }
  }

  lemma DigitsBeforeMark(n: nat, b: string)
    requires AllSpace(b)
    ensures var marked := Digits(n) + b + "'"; TrimSpace(marked[..|marked| - 1]) == Digits(n)
  {
    var marked := Digits(n) + b + "'";
    DigitsAreDigits(n);
    TrimAround([], Digits(n), b);
    assert marked[..|marked| - 1] == [] + Digits(n) + b;
  }

  lemma ElemRoundTrip(c: u32)
    ensures ParseElem(Component(c)) == Step(c)
    ensures '/' !in Component(c) && Component(c) != ""
  {
    var n := if c >= HARDENED then c - HARDENED else c;
    DigitsAreDigits(n);
    ElemOfDigits(n, c >= HARDENED, [], [], []);
    assert [] + Component(c) + [] == Component(c);
    assert Digits(n) + [] + "'" == Digits(n) + "'";
  }

  ghost predicate ReadsAs(elem: string, value: u32) {
    ParseElem(elem) == Step(value)
  }

  lemma {:induction false} ElemsReadAs(elems: seq<string>, path: seq<u32>)
    requires |elems| == |path| && forall k :: 0 <= k < |path| ==> ReadsAs(elems[k], path[k])
    ensures ParseElems(elems) == Ok(path)
  {
    if path != [] {
      var n := |path| - 1;
      ElemsReadAs(elems[..n], path[..n]);
      assert ReadsAs(elems[n], path[n]);
      assert path[..n] + [path[n]] == path;
    }
  }

  lemma ElemsRoundTrip(path: seq<u32>)
    ensures ParseElems(Components(path)) == Ok(path)
  {
    forall k | 0 <= k < |path| ensures ReadsAs(Components(path)[k], path[k]) {
      ElemRoundTrip(path[k]);
    }
    ElemsReadAs(Components(path), path);
  }

  lemma PartsSplitBack(path: seq<u32>)
    requires path != []
    ensures Split(Printed(path), '/') == ["m"] + Components(path)
    ensures "" !in ["m"] + Components(path)
  {
    var parts := ["m"] + Components(path);
    forall k | 0 <= k < |parts| ensures '/' !in parts[k] && parts[k] != "" {
      if k > 0 { ElemRoundTrip(path[k - 1]); }
    }
    SplitJoin(parts, '/');
  }

  /** Parsing the printed form of a non-empty path, absolute or not, returns the path, hardened steps included. */
  lemma RoundTrip(path: seq<u32>, checkAbsolute: bool)
    requires path != []
    ensures Parsed(Printed(path), checkAbsolute) == Ok(path)
  {
    PartsSplitBack(path);
    assert Printed(path) != "" by { assert Split("", '/') == [""]; }
    TrimNothing("m");
    ElemsRoundTrip(path);
    assert (["m"] + Components(path))[1..] == Components(path);
  }

  /** Through the root parser exactly the two-step paths with both steps hardened come back; others fail for the stated reason. */
  lemma RootRoundTrip(path: seq<u32>)
    ensures ParsedRoot(Printed(path))
         == if path == [] then Err(MissingPath)
            else if |path| != 2 then Err(InvalidRootLen)
            else if path[0] < HARDENED || path[1] < HARDENED then Err(InvalidRoot)
            else Ok(path)
  {
    if path != [] { RoundTrip(path, true); }
  }

  // ---- Which strings parse ----

  /** The elements after the leading `m`, if there is one. */
  function Steps(elems: seq<string>): seq<string> {
    if elems != [] && TrimSpace(elems[0]) == "m" then elems[1..] else elems
  }

  predicate IsStep(elem: string) {
    ParseElem(elem).Step?
  }

  ghost predicate AllSteps(elems: seq<string>) {
    forall k :: 0 <= k < |elems| ==> IsStep(elems[k])
  }

  /** Two or more elements, none empty, the first of them `m` where an absolute path is asked for. */
  predicate WellShaped(elems: seq<string>, checkAbsolute: bool) {
    |elems| >= 2 && "" !in elems && (checkAbsolute ==> elems[0] == "m")
  }

  lemma ParsedByShape(s: string, checkAbsolute: bool)
    ensures var elems := Split(s, '/');
            if WellShaped(elems, checkAbsolute) then Parsed(s, checkAbsolute) == ParseElems(Steps(elems)) else Parsed(s, checkAbsolute).Err?
  {
    if s == "" { assert Split(s, '/') == [""]; }
  }

  ghost predicate AllRead(elems: seq<string>, path: seq<u32>) {
    |path| == |elems| && forall k :: 0 <= k < |elems| ==> ReadsAs(elems[k], path[k])
  }

  lemma {:induction false} ElemsOk(elems: seq<string>)
    ensures ParseElems(elems).Ok? <==> AllSteps(elems)
    ensures ParseElems(elems).Err? ==> ParseElems(elems).error in {InvalidElem, OutOfRange}
  {
    if elems != [] {
      var n := |elems| - 1;
      ElemsOk(elems[..n]);
      AllStepsSnoc(elems);
      assert IsStep(elems[n]) <==> ParseElem(elems[n]).Step?;
    }
  }

  lemma AllStepsSnoc(elems: seq<string>)
    requires elems != []
    ensures AllSteps(elems) <==> AllSteps(elems[..|elems| - 1]) && IsStep(elems[|elems| - 1])
  {
    var n := |elems| - 1;
    if AllSteps(elems[..n]) {
      forall k | 0 <= k < n ensures IsStep(elems[k]) { assert IsStep(elems[..n][k]); }
    }
  }

  lemma {:induction false} ElemsRead(elems: seq<string>)
    requires ParseElems(elems).Ok?
    ensures AllRead(elems, ParseElems(elems).path)
  {
    if elems != [] {
      var n := |elems| - 1;
      ElemsRead(elems[..n]);
      var path := ParseElems(elems).path;
      assert path == path[..n] + [path[n]] && path[..n] == ParseElems(elems[..n]).path;
      forall k | 0 <= k < |elems| ensures ReadsAs(elems[k], path[k]) {
        if k < n { assert ReadsAs(elems[..n][k], path[..n][k]); }
      }
    }
  }

  /** A string parses if and only if it has two or more elements between slashes, none of them empty, the first of them `m`
      where an absolute path is asked for, and every step is a number in range; the path then holds those numbers. */
  lemma ParsesExactly(s: string, checkAbsolute: bool)
    ensures Parsed(s, checkAbsolute).Ok? <==> WellShaped(Split(s, '/'), checkAbsolute) && AllSteps(Steps(Split(s, '/')))
    ensures Parsed(s, checkAbsolute).Ok? ==> AllRead(Steps(Split(s, '/')), Parsed(s, checkAbsolute).path)
  {
    ParsedByShape(s, checkAbsolute);
    ElemsOk(Steps(Split(s, '/')));
    if Parsed(s, checkAbsolute).Ok? { ElemsRead(Steps(Split(s, '/'))); }
  }

  /** What a refused string lacks. */
  lemma RefusedFor(s: string, checkAbsolute: bool)
    ensures Parsed(s, checkAbsolute) == Err(MissingPath) <==> s == ""
    ensures Parsed(s, checkAbsolute) == Err(NotAbsolute) <==>
              checkAbsolute && s != "" && "" !in Split(s, '/') && Split(s, '/')[0] != "m"
    ensures Parsed(s, checkAbsolute) == Err(Malformed) <==>
              s != "" && ("" in Split(s, '/') || (|Split(s, '/')| < 2 && (checkAbsolute ==> Split(s, '/')[0] == "m")))
    ensures Parsed(s, checkAbsolute).Err? ==> Parsed(s, checkAbsolute).error !in {InvalidRootLen, InvalidRoot}
  {
    ElemsOk(Steps(Split(s, '/')));
  }

  /** Where an absolute path is asked for, only strings that begin with `m/` parse. */
  lemma AbsoluteBegins(s: string)
    requires Parsed(s, true).Ok?
    ensures |s| >= 2 && s[..2] == "m/"
  {
    JoinSplit(s, '/');
    JoinStarts(Split(s, '/'), '/');
    assert "m" + ['/'] == "m/";
  }

  /** The root parser accepts exactly the absolute paths of two hardened steps. */
  lemma RootParses(s: string)
    ensures ParsedRoot(s).Ok? <==>
              Parsed(s, true).Ok? && |Parsed(s, true).path| == 2
              && Parsed(s, true).path[0] >= HARDENED && Parsed(s, true).path[1] >= HARDENED
    ensures ParsedRoot(s).Ok? ==> ParsedRoot(s) == Parsed(s, true) && |s| >= 2 && s[..2] == "m/"
    ensures Parsed(s, true).Err? ==> ParsedRoot(s) == Parsed(s, true)
    ensures ParsedRoot(s) == Err(InvalidRootLen) <==> Parsed(s, true).Ok? && |Parsed(s, true).path| != 2
  {
    RefusedFor(s, true);
    if Parsed(s, true).Ok? { AbsoluteBegins(s); }
  }
}
