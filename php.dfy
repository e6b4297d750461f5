/** The parts of PHP's value semantics that the importer and the feed renderer
    depend on: decoded JSON values as PHP arrays and scalars, `isset` and `??`,
    truthiness, loose comparison against integers, string conversion, `trim`,
    `explode` on a comma, and `json_encode`. */
module Php {

  datatype Option<+T> = None | Some(value: T) {
    function GetOr(default: T): T {
      if Some? then value else default
    }
  }

  /** A decoded JSON value as PHP holds it. JSON objects and lists both become
      insertion-ordered arrays; PHP treats the integer key k and the string "k"
      as the same key, so list positions are written "0", "1", ... */
  datatype Json =
    | JNull
    | JBool(b: bool)
    | JInt(i: int)
    | JStr(s: string)
    | JMap(entries: seq<(string, Json)>)

  type Entries = seq<(string, Json)>

  /** What evaluating a PHP expression yields: a value, a warning (which the
      framework's error handler rethrows as a catchable ErrorException), or a
      TypeError (an Error, which no `catch (\Exception $e)` catches). */
  datatype Eval<+T> = Value(v: T) | Warning | TypeError {
    /** The value, or `default` when evaluation raised. */
    function Or(default: T): T {
      if Value? then v else default
    }
  }

  // ---------------------------------------------------------------------------
  // Array access

  /** The value stored under key `k`, if the key is present. */
  function Find(m: Entries, k: string): (r: Option<Json>)
    ensures r.Some? ==> (k, r.value) in m
    ensures r.None? ==> forall e :: e in m ==> e.0 != k
  {
    if |m| == 0 then None
    else if m[0].0 == k then Some(m[0].1)
    else Find(m[1..], k)
  }

  /** `isset($m[k])` together with the value it guards: present and not null. */
  function Get(m: Entries, k: string): Option<Json> {
    match Find(m, k)
    case Some(v) => if v == JNull then None else Some(v)
    case None => None
  }

  /** `$m[k] ?? d`. */
  function Coalesce(m: Entries, k: string, d: Json): Json {
    Get(m, k).GetOr(d)
  }

  /** The values of an array, in insertion order (what `foreach` visits). */
  function Values(m: Entries): (vs: seq<Json>)
    ensures |vs| == |m|
    ensures forall k :: 0 <= k < |m| ==> vs[k] == m[k].1
  {
    if |m| == 0 then [] else [m[0].1] + Values(m[1..])
  }

  /** PHP truthiness: what `if ($x)`, `?:` and `!empty($x)` test. */
  predicate Truthy(j: Json) {
    match j
    case JNull => false
    case JBool(b) => b
    case JInt(i) => i != 0
    case JStr(s) => s != "" && s != "0"
    case JMap(es) => |es| > 0
  }

  // ---------------------------------------------------------------------------
  // Decimal text

  predicate IsDigit(c: char) {
    '0' <= c <= '9'
  }

  predicate AllDigits(s: string) {
    forall k :: 0 <= k < |s| ==> IsDigit(s[k])
  }

  function DigitChar(d: nat): (c: char)
    requires d < 10
    ensures IsDigit(c) && c as int - '0' as int == d
  {
    "0123456789"[d]
  }

  /** The decimal text of a natural number, most significant digit first. */
  function NatToString(n: nat): (s: string)
    ensures |s| > 0 && AllDigits(s)
    ensures |s| > 1 ==> s[0] != '0'
  {
    if n < 10 then [DigitChar(n)] else NatToString(n / 10) + [DigitChar(n % 10)]
  }

  /** PHP's `(string)` of an integer. */
  function IntToString(i: int): (s: string)
    ensures |s| > 0
  {
    if i < 0 then "-" + NatToString(-i) else NatToString(i)
  }

  /** The value of a string of decimal digits. */
  function DigitsValue(ds: string): nat
    requires AllDigits(ds)
  {
    if |ds| == 0 then 0
    else DigitsValue(ds[..|ds| - 1]) * 10 + (ds[|ds| - 1] as int - '0' as int)
  }

  lemma {:induction false} NatToStringValue(n: nat)
    ensures DigitsValue(NatToString(n)) == n
  {
    var s := NatToString(n);
    if n >= 10 {
      NatToStringValue(n / 10);
      assert s[..|s| - 1] == NatToString(n / 10);
    }
  }

  // ---------------------------------------------------------------------------
  // Numeric strings (the integer forms; PHP 8 rules)

  /** The whitespace PHP allows around a numeric string. */
  predicate IsNumericSpace(c: char) {
    c == ' ' || c == '\t' || c == '\n' || c == '\r' || c == '\U{B}' || c == '\U{C}'
  }

  /** Length of the longest prefix of `s` made of numeric whitespace. */
  function SpaceSpan(s: string): (n: nat)
    ensures n <= |s|
    ensures forall k :: 0 <= k < n ==> IsNumericSpace(s[k])
    ensures n < |s| ==> !IsNumericSpace(s[n])
  {
    if |s| > 0 && IsNumericSpace(s[0]) then 1 + SpaceSpan(s[1..]) else 0
  }

  /** Length of the longest prefix of `s` made of decimal digits. */
  function DigitSpan(s: string): (n: nat)
    ensures n <= |s|
    ensures AllDigits(s[..n])
    ensures n < |s| ==> !IsDigit(s[n])
  {
    if |s| > 0 && IsDigit(s[0]) then 1 + DigitSpan(s[1..]) else 0
  }

  /** How PHP 8 reads a string as a number, for strings of integer form:
      a numeric string (whitespace, sign, digits, whitespace), a leading-numeric
      string (digits followed by other text, read with a warning), or neither. */
  datatype Numeric = IntegerString(value: int) | LeadingInteger(value: int) | NotNumeric

  function Classify(s: string): Numeric {
    ClassifySigned(s[SpaceSpan(s)..])
  }

  /** A leading `-` negates what follows, a leading `+` is dropped. */
  function ClassifySigned(rest: string): Numeric {
    if |rest| > 0 && rest[0] == '-' then Negated(ClassifyDigits(rest[1..]))
    else if |rest| > 0 && rest[0] == '+' then ClassifyDigits(rest[1..])
    else ClassifyDigits(rest)
  }

  function Negated(n: Numeric): Numeric {
    match n
    case IntegerString(v) => IntegerString(-v)
    case LeadingInteger(v) => LeadingInteger(-v)
    case NotNumeric => NotNumeric
  }

  /** Digits followed only by whitespace, digits followed by other text, or no
      digit at all. */
  function ClassifyDigits(body: string): Numeric {
    var d := DigitSpan(body);
    if d == 0 then NotNumeric
    else if SpaceSpan(body[d..]) == |body| - d then IntegerString(DigitsValue(body[..d]))
    else LeadingInteger(DigitsValue(body[..d]))
  }

  /** A digit string is read whole as the number it spells. */
  lemma DigitsRead(ds: string)
    requires |ds| > 0 && AllDigits(ds)
    ensures ClassifyDigits(ds) == IntegerString(DigitsValue(ds))
  {
    DigitSpanAll(ds);
    assert ds[..|ds|] == ds;
  }

  lemma {:induction false} DigitSpanAll(ds: string)
    requires AllDigits(ds)
    ensures DigitSpan(ds) == |ds|
  {
    if |ds| > 0 {
      DigitSpanAll(ds[1..]);
    }
  }

  /** Text that starts with a digit or a sign has no leading whitespace. */
  lemma SignedRead(s: string)
    requires |s| > 0 && (IsDigit(s[0]) || s[0] == '-')
    ensures Classify(s) == ClassifySigned(s)
  {
    assert SpaceSpan(s) == 0;
    assert s[0..] == s;
  }

  lemma NatTextRead(n: nat)
    ensures Classify(NatToString(n)) == IntegerString(n)
  {
    var ds := NatToString(n);
    NatToStringValue(n);
    SignedRead(ds);
    DigitsRead(ds);
  }

  lemma NegativeTextRead(n: nat)
    ensures Classify("-" + NatToString(n)) == IntegerString(-(n as int))
  {
    var ds := NatToString(n);
    var s := "-" + ds;
    NatToStringValue(n);
    SignedRead(s);
    assert s[1..] == ds;
    DigitsRead(ds);
  }

  /** The decimal text of every integer reads back as that integer. */
  lemma IntToStringClassify(i: int)
    ensures Classify(IntToString(i)) == IntegerString(i)
  {
    if i < 0 {
      var n: nat := -i;
      NegativeTextRead(n);
      assert IntToString(i) == "-" + NatToString(n);
    } else {
      NatTextRead(i);
      assert IntToString(i) == NatToString(i);
    }
  }

  /** The integer an array offset string stands for: PHP turns a canonical
      decimal string such as "12" or "-3" into the integer key. */
  function CanonicalInt(s: string): (r: Option<int>)
    ensures r.Some? ==> IntToString(r.value) == s
  {
    match Classify(s)
    case IntegerString(v) => if IntToString(v) == s then Some(v) else None
    case _ => None
  }

  lemma CanonicalIntOfIntToString(i: int)
    ensures CanonicalInt(IntToString(i)) == Some(i)
  {
    IntToStringClassify(i);
  }

  /** The integer key `$table[$j]` looks up, if `$j` selects an integer key at
      all (null selects "", a non-canonical string selects itself). An array
      offset is a TypeError and is handled by the caller. */
  function OffsetInt(j: Json): Option<int> {
    match j
    case JNull => None
    case JBool(b) => Some(if b then 1 else 0)
    case JInt(i) => Some(i)
    case JStr(s) => CanonicalInt(s)
    case JMap(_) => None
  }

  /** `$j == n` in PHP 8 for an integer `n`. */
  predicate LooseEqInt(j: Json, n: int) {
    match j
    case JNull => n == 0
    case JBool(b) => b == (n != 0)
    case JInt(i) => i == n
    case JStr(s) => Classify(s).IntegerString? && Classify(s).value == n
    case JMap(_) => false
  }

  /** A name that starts with a letter: never numeric, never falsy. */
  predicate IsName(s: string) {
    |s| > 0 && ('A' <= s[0] <= 'Z' || 'a' <= s[0] <= 'z')
  }

  lemma NameNotNumeric(s: string)
    requires IsName(s)
    ensures Classify(s).NotNumeric? && s != "" && s != "0"
  {
    assert SpaceSpan(s) == 0;
    assert s[SpaceSpan(s)..] == s;
    assert DigitSpan(s) == 0;
  }

  /** A string handed to an `int` parameter without strict types: an
      integer string is converted, a leading-numeric one is converted with a
      warning, and any other string is a TypeError. */
  function IntArgument(arg: string): (r: Eval<int>)
    ensures r.Value? <==> Classify(arg).IntegerString?
    ensures r.Warning? <==> Classify(arg).LeadingInteger?
    ensures r.TypeError? <==> Classify(arg).NotNumeric?
    ensures r.Value? ==> r.v == Classify(arg).value
  {
    match Classify(arg)
    case IntegerString(v) => Value(v)
    case LeadingInteger(_) => Warning
    case NotNumeric => TypeError
  }

  /** The key of a list element, the decimal text of its position, passes as
      that integer. */
  lemma IntArgumentOfIndex(i: int)
    ensures IntArgument(IntToString(i)) == Value(i)
  {
    IntToStringClassify(i);
  }

  /** A key that is a name is refused with a TypeError. */
  lemma IntArgumentOfName(s: string)
    requires IsName(s)
    ensures IntArgument(s) == TypeError
  {
    NameNotNumeric(s);
  }

  /** `$j == s` in PHP 8 for a name `s`: a string compares as text, `true`
      equals any non-empty name, and integers, null and arrays never match. */
  predicate LooseEqText(j: Json, s: string)
    requires IsName(s)
  {
    match j
    case JNull => false
    case JBool(b) => b
    case JInt(i) => false
    case JStr(t) => t == s
    case JMap(_) => false
  }

  /** Byte-wise string order `a < b` (code point order is UTF-8 byte order). */
  predicate TextLess(a: string, b: string) {
    if |a| == 0 then |b| > 0
    else if |b| == 0 then false
    else if a[0] != b[0] then a[0] < b[0]
    else TextLess(a[1..], b[1..])
  }

  /** `$j >= n` in PHP 8 for an integer `n`: a numeric string compares by value,
      any other string compares as text with the decimal text of `n`; an array
      is greater than every integer; a boolean compares as a boolean. */
  predicate LooseAtLeast(j: Json, n: int) {
    match j
    case JNull => n == 0
    case JBool(b) => b || n == 0
    case JInt(i) => i >= n
    case JStr(s) =>
      if Classify(s).IntegerString? then Classify(s).value >= n
      else !TextLess(s, IntToString(n))
    case JMap(_) => true
  }

  /** `(string) $j`, and what `.` concatenation does with `$j`. */
  function StringValue(j: Json): (r: Eval<string>)
    ensures r.Warning? <==> j.JMap?
    ensures !r.TypeError?
  {
    match j
    case JNull => Value("")
    case JBool(b) => Value(if b then "1" else "")
    case JInt(i) => Value(IntToString(i))
    case JStr(s) => Value(s)
    case JMap(_) => Warning
  }

  // ---------------------------------------------------------------------------
  // trim

  /** The characters PHP's `trim` removes by default. */
  predicate IsTrimChar(c: char) {
    c == ' ' || c == '\t' || c == '\n' || c == '\r' || c == '\0' || c == '\U{B}'
  }

  function TrimStart(s: string): (t: string)
    ensures |t| <= |s| && t == s[|s| - |t|..]
    ensures forall k :: 0 <= k < |s| - |t| ==> IsTrimChar(s[k])
    ensures |t| > 0 ==> !IsTrimChar(t[0])
  {
    if |s| > 0 && IsTrimChar(s[0]) then TrimStart(s[1..]) else s
  }

  function TrimEnd(s: string): (t: string)
    ensures |t| <= |s| && t == s[..|t|]
    ensures forall k :: |t| <= k < |s| ==> IsTrimChar(s[k])
    ensures |t| > 0 ==> !IsTrimChar(t[|t| - 1])
  {
    if |s| > 0 && IsTrimChar(s[|s| - 1]) then TrimEnd(s[..|s| - 1]) else s
  }

  /** `trim($s)`: the infix of `s` left after dropping trim characters at both
      ends; it is empty exactly when `s` holds nothing but trim characters. */
  function Trim(s: string): (t: string)
    ensures |t| > 0 ==> !IsTrimChar(t[0]) && !IsTrimChar(t[|t| - 1])
    ensures t == [] <==> forall k :: 0 <= k < |s| ==> IsTrimChar(s[k])
  {
    var a := TrimStart(s);
    var t := TrimEnd(a);
    assert |t| > 0 ==> t[0] == a[0];
    assert |a| > 0 ==> |t| > 0;
    t
  }

  // ---------------------------------------------------------------------------
  // explode(',', ...)

  /** `explode(',', $s)`: the pieces between commas, at least one. */
  function Explode(s: string): (parts: seq<string>)
    ensures |parts| >= 1
    ensures forall k :: 0 <= k < |parts| ==> ',' !in parts[k]
  {
    if |s| == 0 then [""]
    else
      var rest := Explode(s[1..]);
      if s[0] == ',' then [""] + rest else [[s[0]] + rest[0]] + rest[1..]
  }

  /** `implode(',', $parts)`. */
  function Implode(parts: seq<string>): string
    requires |parts| >= 1
  {
    if |parts| == 1 then parts[0] else parts[0] + "," + Implode(parts[1..])
  }

  /** Exploding on commas loses nothing: imploding the pieces gives `s` back. */
  lemma {:induction false} ImplodeExplode(s: string)
    ensures Implode(Explode(s)) == s
  {
    if |s| > 0 {
      var rest := Explode(s[1..]);
      ImplodeExplode(s[1..]);
      if s[0] == ',' {
        assert Explode(s)[1..] == rest;
      } else if |rest| == 1 {
        assert Explode(s) == [[s[0]] + rest[0]];
      } else {
        assert Explode(s)[1..] == rest[1..];
        assert Implode(rest) == rest[0] + "," + Implode(rest[1..]);
      }
    }
  }

  /** Comma-free pieces survive the round trip: exploding their implosion
      gives them back. */
  lemma {:induction false} ExplodeImplode(parts: seq<string>)
    requires |parts| >= 1
    requires forall k :: 0 <= k < |parts| ==> ',' !in parts[k]
    ensures Explode(Implode(parts)) == parts
    decreases |parts|
  {
    if |parts| == 1 {
      ExplodeNoComma(parts[0]);
    } else {
      ExplodeImplode(parts[1..]);
      ExplodeBeforeComma(parts[0], Implode(parts[1..]));
      assert parts == [parts[0]] + parts[1..];
    }
  }

  /** A comma-free string is one piece. */
  lemma {:induction false} ExplodeNoComma(p: string)
    requires ',' !in p
    ensures Explode(p) == [p]
  {
    if |p| > 0 {
      ExplodeNoComma(p[1..]);
      assert [p[0]] + p[1..] == p;
    }
  }

  /** A comma-free prefix followed by a comma is the first piece. */
  lemma {:induction false} ExplodeBeforeComma(a: string, t: string)
    requires ',' !in a
    ensures Explode(a + "," + t) == [a] + Explode(t)
  {
    var s := a + "," + t;
    if |a| == 0 {
      assert s == "," + t;
      assert s[1..] == t;
    } else {
      assert s[1..] == a[1..] + "," + t;
      ExplodeBeforeComma(a[1..], t);
      assert [a[0]] + a[1..] == a;
    }
  }

  /** A character other than a comma joins the first piece of the rest. */
  lemma ExplodeStep(s: string, rest: string)
    requires |s| > 0 && s[0] != ',' && s[1..] == rest
    ensures Explode(s) == [[s[0]] + Explode(rest)[0]] + Explode(rest)[1..]
  {
  }

  // ---------------------------------------------------------------------------
  // json_encode (default flags)

  const HexDigits: string := "0123456789abcdef"

  function Hex4(n: nat): (s: string)
    requires n < 0x10000
    ensures |s| == 4
  {
    [HexDigits[n / 0x1000], HexDigits[n / 0x100 % 0x10], HexDigits[n / 0x10 % 0x10], HexDigits[n % 0x10]]
  }

  /** One character of a JSON string literal as `json_encode` writes it: quote,
      backslash and slash escaped, control characters and every non-ASCII
      character written as `\u` escapes of their UTF-16 code units. */
  function EscapeChar(c: char): (e: string)
    ensures |e| > 0
  {
    var n := c as int;
    if c == '"' then "\\\""
    else if c == '\\' then "\\\\"
    else if c == '/' then "\\/"
    else if n == 8 then "\\b"
    else if n == 12 then "\\f"
    else if c == '\n' then "\\n"
    else if c == '\r' then "\\r"
    else if c == '\t' then "\\t"
    else if n < 0x20 then "\\u" + Hex4(n)
    else if n < 0x80 then [c]
    else if n < 0x10000 then "\\u" + Hex4(n)
    else "\\u" + Hex4(0xD800 + (n - 0x10000) / 0x400) + "\\u" + Hex4(0xDC00 + (n - 0x10000) % 0x400)
  }

  function EscapeText(s: string): string {
    if |s| == 0 then "" else EscapeChar(s[0]) + EscapeText(s[1..])
  }

  function Quote(s: string): (q: string)
    ensures |q| >= 2
  {
    "\"" + EscapeText(s) + "\""
  }

  /** An array is written as a JSON list when its keys are 0, 1, ... in order. */
  predicate IsList(es: Entries) {
    forall k :: 0 <= k < |es| ==> es[k].0 == IntToString(k)
  }

  function JoinComma(parts: seq<string>): string {
    if |parts| == 0 then "" else if |parts| == 1 then parts[0] else parts[0] + "," + JoinComma(parts[1..])
  }

  /** `json_encode($j)`: never empty. */
  function JsonText(j: Json): (t: string)
    ensures |t| > 0
  {
    match j
    case JNull => "null"
    case JBool(b) => if b then "true" else "false"
    case JInt(i) => IntToString(i)
    case JStr(s) => Quote(s)
    case JMap(es) =>
      if IsList(es) then
        "[" + JoinComma(seq(|es|, k requires 0 <= k < |es| => JsonText(es[k].1))) + "]"
      else
        "{" + JoinComma(seq(|es|, k requires 0 <= k < |es| => Quote(es[k].0) + ":" + JsonText(es[k].1))) + "}"
  }
}
