/**
 * JSON values as the browser holds them once a response body has been parsed,
 * together with the handful of JavaScript built-ins the upload component applies
 * to them: truthiness, property access, `String(v)`, `Array.prototype.join`,
 * `String.prototype.trim`, `toLowerCase` and `length`.
 */
module JsonValue {
  import opened Wrappers

  /** A parsed JSON value. Numbers are integers here (see README, "Left out"). */
  datatype Json =
    | JNull
    | JBool(b: bool)
    | JNum(n: int)
    | JStr(s: string)
    | JArr(items: seq<Json>)
    | JObj(fields: map<string, Json>)

  /** JavaScript's ToBoolean on a JSON value: null, false, 0 and "" are falsy. */
  predicate Truthy(v: Json) {
    match v
    case JNull => false
    case JBool(b) => b
    case JNum(n) => n != 0
    case JStr(s) => s != ""
    case _ => true
  }

  /** ToBoolean on a property read; `undefined` (None) is falsy. */
  predicate TruthyProp(p: Option<Json>) {
    p.Some? && Truthy(p.value)
  }

  /**
   * `v.key` on a value that is not null. Only an object can carry the keys the
   * component reads (`files`, `detail`, `msg`, `loc`, `filename`, `content`);
   * on a string, a number, a boolean or an array they are `undefined`.
   * (On null the read throws a TypeError; callers decide what that means.)
   */
  function Prop(v: Json, key: string): Option<Json>
    requires v != JNull
  {
    if v.JObj? && key in v.fields then Some(v.fields[key]) else None
  }

  /**
   * Decimal text of an integer, as `String(n)` writes it: a minus sign exactly
   * for a negative number, then the digits of its magnitude with no leading zero.
   */
  function IntToString(n: int): (s: string)
    ensures s != []
    ensures n < 0 <==> s[0] == '-'
  {
    if n < 0 then "-" + NatToString(-n) else NatToString(n)
  }

  /** After the sign come the decimal digits of the magnitude, which read back as it. */
  lemma IntToStringDecimal(n: int)
    ensures var s := IntToString(n);
      && (n < 0 ==> IsDigits(s[1..]) && DigitsValue(s[1..]) == -n && s[1] != '0')
      && (n >= 0 ==> IsDigits(s) && DigitsValue(s) == n && (|s| > 1 ==> s[0] != '0'))
  {
    if n < 0 {
      assert IntToString(n)[1..] == NatToString(-n);
    }
  }

  /** The digits of a natural number, most significant first, without leading zeros. */
  function NatToString(n: nat): (s: string)
    ensures s != [] && IsDigits(s)
    ensures DigitsValue(s) == n
    ensures |s| > 1 ==> s[0] != '0'
    ensures n > 0 ==> s[0] != '0'
  {
    if n < 10 then [DigitChar(n)]
    else
      var init := NatToString(n / 10);
      assert (init + [DigitChar(n % 10)])[..|init|] == init;
      init + [DigitChar(n % 10)]
  }

  predicate IsDigits(s: string) {
    forall i :: 0 <= i < |s| ==> '0' <= s[i] <= '9'
  }

  /** The number a string of decimal digits denotes; the inverse of NatToString. */
  function DigitsValue(s: string): nat
    requires IsDigits(s)
  {
    if s == [] then 0
    else 10 * DigitsValue(s[..|s| - 1]) + (s[|s| - 1] as int - '0' as int)
  }

  function DigitChar(d: nat): (c: char)
    requires d < 10
    ensures '0' <= c <= '9' && c as int - '0' as int == d
  {
    "0123456789"[d]
  }

  /** `xs.join(sep)` on strings: the pieces with `sep` between neighbours. */
  function JoinStrings(xs: seq<string>, sep: string): string
  {
    if |xs| == 0 then ""
    else if |xs| == 1 then xs[0]
    else xs[0] + sep + JoinStrings(xs[1..], sep)
  }

  lemma {:induction false} JoinStartsWithFirst(xs: seq<string>, sep: string)
    requires xs != []
    ensures StartsWith(JoinStrings(xs, sep), xs[0])
  {
  }

  /** Joining two non-empty lists puts one separator between the two joins. */
  lemma {:induction false} JoinAppend(xs: seq<string>, ys: seq<string>, sep: string)
    requires xs != [] && ys != []
    ensures JoinStrings(xs + ys, sep) == JoinStrings(xs, sep) + sep + JoinStrings(ys, sep)
  {
    if |xs| > 1 {
      assert (xs + ys)[1..] == xs[1..] + ys;
      JoinAppend(xs[1..], ys, sep);
    }
  }

  /** The text `join` uses for one array element: null becomes "". */
  function ElementText(v: Json): string
    decreases v, 1
  {
    if v == JNull then "" else Text(v)
  }

  /**
   * `String(v)`: an array is its elements joined by ",", an object is
   * "[object Object]".
   */
  function Text(v: Json): string
    decreases v, 0
  {
    match v
    case JNull => "null"
    case JBool(b) => if b then "true" else "false"
    case JNum(n) => IntToString(n)
    case JStr(s) => s
    case JArr(items) => JoinStrings(seq(|items|, i requires 0 <= i < |items| => ElementText(items[i])), ",")
    case JObj(_) => "[object Object]"
  }

  /** `Array.prototype.join(sep)` on an array of JSON values. */
  function JoinValues(items: seq<Json>, sep: string): string
  {
    JoinStrings(seq(|items|, i requires 0 <= i < |items| => ElementText(items[i])), sep)
  }

  /** A template literal `${p}`: `undefined` is written out as "undefined". */
  function TemplateText(p: Option<Json>): string
  {
    match p
    case None => "undefined"
    case Some(v) => Text(v)
  }

  predicate StartsWith(s: string, prefix: string) {
    |prefix| <= |s| && s[..|prefix|] == prefix
  }

  predicate EndsWith(s: string, suffix: string) {
    |suffix| <= |s| && s[|s| - |suffix|..] == suffix
  }

  /** The characters `String.prototype.trim` removes: WhiteSpace and LineTerminator. */
  predicate IsTrimmable(c: char) {
    c == '\t' || c == '\n' || c == '\U{B}' || c == '\U{C}' || c == '\r' || c == ' '
    || c == '\U{A0}' || c == '\U{1680}' || ('\U{2000}' <= c <= '\U{200A}')
    || c == '\U{2028}' || c == '\U{2029}' || c == '\U{202F}' || c == '\U{205F}'
    || c == '\U{3000}' || c == '\U{FEFF}'
  }

  /** Drops the leading trimmable characters, and only those. */
  function TrimStart(s: string): (r: string)
    ensures r == [] || !IsTrimmable(r[0])
    ensures EndsWith(s, r)
    ensures forall i :: 0 <= i < |s| - |r| ==> IsTrimmable(s[i])
  {
    if s != [] && IsTrimmable(s[0]) then
      var r := TrimStart(s[1..]);
      assert s[1..][|s| - 1 - |r|..] == s[|s| - |r|..];
      r
    else s
  }

  /** Drops the trailing trimmable characters, and only those. */
  function TrimEnd(s: string): (r: string)
    ensures r == [] || !IsTrimmable(r[|r| - 1])
    ensures StartsWith(s, r)
    ensures forall i :: |r| <= i < |s| ==> IsTrimmable(s[i])
  {
    if s != [] && IsTrimmable(s[|s| - 1]) then
      var r := TrimEnd(s[..|s| - 1]);
      assert s[..|s| - 1][..|r|] == s[..|r|];
      r
    else s
  }

  /** `s.trim()`. */
  function Trim(s: string): string
  {
    TrimEnd(TrimStart(s))
  }

  /**
   * `toLowerCase` restricted to what can turn a character into an ASCII letter:
   * A-Z, and U+212A KELVIN SIGN, whose lowercase is "k". Every other character
   * keeps its case here; its real lowercase is never ASCII, so tests against
   * ASCII literals come out the same.
   */
  function LowerChar(c: char): char
  {
    if 'A' <= c <= 'Z' then (c as int + 32) as char
    else if c == '\U{212A}' then 'k'
    else c
  }

  function Lower(s: string): (r: string)
    ensures |r| == |s|
    ensures forall i :: 0 <= i < |s| ==> r[i] == LowerChar(s[i])
  {
    seq(|s|, i requires 0 <= i < |s| => LowerChar(s[i]))
  }

  /** A character outside the Basic Multilingual Plane: a surrogate pair in UTF-16. */
  predicate IsAstral(c: char) {
    c as int >= 0x1_0000
  }

  /** `s.length`: UTF-16 code units, two for a character outside the BMP. */
  function Utf16Length(s: string): (n: nat)
    ensures |s| <= n <= 2 * |s|
    ensures n == |s| <==> forall i :: 0 <= i < |s| ==> !IsAstral(s[i])
    ensures n == 2 * |s| <==> forall i :: 0 <= i < |s| ==> IsAstral(s[i])
  {
    if s == [] then 0
    else
      var init := s[..|s| - 1];
      assert forall i :: 0 <= i < |init| ==> init[i] == s[i];
      Utf16Length(init) + (if IsAstral(s[|s| - 1]) then 2 else 1)
  }

  /** The length of a concatenation is the sum of the lengths: units are counted character by character. */
  lemma {:induction false} Utf16LengthConcat(a: string, b: string)
    ensures Utf16Length(a + b) == Utf16Length(a) + Utf16Length(b)
    decreases |b|
  {
    if b == [] {
      assert a + b == a;
    } else {
      assert (a + b)[..|a + b| - 1] == a + b[..|b| - 1];
      Utf16LengthConcat(a, b[..|b| - 1]);
    }
  }

  /** One character counts one unit, or two outside the BMP. */
  lemma Utf16LengthChar(c: char)
    ensures Utf16Length([c]) == if IsAstral(c) then 2 else 1
  {
    assert [c][..0] == [];
  }
}
