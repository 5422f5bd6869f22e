/**
 JSON as the gateway uses it: a syntax tree, the compact printer of Go's
 json.Marshal and the parser of json.Unmarshal (RFC 8259).

 Numbers keep their literal, so printing never changes one.
*/
module Json {
  import opened Wrappers

  // ------------------------------------------------------------------ numbers

  predicate IsDigit(c: char) { '0' <= c <= '9' }

  /** The end of the run of digits of `s` that starts at `i`. */
  function DigitsEnd(s: string, i: nat): (e: nat)
    requires i <= |s|
    ensures i <= e <= |s|
    ensures forall k :: i <= k < e ==> IsDigit(s[k])
    ensures e < |s| ==> !IsDigit(s[e])
    decreases |s| - i
  {
    if i < |s| && IsDigit(s[i]) then DigitsEnd(s, i + 1) else i
  }

  /** The end of the integer part, `-? (0 | [1-9][0-9]*)`. */
  function IntegerEnd(s: string): (e: Option<nat>)
    ensures e.Some? ==> 0 < e.value <= |s|
  {
    var i := if s != "" && s[0] == '-' then 1 else 0;
    var d := DigitsEnd(s, i);
    if d == i then None else if s[i] == '0' then Some(i + 1) else Some(d)
  }

  function FractionEnd(s: string, i: nat): (e: Option<nat>)
    requires i <= |s|
    ensures e.Some? ==> i <= e.value <= |s|
  {
    if i < |s| && s[i] == '.' then
      var d := DigitsEnd(s, i + 1);
      if d == i + 1 then None else Some(d)
    else
      Some(i)
  }

  function ExponentStart(s: string, i: nat): (e: nat)
    requires i < |s|
    ensures i < e <= |s|
  {
    if i + 1 < |s| && (s[i + 1] == '+' || s[i + 1] == '-') then i + 2 else i + 1
  }

  function ExponentEnd(s: string, i: nat): (e: Option<nat>)
    requires i <= |s|
    ensures e.Some? ==> i <= e.value <= |s|
  {
    if i < |s| && (s[i] == 'e' || s[i] == 'E') then
      var g := ExponentStart(s, i);
      var d := DigitsEnd(s, g);
      if d == g then None else Some(d)
    else
      Some(i)
  }

  /** The length of the number at the front of `s`. */
  function NumberEnd(s: string): (e: Option<nat>)
    ensures e.Some? ==> 0 < e.value <= |s|
  {
    var i :- IntegerEnd(s);
    var f :- FractionEnd(s, i);
    ExponentEnd(s, f)
  }

  predicate IsNumber(s: string) { NumberEnd(s) == Some(|s|) }

  type NumberLiteral = s: string | IsNumber(s) witness "0"

  predicate ContinuesNumber(c: char) { IsDigit(c) || c == '.' || c == 'e' || c == 'E' }

  /** `t` repeats the first `n` characters of `s` and then stops, at its end or at a character no number goes on with. */
  ghost predicate CutAt(s: string, t: string, n: nat) {
    && n <= |s| && n <= |t| && t[..n] == s[..n]
    && (n < |t| ==> !ContinuesNumber(t[n]))
  }

  lemma CutChar(s: string, t: string, n: nat, i: nat)
    requires CutAt(s, t, n) && i < n
    ensures s[i] == t[i]
  {
    assert t[..n][i] == s[..n][i];
  }

  lemma {:induction false} DigitsEndCut(s: string, t: string, n: nat, i: nat)
    requires CutAt(s, t, n) && i <= n
    requires DigitsEnd(s, i) <= n
    ensures DigitsEnd(t, i) == DigitsEnd(s, i)
    decreases n - i
  {
    if i < n {
      CutChar(s, t, n, i);
      if IsDigit(s[i]) {
        DigitsEndCut(s, t, n, i + 1);
      }
    }
  }

  lemma IntegerEndCut(s: string, t: string, n: nat)
    requires CutAt(s, t, n) && IntegerEnd(s).Some? && IntegerEnd(s).value <= n
    ensures IntegerEnd(t) == IntegerEnd(s)
  {
    CutChar(s, t, n, 0);
    var i := if s[0] == '-' then 1 else 0;
    CutChar(s, t, n, i);
    if s[i] != '0' {
      DigitsEndCut(s, t, n, i);
    }
  }

  lemma FractionEndCut(s: string, t: string, n: nat, i: nat)
    requires CutAt(s, t, n) && i <= n && FractionEnd(s, i).Some? && FractionEnd(s, i).value <= n
    ensures FractionEnd(t, i) == FractionEnd(s, i)
  {
    if i < n {
      CutChar(s, t, n, i);
      if s[i] == '.' {
        DigitsEndCut(s, t, n, i + 1);
      }
    }
  }

  lemma ExponentEndCut(s: string, t: string, n: nat, i: nat)
    requires CutAt(s, t, n) && i <= n && ExponentEnd(s, i).Some? && ExponentEnd(s, i).value <= n
    ensures ExponentEnd(t, i) == ExponentEnd(s, i)
  {
    if i < n {
      CutChar(s, t, n, i);
      if s[i] == 'e' || s[i] == 'E' {
        CutChar(s, t, n, i + 1);
        DigitsEndCut(s, t, n, ExponentStart(s, i));
      }
    }
  }

  /** Scanning a number does not look past the character that stops it. */
  lemma NumberEndCut(s: string, t: string, n: nat)
    requires NumberEnd(s) == Some(n) && CutAt(s, t, n)
    ensures NumberEnd(t) == Some(n)
  {
    var i := IntegerEnd(s).value;
    var f := FractionEnd(s, i).value;
    IntegerEndCut(s, t, n);
    FractionEndCut(s, t, n, i);
    ExponentEndCut(s, t, n, f);
  }

  /** The literal read off the front of a text is itself a number. */
  lemma NumberPrefix(s: string, n: nat)
    requires NumberEnd(s) == Some(n)
    ensures IsNumber(s[..n])
  {
    NumberEndCut(s, s[..n], n);
  }

  // ------------------------------------------------------- decimal notation

  function Digit(n: nat): (c: char)
    requires n < 10
    ensures IsDigit(c)
  {
    ('0' as int + n) as char
  }

  function DigitValue(c: char): (n: nat)
    requires IsDigit(c)
    ensures n < 10
  {
    c as int - '0' as int
  }

  function DecimalNat(n: nat): string {
    if n < 10 then [Digit(n)] else DecimalNat(n / 10) + [Digit(n % 10)]
  }

  function Decimal(n: int): string {
    if n < 0 then "-" + DecimalNat(-n) else DecimalNat(n)
  }

  predicate AllDigits(s: string) { forall k :: 0 <= k < |s| ==> IsDigit(s[k]) }

  function DigitsValue(s: string): nat
    requires AllDigits(s)
  {
    if s == "" then 0 else DigitsValue(s[..|s| - 1]) * 10 + DigitValue(s[|s| - 1])
  }

  lemma {:induction false} DecimalNatValue(n: nat)
    ensures |DecimalNat(n)| > 0 && AllDigits(DecimalNat(n))
    ensures DigitsValue(DecimalNat(n)) == n
    ensures DecimalNat(n)[0] == '0' <==> n == 0
  {
    var s := DecimalNat(n);
    if n < 10 {
      assert s[..|s| - 1] == "";
    } else {
      DecimalNatValue(n / 10);
      assert s[..|s| - 1] == DecimalNat(n / 10);
    }
  }

  lemma {:induction false} DigitsEndAll(s: string, i: nat)
    requires i <= |s| && forall k :: i <= k < |s| ==> IsDigit(s[k])
    ensures DigitsEnd(s, i) == |s|
    decreases |s| - i
  {
    if i < |s| {
      DigitsEndAll(s, i + 1);
    }
  }

  lemma DecimalIsNumber(n: int)
    ensures IsNumber(Decimal(n))
    ensures IntegerEnd(Decimal(n)) == Some(|Decimal(n)|)
  {
    var s := Decimal(n);
    DecimalNatValue(if n < 0 then -n else n);
    var i := if n < 0 then 1 else 0;
    assert s[i..] == DecimalNat(if n < 0 then -n else n);
    assert forall k :: i <= k < |s| ==> s[k] == s[i..][k - i];
    DigitsEndAll(s, i);
    assert s[i] == s[i..][0];
    assert s[0] == '-' <==> n < 0;
  }

  function Pow10(e: nat): (p: nat)
    ensures p > 0
  {
    if e == 0 then 1 else 10 * Pow10(e - 1)
  }

  function NegativeSign(s: string): bool { s != "" && s[0] == '-' }

  /** The signed exponent written from `f` on; no exponent is exponent 0. */
  function ExponentValue(s: NumberLiteral, f: nat): int
    requires IntegerEnd(s).Some? && FractionEnd(s, IntegerEnd(s).value) == Some(f)
  {
    if f == |s| then 0
    else
      var g := ExponentStart(s, f);
      var v: int := DigitsValue(s[g..]);
      if s[g - 1] == '-' then -v else v
  }

  /** The number with everything after the decimal point dropped, as Go's int(x) drops it. */
  function Trunc(s: NumberLiteral): int {
    var a := IntegerEnd(s).value;
    var f := FractionEnd(s, a).value;
    var i := if NegativeSign(s) then 1 else 0;
    var fraction := if f == a then "" else s[a + 1..f];
    var mantissa := DigitsValue(s[i..a] + fraction);
    var e := ExponentValue(s, f) - |fraction|;
    var magnitude := if e >= 0 then mantissa * Pow10(e) else mantissa / Pow10(-e);
    if NegativeSign(s) then -magnitude else magnitude
  }

  lemma TruncDecimal(n: int)
    ensures IsNumber(Decimal(n)) && Trunc(Decimal(n)) == n
  {
    DecimalIsNumber(n);
    var s := Decimal(n);
    var m := if n < 0 then -n else n;
    var i := if n < 0 then 1 else 0;
    DecimalNatValue(m);
    assert s[0] == '-' <==> n < 0;
    assert s[i..|s|] + "" == DecimalNat(m);
  }

  // ------------------------------------------------------------- syntax trees

  datatype Json =
    | JNull
    | JBool(b: bool)
    | JNumber(literal: NumberLiteral)
    | JString(text: string)
    | JArray(items: seq<Json>)
    | JObject(members: seq<Member>)

  datatype Member = Member(key: string, value: Json)

  // ------------------------------------------------------------------ printer

  function HexDigit(n: nat): (c: char)
    requires n < 16
  {
    if n < 10 then Digit(n) else ('a' as int + (n - 10)) as char
  }

  /** The four lower-case hexadecimal digits of a code point below 0x10000. */
  function Hex4(n: nat): (s: string)
    requires n < 0x10000
    ensures |s| == 4
  {
    [HexDigit(n / 0x1000), HexDigit(n / 0x100 % 0x10), HexDigit(n / 0x10 % 0x10), HexDigit(n % 0x10)]
  }

  /** Characters json.Marshal writes as \uXXXX: other controls, the HTML-unsafe three, and the line separators. */
  predicate EscapedAsHex(c: char) {
    c < ' ' || c == '<' || c == '>' || c == '&' || c == '\U{2028}' || c == '\U{2029}'
  }

  function EscapeChar(c: char): (s: string)
    ensures |s| > 0
  {
    if c == '"' then "\\\""
    else if c == '\\' then "\\\\"
    else if c == '\U{0008}' then "\\b"
    else if c == '\U{000C}' then "\\f"
    else if c == '\n' then "\\n"
    else if c == '\r' then "\\r"
    else if c == '\t' then "\\t"
    else if EscapedAsHex(c) then "\\u" + Hex4(c as int)
    else [c]
  }

  function Escape(s: string): string {
    if s == "" then "" else EscapeChar(s[0]) + Escape(s[1..])
  }

  function Quote(s: string): string { "\"" + Escape(s) + "\"" }

  function Print(j: Json): string
    decreases j, 0
  {
    match j
    case JNull => "null"
    case JBool(b) => if b then "true" else "false"
    case JNumber(l) => l
    case JString(s) => Quote(s)
    case JArray(items) => "[" + PrintItems(items)
    case JObject(members) => "{" + PrintMembers(members)
  }

  /** The values separated by commas, and the closing bracket. */
  function PrintItems(items: seq<Json>): string
    decreases items, 1
  {
    if items == [] then "]"
    else if |items| == 1 then Print(items[0]) + "]"
    else Print(items[0]) + "," + PrintItems(items[1..])
  }

  function PrintMember(m: Member): string
    decreases m, 1
  {
    Quote(m.key) + ":" + Print(m.value)
  }

  /** The members separated by commas, and the closing brace. */
  function PrintMembers(members: seq<Member>): string
    decreases members, 1
  {
    if members == [] then "}"
    else if |members| == 1 then PrintMember(members[0]) + "}"
    else PrintMember(members[0]) + "," + PrintMembers(members[1..])
  }

  // ------------------------------------------------------------------- parser

  predicate IsSpace(c: char) { c == ' ' || c == '\t' || c == '\n' || c == '\r' }

  function SkipSpace(s: string): (r: string)
    ensures |r| <= |s|
    ensures r != "" ==> !IsSpace(r[0])
  {
    if s != "" && IsSpace(s[0]) then SkipSpace(s[1..]) else s
  }

  function HexValue(c: char): Option<nat> {
    if IsDigit(c) then Some(DigitValue(c))
    else if 'a' <= c <= 'f' then Some(c as int - 'a' as int + 10)
    else if 'A' <= c <= 'F' then Some(c as int - 'A' as int + 10)
    else None
  }

  /** The value of the four hexadecimal digits at the front of `s`. */
  function ParseHex4(s: string): (r: Option<nat>)
    ensures r.Some? ==> r.value < 0x10000 && |s| >= 4
  {
    if |s| < 4 then None
    else
      var a :- HexValue(s[0]);
      var b :- HexValue(s[1]);
      var c :- HexValue(s[2]);
      var d :- HexValue(s[3]);
      Some(a * 0x1000 + b * 0x100 + c * 0x10 + d)
  }

  /** What follows `\u`. A surrogate pair is one character; a lone surrogate becomes U+FFFD. */
  function ParseUnicode(s: string): (r: Option<(char, string)>)
    ensures r.Some? ==> |r.value.1| < |s|
  {
    var v :- ParseHex4(s);
    if v < 0xD800 || 0xE000 <= v then Some((v as char, s[4..]))
    else
      var low := if |s| >= 10 && s[4] == '\\' && s[5] == 'u' then ParseHex4(s[6..]) else None;
      if v < 0xDC00 && low.Some? && 0xDC00 <= low.value < 0xE000 then
        Some((((v - 0xD800) * 0x400 + (low.value - 0xDC00) + 0x10000) as char, s[10..]))
      else
        Some(('\U{FFFD}', s[4..]))
  }

  /** What follows a backslash. */
  function ParseEscape(s: string): (r: Option<(char, string)>)
    ensures r.Some? ==> |r.value.1| < |s|
  {
    if s == "" then None
    else match s[0]
      case '"' => Some(('"', s[1..]))
      case '\\' => Some(('\\', s[1..]))
      case '/' => Some(('/', s[1..]))
      case 'b' => Some(('\U{0008}', s[1..]))
      case 'f' => Some(('\U{000C}', s[1..]))
      case 'n' => Some(('\n', s[1..]))
      case 'r' => Some(('\r', s[1..]))
      case 't' => Some(('\t', s[1..]))
      case 'u' => ParseUnicode(s[1..])
      case _ => None
  }

  /** The rest of a string literal whose opening quote has been read. */
  function ParseText(s: string): (r: Option<(string, string)>)
    ensures r.Some? ==> |r.value.1| < |s|
    decreases |s|
  {
    if s == "" || s[0] < ' ' then None
    else if s[0] == '"' then Some(("", s[1..]))
    else
      var (c, rest) :- if s[0] == '\\' then ParseEscape(s[1..]) else Some((s[0], s[1..]));
      var (text, after) :- ParseText(rest);
      Some(([c] + text, after))
  }

  function ParseWord(word: string, j: Json, s: string): (r: Option<(Json, string)>)
    requires word != ""
    ensures r.Some? ==> |r.value.1| < |s|
  {
    if word <= s then Some((j, s[|word|..])) else None
  }

  function ParseNumber(s: string): (r: Option<(Json, string)>)
    ensures r.Some? ==> |r.value.1| < |s|
  {
    var n :- NumberEnd(s);
    NumberPrefix(s, n);
    Some((JNumber(s[..n]), s[n..]))
  }

  function ParseValue(input: string): (r: Option<(Json, string)>)
    ensures r.Some? ==> |r.value.1| < |input|
    decreases |input|, 0
  {
    var s := SkipSpace(input);
    if s == "" then None
    else match s[0]
      case 'n' => ParseWord("null", JNull, s)
      case 't' => ParseWord("true", JBool(true), s)
      case 'f' => ParseWord("false", JBool(false), s)
      case '"' =>
        var (text, rest) :- ParseText(s[1..]);
        Some((JString(text), rest))
      case '[' => ParseArray(s[1..])
      case '{' => ParseObject(s[1..])
      case _ => ParseNumber(s)
  }

  /** What follows an opening bracket. */
  function ParseArray(inside: string): (r: Option<(Json, string)>)
    ensures r.Some? ==> |r.value.1| < |inside|
    decreases |inside|, 2
  {
    var s := SkipSpace(inside);
    if s != "" && s[0] == ']' then Some((JArray([]), s[1..]))
    else
      var (items, rest) :- ParseItems(inside);
      Some((JArray(items), rest))
  }

  /** What follows an opening brace. */
  function ParseObject(inside: string): (r: Option<(Json, string)>)
    ensures r.Some? ==> |r.value.1| < |inside|
    decreases |inside|, 3
  {
    var s := SkipSpace(inside);
    if s != "" && s[0] == '}' then Some((JObject([]), s[1..]))
    else
      var (members, rest) :- ParseMembers(inside);
      Some((JObject(members), rest))
  }

  /** One or more values separated by commas, up to and including the closing bracket. */
  function ParseItems(input: string): (r: Option<(seq<Json>, string)>)
    ensures r.Some? ==> |r.value.1| < |input|
    decreases |input|, 1
  {
    var (item, rest) :- ParseValue(input);
    var s := SkipSpace(rest);
    if s == "" then None
    else if s[0] == ']' then Some(([item], s[1..]))
    else if s[0] != ',' then None
    else
      var (items, after) :- ParseItems(s[1..]);
      Some(([item] + items, after))
  }

  function ParseMember(input: string): (r: Option<(Member, string)>)
    ensures r.Some? ==> |r.value.1| < |input|
    decreases |input|, 1
  {
    var s := SkipSpace(input);
    if s == "" || s[0] != '"' then None
    else
      var (key, rest) :- ParseText(s[1..]);
      var colon := SkipSpace(rest);
      if colon == "" || colon[0] != ':' then None
      else
        var (value, after) :- ParseValue(colon[1..]);
        Some((Member(key, value), after))
  }

  /** One or more members separated by commas, up to and including the closing brace. */
  function ParseMembers(input: string): (r: Option<(seq<Member>, string)>)
    ensures r.Some? ==> |r.value.1| < |input|
    decreases |input|, 2
  {
    var (member, rest) :- ParseMember(input);
    var s := SkipSpace(rest);
    if s == "" then None
    else if s[0] == '}' then Some(([member], s[1..]))
    else if s[0] != ',' then None
    else
      var (members, after) :- ParseMembers(s[1..]);
      Some(([member] + members, after))
  }

  /** A whole text: one value and nothing but white space after it. */
  function ParseJson(s: string): Option<Json> {
    var (j, rest) :- ParseValue(s);
    if SkipSpace(rest) == "" then Some(j) else None
  }
}
