/**
 The grammar of JSON texts, white space and every way to spell a character
 included (RFC 8259, sections 2 to 7), as concrete syntax trees; and the proof
 that the parser reads exactly the texts of this grammar, as what they mean.
 */
module JsonGrammar {
  import opened Wrappers
  import opened Json

  // ------------------------------------------------------------------- strings

  /** A character of a string and how it is spelled between the quotes. */
  datatype Part = Part(c: char, spelling: string)

  ghost predicate IsUnicodeEscape(e: string, v: nat) {
    |e| == 6 && e[0] == '\\' && e[1] == 'u' && ParseHex4(e[2..]) == Some(v)
  }

  ghost predicate ShortEscape(c: char, e: string) {
    || (c == '"' && e == "\\\"") || (c == '\\' && e == "\\\\") || (c == '/' && e == "\\/")
    || (c == '\U{0008}' && e == "\\b") || (c == '\U{000C}' && e == "\\f")
    || (c == '\n' && e == "\\n") || (c == '\r' && e == "\\r") || (c == '\t' && e == "\\t")
  }

  /** Half of a surrogate pair on its own; it is read as U+FFFD. */
  ghost predicate Lone(p: Part, low: nat, high: nat) {
    p.c == '\U{FFFD}' && exists v :: low <= v < high && IsUnicodeEscape(p.spelling, v)
  }

  ghost predicate SurrogatePair(p: Part) {
    |p.spelling| == 12 && exists v, w :: IsPair(p, v, w)
  }

  ghost predicate IsPair(p: Part, v: nat, w: nat)
    requires |p.spelling| == 12
  {
    && 0xD800 <= v < 0xDC00 <= w < 0xE000
    && IsUnicodeEscape(p.spelling[..6], v) && IsUnicodeEscape(p.spelling[6..], w)
    && p.c as int == (v - 0xD800) * 0x400 + (w - 0xDC00) + 0x10000
  }

  ghost predicate WellSpelled(p: Part) {
    || (p.spelling == [p.c] && p.c >= ' ' && p.c != '"' && p.c != '\\')
    || ShortEscape(p.c, p.spelling)
    || ((p.c as int < 0xD800 || 0xE000 <= p.c as int) && IsUnicodeEscape(p.spelling, p.c as int))
    || SurrogatePair(p)
    || Lone(p, 0xD800, 0xE000)
  }

  /** And no two halves next to each other that would be a pair. */
  ghost predicate AllWellSpelled(parts: seq<Part>) {
    parts == [] ||
    (WellSpelled(parts[0]) && AllWellSpelled(parts[1..])
     && !(|parts| > 1 && Lone(parts[0], 0xD800, 0xDC00) && Lone(parts[1], 0xDC00, 0xE000)))
  }

  function WriteParts(parts: seq<Part>): string {
    if parts == [] then "" else parts[0].spelling + WriteParts(parts[1..])
  }

  function Chars(parts: seq<Part>): (s: string)
    ensures |s| == |parts|
  {
    if parts == [] then "" else [parts[0].c] + Chars(parts[1..])
  }

  lemma EscapeValue(e: string, v: nat, rest: string)
    requires IsUnicodeEscape(e, v)
    ensures ParseHex4((e + rest)[2..]) == Some(v) && v < 0x10000
    ensures (e + rest)[0] == '\\' && (e + rest)[1] == 'u' && (e + rest)[2..][4..] == rest
  {
    assert (e + rest)[2..] == e[2..] + rest;
    assert e[2..][0] == (e[2..] + rest)[0] && e[2..][1] == (e[2..] + rest)[1];
    assert e[2..][2] == (e[2..] + rest)[2] && e[2..][3] == (e[2..] + rest)[3];
  }

  /** The text goes on with the escape of a low surrogate. */
  ghost predicate GoesOnLow(rest: string) {
    |rest| >= 6 && rest[0] == '\\' && rest[1] == 'u'
    && ParseHex4(rest[2..]).Some? && 0xDC00 <= ParseHex4(rest[2..]).value < 0xE000
  }

  lemma ReadsUnicode(e: string, v: nat, rest: string)
    requires IsUnicodeEscape(e, v)
    ensures ParseEscape((e + rest)[1..]) == ParseUnicode(e[2..] + rest) && ParseHex4(e[2..] + rest) == Some(v)
    ensures v < 0x10000 && (e[2..] + rest)[4..] == rest
  {
    EscapeValue(e, v, rest);
    assert (e + rest)[1..][1..] == (e + rest)[2..] == e[2..] + rest;
  }

  lemma ReadsPair(p: Part, rest: string)
    requires SurrogatePair(p)
    ensures p.spelling[0] == '\\' && ParseEscape((p.spelling + rest)[1..]) == Some((p.c, rest))
  {
    var v, w :| IsPair(p, v, w);
    var first, second := p.spelling[..6], p.spelling[6..];
    assert p.spelling + rest == first + (second + rest);
    ReadsUnicode(first, v, second + rest);
    EscapeValue(second, w, rest);
    var s := first[2..] + (second + rest);
    assert s[4..] == second + rest && s[6..] == (second + rest)[2..] && s[10..] == rest;
    assert s[4] == (second + rest)[0] && s[5] == (second + rest)[1];
    hide ParseHex4;
  }

  lemma ReadsLone(p: Part, rest: string)
    requires Lone(p, 0xD800, 0xE000) && (Lone(p, 0xD800, 0xDC00) ==> !GoesOnLow(rest))
    ensures p.spelling[0] == '\\' && ParseEscape((p.spelling + rest)[1..]) == Some((p.c, rest))
  {
    var v :| 0xD800 <= v < 0xE000 && IsUnicodeEscape(p.spelling, v);
    ReadsUnicode(p.spelling, v, rest);
    var s := p.spelling[2..] + rest;
    assert |s| >= 6 ==> s[4] == rest[0] && s[5] == rest[1] && s[6..] == rest[2..];
    hide ParseHex4;
  }

  lemma ReadsShort(c: char, e: string, rest: string)
    requires ShortEscape(c, e)
    ensures e[0] == '\\' && ParseEscape((e + rest)[1..]) == Some((c, rest))
  {
    assert (e + rest)[1..] == [e[1]] + rest;
    assert (e + rest)[1..][1..] == rest;
  }

  /** However the first character is spelled, it is read, and what follows is read on its own. */
  lemma ReadsPart(p: Part, rest: string)
    requires WellSpelled(p) && (Lone(p, 0xD800, 0xDC00) ==> !GoesOnLow(rest))
    requires ParseText(rest).Some?
    ensures ParseText(p.spelling + rest) == Some(([p.c] + ParseText(rest).value.0, ParseText(rest).value.1))
  {
    var s := p.spelling + rest;
    if p.spelling == [p.c] && p.c >= ' ' && p.c != '"' && p.c != '\\' {
      assert s[0] == p.c && s[1..] == rest;
    } else {
      assert p.spelling[0] == '\\' && ParseEscape(s[1..]) == Some((p.c, rest)) by {
        if ShortEscape(p.c, p.spelling) {
          ReadsShort(p.c, p.spelling, rest);
        } else if SurrogatePair(p) {
          ReadsPair(p, rest);
        } else if Lone(p, 0xD800, 0xE000) {
          ReadsLone(p, rest);
        } else {
          ReadsUnicode(p.spelling, p.c as int, rest);
        }
      }
      assert s[0] == '\\';
      hide ParseEscape, WellSpelled;
    }
  }

  lemma StartsLow(p: Part, rest: string)
    requires WellSpelled(p) && GoesOnLow(p.spelling + rest)
    ensures Lone(p, 0xDC00, 0xE000)
  {
    var w := p.spelling + rest;
    var low := ParseHex4(w[2..]).value;
    assert w[0] == p.spelling[0] && (|p.spelling| > 1 ==> w[1] == p.spelling[1]);
    if SurrogatePair(p) {
      var v, x :| IsPair(p, v, x);
      assert w == p.spelling[..6] + (p.spelling[6..] + rest);
      EscapeValue(p.spelling[..6], v, p.spelling[6..] + rest);
      assert false;
    } else if Lone(p, 0xD800, 0xE000) {
      var v :| 0xD800 <= v < 0xE000 && IsUnicodeEscape(p.spelling, v);
      EscapeValue(p.spelling, v, rest);
      assert v == low;
    } else if IsUnicodeEscape(p.spelling, p.c as int) {
      EscapeValue(p.spelling, p.c as int, rest);
      assert false;
    }
  }

  /** The text of a string whose opening quote has been read, and what follows. */
  function TextOfParts(parts: seq<Part>, rest: string): string { WriteParts(parts) + "\"" + rest }

  lemma TextStep(parts: seq<Part>, rest: string)
    requires parts != []
    ensures TextOfParts(parts, rest) == parts[0].spelling + TextOfParts(parts[1..], rest)
  {
  }

  lemma NextIsLow(parts: seq<Part>, rest: string)
    requires AllWellSpelled(parts) && GoesOnLow(TextOfParts(parts, rest))
    ensures parts != [] && Lone(parts[0], 0xDC00, 0xE000)
  {
    if parts != [] {
      TextStep(parts, rest);
      hide WellSpelled, Lone, GoesOnLow, TextOfParts;
      StartsLow(parts[0], TextOfParts(parts[1..], rest));
    }
  }

  /** A string is read as its characters, however each of them is spelled. */
  lemma {:induction false} ReadsParts(parts: seq<Part>, rest: string)
    requires AllWellSpelled(parts)
    ensures ParseText(TextOfParts(parts, rest)) == Some((Chars(parts), rest))
  {
    if parts == [] {
      assert TextOfParts(parts, rest)[1..] == rest;
    } else {
      TextStep(parts, rest);
      hide WellSpelled, Lone, GoesOnLow, TextOfParts, ParseText;
      ReadsParts(parts[1..], rest);
      if Lone(parts[0], 0xD800, 0xDC00) {
        NextIsLowPair(parts, rest);
      }
      ReadsPart(parts[0], TextOfParts(parts[1..], rest));
    }
  }

  lemma NextIsLowPair(parts: seq<Part>, rest: string)
    requires parts != [] && AllWellSpelled(parts) && Lone(parts[0], 0xD800, 0xDC00)
    ensures !GoesOnLow(TextOfParts(parts[1..], rest))
  {
    hide WellSpelled, Lone, GoesOnLow, TextOfParts;
    if GoesOnLow(TextOfParts(parts[1..], rest)) {
      NextIsLow(parts[1..], rest);
      assert false;
    }
  }

  predicate StartsPair(t: string) {
    && |t| >= 10 && ParseHex4(t).Some? && 0xD800 <= ParseHex4(t).value < 0xDC00
    && t[4] == '\\' && t[5] == 'u' && ParseHex4(t[6..]).Some? && 0xDC00 <= ParseHex4(t[6..]).value < 0xE000
  }

  lemma PairHasPart(s: string) returns (p: Part)
    requires s != "" && s[0] == 'u' && ParseEscape(s).Some? && StartsPair(s[1..])
    ensures SurrogatePair(p) && p.c == ParseEscape(s).value.0 && "\\" + s == p.spelling + ParseEscape(s).value.1
    ensures |p.spelling| == 12
  {
    var t, e := s[1..], "\\" + s;
    p := Part(ParseEscape(s).value.0, e[..12]);
    HexOfPrefix(t, e[..6][2..]);
    HexOfPrefix(t[6..], e[6..12][2..]);
    assert p.spelling[..6] == e[..6] && p.spelling[6..] == e[6..12];
    assert IsPair(p, ParseHex4(t).value, ParseHex4(t[6..]).value);
    assert e == p.spelling + ParseEscape(s).value.1;
  }

  lemma SingleHasPart(s: string) returns (p: Part)
    requires s != "" && s[0] == 'u' && ParseEscape(s).Some? && !StartsPair(s[1..])
    ensures WellSpelled(p) && p.c == ParseEscape(s).value.0 && "\\" + s == p.spelling + ParseEscape(s).value.1
    ensures Lone(p, 0xD800, 0xDC00) ==> !GoesOnLow(ParseEscape(s).value.1)
  {
    var t, e := s[1..], "\\" + s;
    var (c, rest) := ParseEscape(s).value;
    p := Part(c, e[..6]);
    HexOfPrefix(t, e[..6][2..]);
    assert IsUnicodeEscape(p.spelling, ParseHex4(t).value);
    assert rest == t[4..] && e == p.spelling + rest;
    assert |t| >= 10 ==> rest[2..] == t[6..];
  }

  lemma UnicodeHasPart(s: string) returns (p: Part)
    requires s != "" && s[0] == 'u' && ParseEscape(s).Some?
    ensures WellSpelled(p) && p.c == ParseEscape(s).value.0 && "\\" + s == p.spelling + ParseEscape(s).value.1
    ensures Lone(p, 0xD800, 0xDC00) ==> !GoesOnLow(ParseEscape(s).value.1)
  {
    if StartsPair(s[1..]) {
      p := PairHasPart(s);
      PairIsNotLone(p);
    } else {
      p := SingleHasPart(s);
    }
    hide ParseEscape, StartsPair, SurrogatePair, Lone, GoesOnLow;
  }

  lemma PairIsNotLone(p: Part)
    requires |p.spelling| == 12
    ensures !Lone(p, 0xD800, 0xDC00)
  {
  }

  lemma HexOfPrefix(s: string, t: string)
    requires |t| == 4 && t <= s && ParseHex4(s).Some?
    ensures ParseHex4(t) == ParseHex4(s)
  {
    assert s[0] == t[0] && s[1] == t[1] && s[2] == t[2] && s[3] == t[3];
  }

  lemma ShortHasPart(s: string) returns (p: Part)
    requires s != "" && s[0] != 'u' && ParseEscape(s).Some?
    ensures WellSpelled(p) && p.c == ParseEscape(s).value.0 && "\\" + s == p.spelling + ParseEscape(s).value.1
    ensures !Lone(p, 0xD800, 0xDC00)
  {
    p := Part(ParseEscape(s).value.0, ['\\', s[0]]);
    assert "\\" + s == p.spelling + s[1..];
    assert ShortEscape(p.c, p.spelling);
  }

  /** And whatever is read as a string is a text of the grammar. */
  lemma {:induction false} HasParts(s: string) returns (parts: seq<Part>)
    requires ParseText(s).Some?
    ensures AllWellSpelled(parts) && Chars(parts) == ParseText(s).value.0 && s == TextOfParts(parts, ParseText(s).value.1)
    decreases |s|
  {
    if s[0] == '"' {
      parts := [];
      assert s == "\"" + s[1..];
    } else {
      var p := FirstHasPart(s);
      var rest := s[|p.spelling|..];
      var others := HasParts(rest);
      parts := [p] + others;
      assert parts[1..] == others;
      if |parts| > 1 && Lone(p, 0xD800, 0xDC00) && Lone(parts[1], 0xDC00, 0xE000) {
        LoneGoesOnLow(others, ParseText(rest).value.1);
        assert false;
      }
      TextStep(parts, ParseText(s).value.1);
      hide WellSpelled, Lone, GoesOnLow, TextOfParts;
    }
  }

  lemma LoneGoesOnLow(parts: seq<Part>, rest: string)
    requires parts != [] && Lone(parts[0], 0xDC00, 0xE000)
    ensures GoesOnLow(TextOfParts(parts, rest))
  {
    TextStep(parts, rest);
    var v :| 0xDC00 <= v < 0xE000 && IsUnicodeEscape(parts[0].spelling, v);
    hide TextOfParts;
    EscapeValue(parts[0].spelling, v, TextOfParts(parts[1..], rest));
  }

  lemma FirstHasPart(s: string) returns (p: Part)
    requires ParseText(s).Some? && s[0] != '"'
    ensures WellSpelled(p) && p.spelling != "" && p.spelling <= s && (Lone(p, 0xD800, 0xDC00) ==> !GoesOnLow(s[|p.spelling|..]))
    ensures ParseText(s[|p.spelling|..]).Some?
    ensures ParseText(s).value == ([p.c] + ParseText(s[|p.spelling|..]).value.0, ParseText(s[|p.spelling|..]).value.1)
  {
    if s[0] == '\\' {
      var tail := s[1..];
      if tail[0] == 'u' {
        p := UnicodeHasPart(tail);
      } else {
        p := ShortHasPart(tail);
      }
      assert s == "\\" + tail;
      assert s[|p.spelling|..] == ParseEscape(tail).value.1;
      hide WellSpelled, Lone, GoesOnLow, ParseEscape;
    } else {
      p := Part(s[0], [s[0]]);
      assert s[|p.spelling|..] == s[1..];
    }
  }

  // -------------------------------------------------------------------- values

  /** A value with all its white space. */
  datatype Shape =
    | SNull
    | SBool(b: bool)
    | SNumber(literal: NumberLiteral)
    | SString(parts: seq<Part>)
    | SArray(items: seq<Item>, gap: string)         // the gap of an empty array
    | SObject(entries: seq<Entry>, gap: string)     // and of an empty object

  datatype Item = Item(before: string, shape: Shape, after: string)

  datatype Entry = Entry(before: string, key: seq<Part>, between: string, item: Item)

  predicate Blank(s: string) { forall k :: 0 <= k < |s| ==> s[k] in {' ', '\t', '\n', '\r'} }

  ghost predicate WellFormed(shape: Shape)
    decreases shape, 0
  {
    match shape
    case SString(parts) => AllWellSpelled(parts)
    case SArray(items, gap) => Blank(gap) && ItemsWellFormed(items)
    case SObject(entries, gap) => Blank(gap) && EntriesWellFormed(entries)
    case _ => true
  }

  ghost predicate ItemWellFormed(item: Item)
    decreases item, 1
  {
    Blank(item.before) && WellFormed(item.shape) && Blank(item.after)
  }

  ghost predicate ItemsWellFormed(items: seq<Item>)
    decreases items, 2
  {
    items == [] || (ItemWellFormed(items[0]) && ItemsWellFormed(items[1..]))
  }

  ghost predicate EntryWellFormed(entry: Entry)
    decreases entry, 2
  {
    Blank(entry.before) && AllWellSpelled(entry.key) && Blank(entry.between) && ItemWellFormed(entry.item)
  }

  ghost predicate EntriesWellFormed(entries: seq<Entry>)
    decreases entries, 3
  {
    entries == [] || (EntryWellFormed(entries[0]) && EntriesWellFormed(entries[1..]))
  }

  /** The text of a value, followed by `rest`. */
  function Write(shape: Shape, rest: string): string
    decreases shape, 0
  {
    match shape
    case SNull => "null" + rest
    case SBool(b) => (if b then "true" else "false") + rest
    case SNumber(l) => l + rest
    case SString(parts) => "\"" + TextOfParts(parts, rest)
    case SArray(items, gap) => "[" + if items == [] then gap + ("]" + rest) else WriteItems(items, rest)
    case SObject(entries, gap) => "{" + if entries == [] then gap + ("}" + rest) else WriteEntries(entries, rest)
  }

  function WriteItem(item: Item, rest: string): string
    decreases item, 1
  {
    item.before + Write(item.shape, item.after + rest)
  }

  function WriteItems(items: seq<Item>, rest: string): string
    requires items != []
    decreases items, 2
  {
    if |items| == 1 then WriteItem(items[0], "]" + rest)
    else WriteItem(items[0], "," + WriteItems(items[1..], rest))
  }

  function WriteEntry(entry: Entry, rest: string): string
    decreases entry, 2
  {
    entry.before + ("\"" + TextOfParts(entry.key, entry.between + (":" + WriteItem(entry.item, rest))))
  }

  function WriteEntries(entries: seq<Entry>, rest: string): string
    requires entries != []
    decreases entries, 3
  {
    if |entries| == 1 then WriteEntry(entries[0], "}" + rest)
    else WriteEntry(entries[0], "," + WriteEntries(entries[1..], rest))
  }

  function Meaning(shape: Shape): Json
    decreases shape, 0
  {
    match shape
    case SNull => JNull
    case SBool(b) => JBool(b)
    case SNumber(l) => JNumber(l)
    case SString(parts) => JString(Chars(parts))
    case SArray(items, _) => JArray(MeaningItems(items))
    case SObject(entries, _) => JObject(MeaningEntries(entries))
  }

  function MeaningItems(items: seq<Item>): seq<Json>
    decreases items, 2
  {
    if items == [] then [] else [Meaning(items[0].shape)] + MeaningItems(items[1..])
  }

  function MeaningEntries(entries: seq<Entry>): seq<Member>
    decreases entries, 3
  {
    if entries == [] then []
    else [Member(Chars(entries[0].key), Meaning(entries[0].item.shape))] + MeaningEntries(entries[1..])
  }

  // ------------------------------------------------------------------ completeness

  lemma {:induction false} SkipsBlank(gap: string, s: string)
    requires Blank(gap)
    ensures SkipSpace(gap + s) == SkipSpace(s)
  {
    if gap == "" {
      assert gap + s == s;
    } else {
      assert (gap + s)[1..] == gap[1..] + s;
      SkipsBlank(gap[1..], s);
    }
  }

  predicate NotBlank(s: string) { s != "" && s[0] !in {' ', '\t', '\n', '\r'} }

  lemma NothingToSkip(s: string)
    requires NotBlank(s)
    ensures SkipSpace(s) == s
  {
  }

  /** What can stand behind a value in a text: white space, or one of the marks. */
  predicate Stops(rest: string) { rest == "" || rest[0] in {' ', '\t', '\n', '\r', ',', ']', '}'} }

  lemma StopsAfterBlank(after: string, rest: string)
    requires Blank(after) && Stops(rest)
    ensures Stops(after + rest)
  {
  }

  lemma {:induction false} ParseValueSkips(gap: string, s: string)
    requires Blank(gap) && NotBlank(s)
    ensures ParseValue(gap + s) == ParseValue(s)
  {
    SkipsBlank(gap, s);
    NothingToSkip(s);
    hide SkipSpace, ParseWord, ParseText, ParseArray, ParseObject, ParseNumber;
  }

  lemma WriteStarts(shape: Shape, rest: string)
    ensures NotBlank(Write(shape, rest)) && Write(shape, rest)[0] !in {',', ']', '}', ':'}
  {
    if shape.SNumber? {
      var l := shape.literal;
      assert IntegerEnd(l).Some?;
      assert l[0] == '-' || IsDigit(l[0]);
      assert Write(shape, rest)[0] == l[0];
    }
  }

  lemma ReadsNumber(l: NumberLiteral, rest: string)
    requires Stops(rest)
    ensures ParseValue(l + rest) == Some((JNumber(l), rest))
  {
    NumberEndCut(l, l + rest, |l|);
    assert (l + rest)[..|l|] == l && (l + rest)[|l|..] == rest;
    assert ParseNumber(l + rest) == Some((JNumber(l), rest));
    assert l[0] == '-' || IsDigit(l[0]) by { assert IntegerEnd(l).Some?; }
    hide NumberEnd, IsNumber, ParseNumber, ParseWord, ParseText, ParseArray, ParseObject;
    assert (l + rest)[0] == l[0];
    NothingToSkip(l + rest);
  }

  lemma ReadsWord(shape: Shape, rest: string)
    requires shape.SNull? || shape.SBool?
    ensures ParseValue(Write(shape, rest)) == Some((Meaning(shape), rest))
  {
    var s := Write(shape, rest);
    NothingToSkip(s);
    var word := if shape.SNull? then "null" else if shape.b then "true" else "false";
    assert s == word + rest && s[|word|..] == rest && s[0] == word[0];
  }

  lemma ReadsString(parts: seq<Part>, rest: string)
    requires AllWellSpelled(parts)
    ensures ParseValue("\"" + TextOfParts(parts, rest)) == Some((JString(Chars(parts)), rest))
  {
    ReadsParts(parts, rest);
    var s := "\"" + TextOfParts(parts, rest);
    hide TextOfParts, AllWellSpelled, ParseText;
    NothingToSkip(s);
    assert s[1..] == TextOfParts(parts, rest);
  }

  lemma ReadsBrackets(inside: string)
    ensures ParseValue("[" + inside) == ParseArray(inside)
    ensures ParseValue("{" + inside) == ParseObject(inside)
  {
    assert ("[" + inside)[1..] == inside;
    assert ("{" + inside)[1..] == inside;
  }

  lemma {:induction false} ReadsShape(shape: Shape, rest: string)
    requires WellFormed(shape) && Stops(rest)
    ensures ParseValue(Write(shape, rest)) == Some((Meaning(shape), rest))
    decreases shape, 0
  {
    match shape
    case SNumber(l) => ReadsNumber(l, rest);
    case SString(parts) => ReadsString(parts, rest);
    case SArray(items, gap) => ReadsArray(items, gap, rest);
    case SObject(entries, gap) => ReadsObject(entries, gap, rest);
    case _ => ReadsWord(shape, rest);
  }

  lemma {:induction false} ReadsArray(items: seq<Item>, gap: string, rest: string)
    requires Blank(gap) && ItemsWellFormed(items)
    ensures ParseValue(Write(SArray(items, gap), rest)) == Some((JArray(MeaningItems(items)), rest))
    decreases items, 4
  {
    if items == [] {
      ReadsBrackets(gap + ("]" + rest));
      SkipsBlank(gap, "]" + rest);
      NothingToSkip("]" + rest);
      assert ("]" + rest)[1..] == rest;
    } else {
      var inside := WriteItems(items, rest);
      ReadsBrackets(inside);
      ReadsItems(items, rest);
      InsideStarts(items, rest);
      hide WriteItems, SkipSpace, ParseItems, MeaningItems;
    }
  }

  lemma InsideStarts(items: seq<Item>, rest: string)
    requires items != [] && ItemsWellFormed(items)
    ensures var s := SkipSpace(WriteItems(items, rest)); s != "" && s[0] != ']'
  {
    var tail := items[0].after + if |items| == 1 then "]" + rest else "," + WriteItems(items[1..], rest);
    assert WriteItems(items, rest) == items[0].before + Write(items[0].shape, tail);
    hide Write, WriteItems;
    WriteStarts(items[0].shape, tail);
    SkipsBlank(items[0].before, Write(items[0].shape, tail));
    NothingToSkip(Write(items[0].shape, tail));
  }

  lemma {:induction false} ReadsItem(item: Item, rest: string)
    requires ItemWellFormed(item) && Stops(rest)
    ensures ParseValue(WriteItem(item, rest)) == Some((Meaning(item.shape), item.after + rest))
    decreases item, 1
  {
    StopsAfterBlank(item.after, rest);
    ReadsShape(item.shape, item.after + rest);
    WriteStarts(item.shape, item.after + rest);
    ParseValueSkips(item.before, Write(item.shape, item.after + rest));
    hide Write, ParseValue, Meaning;
  }

  /** After an item: its white space, then the mark. */
  lemma MarkIsFound(after: string, mark: char, rest: string)
    requires Blank(after) && mark in {',', ']', '}', ':', '"'}
    ensures SkipSpace(after + ([mark] + rest)) == [mark] + rest && ([mark] + rest)[1..] == rest
  {
    SkipsBlank(after, [mark] + rest);
    NothingToSkip([mark] + rest);
  }

  lemma {:induction false} ReadsItems(items: seq<Item>, rest: string)
    requires items != [] && ItemsWellFormed(items)
    ensures ParseItems(WriteItems(items, rest)) == Some((MeaningItems(items), rest))
    decreases items, 3
  {
    var item, input := items[0], WriteItems(items, rest);
    if |items| == 1 {
      assert input == WriteItem(item, "]" + rest) && MeaningItems(items) == [Meaning(item.shape)] by {
        assert MeaningItems(items[1..]) == [];
      }
      ReadsItem(item, "]" + rest);
      MarkIsFound(item.after, ']', rest);
      LastItem(input, Meaning(item.shape), item.after + ("]" + rest), rest);
    } else {
      var tail := WriteItems(items[1..], rest);
      assert input == WriteItem(item, "," + tail);
      ReadsItems(items[1..], rest);
      ReadsItem(item, "," + tail);
      MarkIsFound(item.after, ',', tail);
      NextItem(input, Meaning(item.shape), item.after + ("," + tail), tail);
    }
  }

  lemma LastItem(input: string, j: Json, behind: string, rest: string)
    requires ParseValue(input) == Some((j, behind)) && SkipSpace(behind) == "]" + rest
    ensures ParseItems(input) == Some(([j], rest))
  {
    assert ("]" + rest)[1..] == rest;
  }

  lemma NextItem(input: string, j: Json, behind: string, tail: string)
    requires ParseValue(input) == Some((j, behind)) && SkipSpace(behind) == "," + tail && ParseItems(tail).Some?
    ensures ParseItems(input) == Some(([j] + ParseItems(tail).value.0, ParseItems(tail).value.1))
  {
    assert ("," + tail)[1..] == tail;
  }

  lemma {:induction false} ReadsObject(entries: seq<Entry>, gap: string, rest: string)
    requires Blank(gap) && EntriesWellFormed(entries)
    ensures ParseValue(Write(SObject(entries, gap), rest)) == Some((JObject(MeaningEntries(entries)), rest))
    decreases entries, 5
  {
    if entries == [] {
      ReadsBrackets(gap + ("}" + rest));
      SkipsBlank(gap, "}" + rest);
      NothingToSkip("}" + rest);
      assert ("}" + rest)[1..] == rest;
    } else {
      var inside := WriteEntries(entries, rest);
      ReadsBrackets(inside);
      ReadsEntries(entries, rest);
      EntriesStart(entries, rest);
      hide WriteEntries, SkipSpace, ParseMembers, MeaningEntries;
    }
  }

  lemma EntriesStart(entries: seq<Entry>, rest: string)
    requires entries != [] && EntriesWellFormed(entries)
    ensures var s := SkipSpace(WriteEntries(entries, rest)); s != "" && s[0] == '"'
  {
    var e := entries[0];
    var after := if |entries| == 1 then "}" + rest else "," + WriteEntries(entries[1..], rest);
    var tail := TextOfParts(e.key, e.between + (":" + WriteItem(e.item, after)));
    assert WriteEntries(entries, rest) == e.before + (['"'] + tail);
    hide WriteEntries, TextOfParts;
    MarkIsFound(e.before, '"', tail);
  }

  lemma {:induction false} ReadsEntry(entry: Entry, rest: string)
    requires EntryWellFormed(entry) && Stops(rest)
    ensures ParseMember(WriteEntry(entry, rest))
         == Some((Member(Chars(entry.key), Meaning(entry.item.shape)), entry.item.after + rest))
    decreases entry, 2
  {
    var colon := WriteItem(entry.item, rest);
    var tail := TextOfParts(entry.key, entry.between + (":" + colon));
    ReadsItem(entry.item, rest);
    ReadsParts(entry.key, entry.between + (":" + colon));
    MarkIsFound(entry.between, ':', colon);
    MarkIsFound(entry.before, '"', tail);
    assert WriteEntry(entry, rest) == entry.before + (['"'] + tail);
    hide WriteItem, WriteEntry, TextOfParts, ParseText, ParseValue, Meaning, SkipSpace, AllWellSpelled;
  }

  lemma {:induction false} ReadsEntries(entries: seq<Entry>, rest: string)
    requires entries != [] && EntriesWellFormed(entries)
    ensures ParseMembers(WriteEntries(entries, rest)) == Some((MeaningEntries(entries), rest))
    decreases entries, 4
  {
    var entry, input := entries[0], WriteEntries(entries, rest);
    var m := Member(Chars(entry.key), Meaning(entry.item.shape));
    if |entries| == 1 {
      assert input == WriteEntry(entry, "}" + rest) && MeaningEntries(entries) == [m] by {
        assert MeaningEntries(entries[1..]) == [];
      }
      ReadsEntry(entry, "}" + rest);
      MarkIsFound(entry.item.after, '}', rest);
      LastEntry(input, m, entry.item.after + ("}" + rest), rest);
    } else {
      var tail := WriteEntries(entries[1..], rest);
      assert input == WriteEntry(entry, "," + tail);
      ReadsEntries(entries[1..], rest);
      ReadsEntry(entry, "," + tail);
      MarkIsFound(entry.item.after, ',', tail);
      NextEntry(input, m, entry.item.after + ("," + tail), tail);
    }
  }

  lemma LastEntry(input: string, m: Member, behind: string, rest: string)
    requires ParseMember(input) == Some((m, behind)) && SkipSpace(behind) == "}" + rest
    ensures ParseMembers(input) == Some(([m], rest))
  {
    assert ("}" + rest)[1..] == rest;
  }

  lemma NextEntry(input: string, m: Member, behind: string, tail: string)
    requires ParseMember(input) == Some((m, behind)) && SkipSpace(behind) == "," + tail && ParseMembers(tail).Some?
    ensures ParseMembers(input) == Some(([m] + ParseMembers(tail).value.0, ParseMembers(tail).value.1))
  {
    assert ("," + tail)[1..] == tail;
  }

  // -------------------------------------------------------------------- soundness

  lemma InFront(c: char, s: string, t: string)
    ensures [c] + (s + t) == ([c] + s) + t
  {
  }

  lemma {:induction false} SkippedGap(s: string) returns (gap: string)
    ensures Blank(gap) && s == gap + SkipSpace(s)
  {
    gap := "";
    if s != "" && IsSpace(s[0]) {
      var more := SkippedGap(s[1..]);
      gap := [s[0]] + more;
      InFront(s[0], more, SkipSpace(s));
      assert s == [s[0]] + s[1..];
      assert SkipSpace(s[1..]) == SkipSpace(s);
    }
  }

  lemma SimpleShape(s: string) returns (shape: Shape)
    requires s != "" && SkipSpace(s) == s && ParseValue(s).Some? && s[0] != '[' && s[0] != '{'
    ensures WellFormed(shape) && Meaning(shape) == ParseValue(s).value.0 && s == Write(shape, ParseValue(s).value.1)
  {
    var (j, rest) := ParseValue(s).value;
    match s[0]
    case 'n' => shape := SNull; assert s == "null" + rest;
    case 't' => shape := SBool(true); assert s == "true" + rest;
    case 'f' => shape := SBool(false); assert s == "false" + rest;
    case '"' =>
      var parts := HasParts(s[1..]);
      shape := SString(parts);
      assert s == "\"" + s[1..];
    case _ =>
      shape := SNumber(j.literal);
      assert s == j.literal + rest;
  }

  lemma {:induction false} HasShape(input: string) returns (before: string, shape: Shape)
    requires ParseValue(input).Some?
    ensures Blank(before) && WellFormed(shape) && Meaning(shape) == ParseValue(input).value.0
    ensures input == before + Write(shape, ParseValue(input).value.1)
    decreases |input|, 0
  {
    before := SkippedGap(input);
    var s := SkipSpace(input);
    SameValue(input);
    assert s == s[..1] + s[1..];
    if s[0] == '[' {
      ReadsBrackets(s[1..]);
      assert s == "[" + s[1..];
      shape := ArrayHasShape(s[1..]);
    } else if s[0] == '{' {
      ReadsBrackets(s[1..]);
      assert s == "{" + s[1..];
      shape := ObjectHasShape(s[1..]);
    } else {
      shape := SimpleShape(s);
    }
  }

  lemma SameValue(input: string)
    requires ParseValue(input).Some?
    ensures SkipSpace(input) != "" && SkipSpace(SkipSpace(input)) == SkipSpace(input)
    ensures ParseValue(SkipSpace(input)) == ParseValue(input)
  {
    hide ParseWord, ParseText, ParseArray, ParseObject, ParseNumber;
  }

  lemma {:induction false} ArrayHasShape(inside: string) returns (shape: Shape)
    requires ParseArray(inside).Some?
    ensures WellFormed(shape) && Meaning(shape) == ParseArray(inside).value.0
    ensures "[" + inside == Write(shape, ParseArray(inside).value.1)
    decreases |inside|, 3
  {
    hide SkipSpace;
    var gap := SkippedGap(inside);
    var s := SkipSpace(inside);
    if s != "" && s[0] == ']' {
      shape := SArray([], gap);
      assert s == "]" + s[1..];
    } else {
      var items := HasItems(inside);
      shape := SArray(items, "");
    }
  }

  lemma {:induction false} ObjectHasShape(inside: string) returns (shape: Shape)
    requires ParseObject(inside).Some?
    ensures WellFormed(shape) && Meaning(shape) == ParseObject(inside).value.0
    ensures "{" + inside == Write(shape, ParseObject(inside).value.1)
    decreases |inside|, 4
  {
    hide SkipSpace;
    var gap := SkippedGap(inside);
    var s := SkipSpace(inside);
    if s != "" && s[0] == '}' {
      shape := SObject([], gap);
      assert s == "}" + s[1..];
    } else {
      var entries := HasEntries(inside);
      shape := SObject(entries, "");
    }
  }

  lemma {:induction false} HasItems(input: string) returns (items: seq<Item>)
    requires ParseItems(input).Some?
    ensures items != [] && ItemsWellFormed(items) && MeaningItems(items) == ParseItems(input).value.0
    ensures input == WriteItems(items, ParseItems(input).value.1)
    decreases |input|, 1
  {
    hide Write, ParseValue, SkipSpace, Meaning, WellFormed;
    var (j, behind) := ParseValue(input).value;
    var before, shape := HasShape(input);
    var after := SkippedGap(behind);
    var s := SkipSpace(behind);
    var item := Item(before, shape, after);
    if s[0] == ']' {
      items := [item];
      assert s == "]" + s[1..];
      assert MeaningItems(items[1..]) == [];
    } else {
      var others := HasItems(s[1..]);
      items := [item] + others;
      assert items[1..] == others && s == "," + s[1..];
    }
  }

  lemma MemberIs(input: string) returns (text: string, key: string, rest: string, inside: string, value: Json, end: string)
    requires ParseMember(input).Some?
    ensures SkipSpace(input) == "\"" + text && ParseText(text) == Some((key, rest))
    ensures SkipSpace(rest) == ":" + inside && ParseValue(inside) == Some((value, end))
    ensures ParseMember(input) == Some((Member(key, value), end)) && |inside| < |input|
  {
    hide ParseText, ParseValue, SkipSpace;
    text := SkipSpace(input)[1..];
    key, rest := ParseText(text).value.0, ParseText(text).value.1;
    inside := SkipSpace(rest)[1..];
    value, end := ParseValue(inside).value.0, ParseValue(inside).value.1;
  }

  lemma EntryIs(before: string, key: seq<Part>, between: string, gap: string, shape: Shape, after: string, rest: string)
    ensures var entry := Entry(before, key, between, Item(gap, shape, after));
            && WriteEntry(entry, rest) == before + ("\"" + TextOfParts(key, between + (":" + (gap + Write(shape, after + rest)))))
            && EntryWellFormed(entry)
               == (Blank(before) && AllWellSpelled(key) && Blank(between) && Blank(gap) && WellFormed(shape) && Blank(after))
  {
    hide Write, TextOfParts, Blank, AllWellSpelled, WellFormed;
  }

  lemma {:induction false} HasEntry(input: string) returns (entry: Entry, behind: string)
    requires ParseMember(input).Some?
    ensures EntryWellFormed(entry) && Member(Chars(entry.key), Meaning(entry.item.shape)) == ParseMember(input).value.0
    ensures behind == SkipSpace(ParseMember(input).value.1) && input == WriteEntry(entry, behind)
    decreases |input|, 1
  {
    hide *;
    var text, key, rest, inside, value, end := MemberIs(input);
    var before := SkippedGap(input);
    var parts := HasParts(text);
    var between := SkippedGap(rest);
    var gap, shape := HasShape(inside);
    var after := SkippedGap(end);
    behind := SkipSpace(end);
    entry := Entry(before, parts, between, Item(gap, shape, after));
    EntryIs(before, parts, between, gap, shape, after, behind);
  }

  lemma {:induction false} HasEntries(input: string) returns (entries: seq<Entry>)
    requires ParseMembers(input).Some?
    ensures entries != [] && EntriesWellFormed(entries) && MeaningEntries(entries) == ParseMembers(input).value.0
    ensures input == WriteEntries(entries, ParseMembers(input).value.1)
    decreases |input|, 2
  {
    hide WriteEntry, ParseMember, SkipSpace, Meaning, EntryWellFormed;
    var entry, s := HasEntry(input);
    if s[0] == '}' {
      entries := [entry];
      assert s == "}" + s[1..];
      assert MeaningEntries(entries[1..]) == [];
    } else {
      var others := HasEntries(s[1..]);
      entries := [entry] + others;
      assert entries[1..] == others && s == "," + s[1..];
    }
  }

  // -------------------------------------------------------------------- whole texts

  /** The text is this value in some white space. */
  ghost predicate IsTextOf(s: string, shape: Shape, before: string, after: string) {
    Blank(before) && WellFormed(shape) && Blank(after) && s == before + Write(shape, after)
  }

  lemma BlankIsSkipped(s: string)
    ensures SkipSpace(s) == "" <==> Blank(s)
  {
    var gap := SkippedGap(s);
    if Blank(s) {
      SkipsBlank(s, "");
      assert s + "" == s;
    }
  }

  /** The parser reads a text as a value exactly when the text is one of the ways to write that value. */
  lemma ParserIsExact(s: string, j: Json)
    ensures ParseJson(s) == Some(j) <==>
            exists shape, before, after :: IsTextOf(s, shape, before, after) && Meaning(shape) == j
  {
    if ParseJson(s) == Some(j) {
      var before, shape := HasShape(s);
      var after := ParseValue(s).value.1;
      BlankIsSkipped(after);
      assert IsTextOf(s, shape, before, after);
    }
    forall shape, before, after | IsTextOf(s, shape, before, after) && Meaning(shape) == j
      ensures ParseJson(s) == Some(j)
    {
      ReadsShape(shape, after);
      WriteStarts(shape, after);
      ParseValueSkips(before, Write(shape, after));
      BlankIsSkipped(after);
    }
  }

  /** Nothing but the texts of the grammar is read at all. */
  lemma OnlyTextsAreRead(s: string)
    ensures ParseJson(s).Some? <==> exists shape, before, after :: IsTextOf(s, shape, before, after)
  {
    if ParseJson(s).Some? {
      ParserIsExact(s, ParseJson(s).value);
    }
    forall shape, before, after | IsTextOf(s, shape, before, after)
      ensures ParseJson(s).Some?
    {
      ParserIsExact(s, Meaning(shape));
    }
  }
}
