/** Parsing what the printer prints gives back the syntax tree: the printed text is one of the ways to write it. */
module JsonRoundTrip {
  import opened Wrappers
  import opened Json
  import opened JsonGrammar

  // ------------------------------------------------------------------- strings

  function PartOf(c: char): Part { Part(c, EscapeChar(c)) }

  function PartsOf(s: string): (parts: seq<Part>)
    ensures |parts| == |s|
  {
    if s == "" then [] else [PartOf(s[0])] + PartsOf(s[1..])
  }

  lemma HexDigitValue(n: nat)
    requires n < 16
    ensures HexValue(HexDigit(n)) == Some(n)
  {
  }

  /** The digits 10 to 15 are read in either case. */
  lemma HexDigitsInBothCases(n: nat)
    requires n < 6
    ensures HexValue(('A' as int + n) as char) == HexValue(('a' as int + n) as char) == Some(10 + n)
  {
  }

  lemma HexDigitsOf(n: nat)
    requires n < 0x10000
    ensures n / 0x1000 < 0x10
    ensures n == n / 0x1000 * 0x1000 + n / 0x100 % 0x10 * 0x100 + n / 0x10 % 0x10 * 0x10 + n % 0x10
  {
    var a, b := n / 0x10, n / 0x100;
    assert n == a * 0x10 + n % 0x10;
    assert a == b * 0x10 + a % 0x10;
    assert b == n / 0x1000 * 0x10 + b % 0x10;
  }

  lemma Hex4Value(n: nat)
    requires n < 0x10000
    ensures ParseHex4(Hex4(n)) == Some(n)
  {
    HexDigitsOf(n);
    HexDigitValue(n / 0x1000);
    HexDigitValue(n / 0x100 % 0x10);
    HexDigitValue(n / 0x10 % 0x10);
    HexDigitValue(n % 0x10);
    hide HexValue, HexDigit;
  }

  /** The printer's spelling of a character is one of its spellings, and never half a pair. */
  lemma PrinterSpellsWell(c: char)
    ensures WellSpelled(PartOf(c)) && !Lone(PartOf(c), 0xD800, 0xDC00)
  {
    if |EscapeChar(c)| == 6 {
      Hex4Value(c as int);
      assert EscapeChar(c)[2..] == Hex4(c as int);
      assert IsUnicodeEscape(EscapeChar(c), c as int);
    }
  }

  lemma {:induction false} PrintedParts(s: string)
    ensures AllWellSpelled(PartsOf(s)) && Chars(PartsOf(s)) == s && WriteParts(PartsOf(s)) == Escape(s)
  {
    if s != "" {
      var parts := PartsOf(s);
      PrinterSpellsWell(s[0]);
      PrintedParts(s[1..]);
      assert parts[1..] == PartsOf(s[1..]) && s == [s[0]] + s[1..];
      hide WellSpelled, Lone, EscapeChar;
    }
  }

  // ------------------------------------------------------------------- values

  function ShapeOf(j: Json): Shape
    decreases j, 0
  {
    match j
    case JNull => SNull
    case JBool(b) => SBool(b)
    case JNumber(l) => SNumber(l)
    case JString(s) => SString(PartsOf(s))
    case JArray(items) => SArray(ItemsOf(items), "")
    case JObject(members) => SObject(EntriesOf(members), "")
  }

  function ItemsOf(items: seq<Json>): (r: seq<Item>)
    ensures |r| == |items|
    decreases items, 1
  {
    if items == [] then [] else [Item("", ShapeOf(items[0]), "")] + ItemsOf(items[1..])
  }

  function EntriesOf(members: seq<Member>): (r: seq<Entry>)
    ensures |r| == |members|
    decreases members, 2
  {
    if members == [] then []
    else [Entry("", PartsOf(members[0].key), "", Item("", ShapeOf(members[0].value), ""))] + EntriesOf(members[1..])
  }

  /** The printed text is its syntax tree written without white space. */
  lemma {:induction false} PrintIsWrite(j: Json, rest: string)
    ensures WellFormed(ShapeOf(j)) && Meaning(ShapeOf(j)) == j && Write(ShapeOf(j), rest) == Print(j) + rest
    decreases j, 0
  {
    match j
    case JString(s) => QuoteIsWrite(s, rest);
    case JArray(items) =>
      PrintItemsIsWrite(items, rest);
      Associate("[", PrintItems(items), rest);
      if items == [] {
        assert "" + ("]" + rest) == "]" + rest;
      }
    case JObject(members) =>
      PrintMembersIsWrite(members, rest);
      Associate("{", PrintMembers(members), rest);
      if members == [] {
        assert "" + ("}" + rest) == "}" + rest;
      }
    case _ =>
  }

  lemma Associate(a: string, b: string, c: string)
    ensures a + b + c == a + (b + c)
  {
  }

  lemma QuoteIsWrite(s: string, rest: string)
    ensures AllWellSpelled(PartsOf(s)) && Chars(PartsOf(s)) == s
    ensures "\"" + TextOfParts(PartsOf(s), rest) == Quote(s) + rest
  {
    PrintedParts(s);
    assert "\"" + (Escape(s) + "\"" + rest) == "\"" + Escape(s) + "\"" + rest;
  }

  lemma {:induction false} PrintItemsIsWrite(items: seq<Json>, rest: string)
    ensures ItemsWellFormed(ItemsOf(items)) && MeaningItems(ItemsOf(items)) == items
    ensures items != [] ==> WriteItems(ItemsOf(items), rest) == PrintItems(items) + rest
    decreases items, 1
  {
    if items != [] {
      var tail := if |items| == 1 then "]" + rest else "," + WriteItems(ItemsOf(items)[1..], rest);
      PrintItemsIsWrite(items[1..], rest);
      PrintIsWrite(items[0], tail);
      assert ItemsOf(items)[1..] == ItemsOf(items[1..]) && items == [items[0]] + items[1..];
      assert "" + tail == tail && "" + Write(ShapeOf(items[0]), tail) == Write(ShapeOf(items[0]), tail);
      assert WriteItem(ItemsOf(items)[0], tail) == Print(items[0]) + tail;
      if |items| == 1 {
        Associate(Print(items[0]), "]", rest);
      } else {
        Associate(Print(items[0]), ",", PrintItems(items[1..]) + rest);
        Associate(Print(items[0]) + ",", PrintItems(items[1..]), rest);
      }
      hide Print, Write, ShapeOf, Meaning, WellFormed;
    }
  }

  lemma {:induction false} PrintMemberIsWrite(m: Member, rest: string)
    ensures var entry := EntriesOf([m])[0];
            EntryWellFormed(entry) && Member(Chars(entry.key), Meaning(entry.item.shape)) == m
            && WriteEntry(entry, rest) == PrintMember(m) + rest
    decreases m, 3
  {
    PrintIsWrite(m.value, rest);
    QuoteIsWrite(m.key, ":" + (Print(m.value) + rest));
    hide Print, Write, Quote, ShapeOf, Meaning, WellFormed, PartsOf, TextOfParts, AllWellSpelled;
    MemberText(m, rest);
  }

  lemma MemberText(m: Member, rest: string)
    requires Write(ShapeOf(m.value), rest) == Print(m.value) + rest
    requires "\"" + TextOfParts(PartsOf(m.key), ":" + (Print(m.value) + rest)) == Quote(m.key) + (":" + (Print(m.value) + rest))
    ensures WriteEntry(EntriesOf([m])[0], rest) == PrintMember(m) + rest
  {
    var printed := Print(m.value);
    hide Print, Write, Quote, ShapeOf, PartsOf, TextOfParts;
    var item := Item("", ShapeOf(m.value), "");
    assert "" + rest == rest && "" + (printed + rest) == printed + rest;
    assert WriteItem(item, rest) == printed + rest;
    var text := ":" + (printed + rest);
    assert "" + text == text;
    assert EntriesOf([m])[0] == Entry("", PartsOf(m.key), "", item);
    assert "" + (Quote(m.key) + text) == Quote(m.key) + text;
    assert Quote(m.key) + text == (Quote(m.key) + ":" + printed) + rest;
  }

  lemma {:induction false} PrintMembersIsWrite(members: seq<Member>, rest: string)
    ensures EntriesWellFormed(EntriesOf(members)) && MeaningEntries(EntriesOf(members)) == members
    ensures members != [] ==> WriteEntries(EntriesOf(members), rest) == PrintMembers(members) + rest
    decreases members, 2
  {
    if members != [] {
      var entries, m := EntriesOf(members), members[0];
      var tail := if |members| == 1 then "}" + rest else "," + WriteEntries(entries[1..], rest);
      PrintMembersIsWrite(members[1..], rest);
      PrintMemberIsWrite(m, tail);
      assert EntriesOf([m])[0] == entries[0];
      assert entries[1..] == EntriesOf(members[1..]) && members == [m] + members[1..];
      if |members| == 1 {
        Associate(PrintMember(m), "}", rest);
      } else {
        Associate(PrintMember(m), ",", PrintMembers(members[1..]) + rest);
        Associate(PrintMember(m) + ",", PrintMembers(members[1..]), rest);
      }
      hide PrintMember, WriteEntry, ShapeOf, Meaning, WellFormed, EntryWellFormed, PartsOf;
    }
  }

  /** Every syntax tree survives the trip through its text. */
  lemma PrintThenParse(j: Json)
    ensures ParseJson(Print(j)) == Some(j)
  {
    PrintIsWrite(j, "");
    var text := Print(j);
    assert text + "" == text && "" + text == text;
    hide Print, Write, WellFormed, Meaning, ParseJson;
    assert IsTextOf(text, ShapeOf(j), "", "");
    ParserIsExact(text, j);
  }
}
