/** What the printed bytes look like: harmless characters only, and the frames as the libraries at both ends expect them. */
module JsonPrinting {
  import opened Wrappers
  import opened Signals
  import opened Strings
  import opened Json
  import opened JsonRoundTrip
  import opened Values
  import opened Nvst
  import opened NvstProofs
  import opened Hooks

  // ----------------------------------------------------------------- characters

  /** No control, none of the three that are special in HTML, no line separator. */
  predicate Clean(s: string) {
    forall k :: 0 <= k < |s| ==> s[k] >= ' ' && s[k] !in {'<', '>', '&', '\U{2028}', '\U{2029}'}
  }

  lemma CleanSum(s: string, t: string)
    requires Clean(s) && Clean(t)
    ensures Clean(s + t)
  {
  }

  lemma Hex4IsClean(n: nat)
    requires n < 0x10000
    ensures Clean(Hex4(n))
  {
    HexIsHex(n / 0x1000);
    HexIsHex(n / 0x100 % 0x10);
    HexIsHex(n / 0x10 % 0x10);
    HexIsHex(n % 0x10);
    hide HexDigit;
  }

  lemma EscapeIsClean(c: char)
    ensures Clean(EscapeChar(c))
  {
    if EscapedAsHex(c) {
      Hex4IsClean(c as int);
      hide Hex4;
    }
  }

  predicate PrintsItself(c: char) { c >= ' ' && c !in {'"', '\\', '<', '>', '&', '\U{2028}', '\U{2029}'} }

  lemma Hex4Reads(n: nat)
    requires n < 0x10000
    ensures ParseHex4(Hex4(n)) == Some(n)
  {
    Hex4Value(n);
  }

  /** Which characters are escaped, and how; the escape with four digits names the character it stands for. */
  lemma EscapesExactly(c: char)
    ensures EscapeChar(c) == [c] <==> PrintsItself(c)
    ensures c == '"' || c == '\\' ==> EscapeChar(c) == ['\\', c]
    ensures c in {'\n', '\r', '\t', '\U{0008}', '\U{000C}'} ==> |EscapeChar(c)| == 2
    ensures !PrintsItself(c) && c !in {'"', '\\', '\n', '\r', '\t', '\U{0008}', '\U{000C}'} ==>
      var e := EscapeChar(c); |e| == 6 && e[..2] == "\\u" && Clean(e[2..]) && ParseHex4(e[2..]) == Some(c as int)
  {
    if EscapedAsHex(c) {
      Hex4Reads(c as int);
      Hex4IsClean(c as int);
      assert ("\\u" + Hex4(c as int))[2..] == Hex4(c as int);
      hide Hex4;
    }
  }

  /** Text without such characters is printed as it is, between quotes. */
  lemma PlainTextIsItself(s: string)
    requires forall k :: 0 <= k < |s| ==> PrintsItself(s[k])
    ensures Quote(s) == "\"" + s + "\""
  {
    EscapeIsText(s);
  }

  lemma {:induction false} EscapeIsText(s: string)
    requires forall k :: 0 <= k < |s| ==> PrintsItself(s[k])
    ensures Escape(s) == s
  {
    if s != "" {
      EscapeIsText(s[1..]);
      assert s == [s[0]] + s[1..];
    }
  }

  lemma HexIsHex(n: nat)
    requires n < 16
    ensures HexDigit(n) in "0123456789abcdef"
  {
    assert "0123456789abcdef"[n] == HexDigit(n);
  }

  lemma {:induction false} TextIsClean(s: string)
    ensures Clean(Escape(s))
  {
    if s != "" {
      EscapeIsClean(s[0]);
      TextIsClean(s[1..]);
      hide EscapeChar;
    }
  }

  lemma QuoteIsClean(s: string)
    ensures Clean(Quote(s))
  {
    TextIsClean(s);
    hide Escape;
  }

  lemma NumberIsClean(l: NumberLiteral)
    ensures Clean(l)
  {
    var a := IntegerEnd(l).value;
    var f := FractionEnd(l, a).value;
    forall k | 0 <= k < |l|
      ensures IsDigit(l[k]) || l[k] in {'+', '-', '.', 'e', 'E'}
    {
    }
  }

  /** Whatever is printed is clean. */
  lemma {:induction false} PrintIsClean(j: Json)
    ensures Clean(Print(j))
    decreases j, 0
  {
    match j
    case JNumber(l) => NumberIsClean(l);
    case JString(s) => QuoteIsClean(s);
    case JArray(items) => ItemsAreClean(items);
    case JObject(members) => MembersAreClean(members);
    case _ =>
  }

  lemma {:induction false} ItemsAreClean(items: seq<Json>)
    ensures Clean(PrintItems(items))
    decreases items, 1
  {
    if items != [] {
      PrintIsClean(items[0]);
      ItemsAreClean(items[1..]);
      hide Print;
    }
  }

  lemma MemberIsClean(m: Member)
    requires Clean(Print(m.value))
    ensures Clean(PrintMember(m))
  {
    hide Print, Quote;
    QuoteIsClean(m.key);
    CleanSum(Quote(m.key), ":");
    CleanSum(Quote(m.key) + ":", Print(m.value));
  }

  lemma {:induction false} MembersAreClean(members: seq<Member>)
    ensures Clean(PrintMembers(members))
    decreases members, 1
  {
    hide Print, PrintMember, Clean;
    assert Clean(",") && Clean("}") by { SignsAreClean(); }
    if members != [] {
      PrintIsClean(members[0].value);
      MemberIsClean(members[0]);
      MembersAreClean(members[1..]);
      CleanSum(PrintMember(members[0]), "}");
      CleanSum(PrintMember(members[0]), ",");
      CleanSum(PrintMember(members[0]) + ",", PrintMembers(members[1..]));
    }
  }

  lemma SignsAreClean()
    ensures Clean(",") && Clean("}")
  {
  }

  // --------------------------------------------------------------------- frames

  lemma MemberText(name: string, j: Json)
    requires forall k :: 0 <= k < |name| ==> 'A' <= name[k] <= 'Z' || 'a' <= name[k] <= 'z' || name[k] == '_'
    ensures PrintMember(Member(name, j)) == "\"" + name + "\":" + Print(j)
  {
    EscapeIsText(name);
    assert "\"" + name + "\"" + ":" == "\"" + name + "\":";
  }

  /** Members after the first one, each with its comma. */
  function WithCommas(members: seq<Member>): string {
    if members == [] then "" else "," + PrintMember(members[0]) + WithCommas(members[1..])
  }

  lemma {:induction false} CommasBetween(first: Member, others: seq<Member>)
    ensures PrintMembers([first] + others) == PrintMember(first) + WithCommas(others) + "}"
    decreases |others|
  {
    hide PrintMember;
    var members := [first] + others;
    assert members[1..] == others;
    if others != [] {
      CommasBetween(others[0], others[1..]);
      assert others == [others[0]] + others[1..];
    }
  }

  lemma {:induction false} CommasSum(a: seq<Member>, b: seq<Member>)
    ensures WithCommas(a + b) == WithCommas(a) + WithCommas(b)
  {
    hide PrintMember;
    if a == [] {
      assert a + b == b;
    } else {
      CommasSum(a[1..], b);
      assert (a + b)[1..] == a[1..] + b;
    }
  }

  lemma OneWithComma(m: Member)
    ensures WithCommas([m]) == "," + PrintMember(m)
  {
    assert [m][1..] == [] && WithCommas([]) == "";
  }

  /** A field that is left out when it is empty, with its comma. */
  function TextField(name: string, text: string): string {
    if text == "" then "" else ",\"" + name + "\":" + Quote(text)
  }

  function IntField(name: string, n: int): string { if n == 0 then "" else ",\"" + name + "\":" + Decimal(n) }

  lemma InFront(name: string, text: string)
    ensures "," + ("\"" + name + "\":" + text) == ",\"" + name + "\":" + text
  {
  }

  lemma OptionalTextPrinted(name: string, text: string)
    requires forall k :: 0 <= k < |name| ==> 'A' <= name[k] <= 'Z' || 'a' <= name[k] <= 'z' || name[k] == '_'
    ensures WithCommas(OptionalText(name, text)) == TextField(name, text)
  {
    hide Quote, PrintMember, WithCommas;
    if text == "" {
      NoCommas();
    } else {
      OneWithComma(Member(name, JString(text)));
      MemberText(name, JString(text));
      InFront(name, Quote(text));
    }
  }

  lemma NoCommas()
    ensures WithCommas([]) == ""
  {
  }

  lemma OptionalIntPrinted(name: string, n: int)
    requires forall k :: 0 <= k < |name| ==> 'A' <= name[k] <= 'Z' || 'a' <= name[k] <= 'z' || name[k] == '_'
    ensures WithCommas(OptionalInt(name, n)) == IntField(name, n)
  {
    hide Decimal, PrintMember, WithCommas;
    if n == 0 {
      NoCommas();
    } else {
      OneWithComma(Member(name, IntJson(n)));
      MemberText(name, IntJson(n));
      InFront(name, Decimal(n));
    }
  }

  lemma Associate(a: string, b: string, c: string)
    ensures (a + b) + c == a + (b + c)
  {
  }

  /** An object of one member and some more is these texts in a row. */
  lemma ObjectText(name: string, j: Json, others: seq<Member>)
    requires forall k :: 0 <= k < |name| ==> 'A' <= name[k] <= 'Z' || 'a' <= name[k] <= 'z' || name[k] == '_'
    ensures Print(JObject([Member(name, j)] + others)) == "{" + ("\"" + name + "\":" + (Print(j) + (WithCommas(others) + "}")))
  {
    var first := Member(name, j);
    assert Print(JObject([first] + others)) == "{" + PrintMembers([first] + others);
    hide *;
    CommasBetween(first, others);
    MemberText(name, j);
    Associate("\"" + name + "\":" + Print(j), WithCommas(others), "}");
    Associate("\"" + name + "\":", Print(j), WithCommas(others) + "}");
  }

  lemma FourOptional(a: seq<Member>, b: seq<Member>, c: seq<Member>, d: seq<Member>)
    ensures WithCommas(a + b + c + d) + "}" == WithCommas(a) + (WithCommas(b) + (WithCommas(c) + (WithCommas(d) + "}")))
  {
    hide *;
    CommasSum(a, b);
    CommasSum(a + b, c);
    CommasSum(a + b + c, d);
    Four(WithCommas(a), WithCommas(b), WithCommas(c), WithCommas(d), "}");
  }

  lemma Four(w: string, x: string, y: string, z: string, close: string)
    ensures w + x + y + z + close == w + (x + (y + (z + close)))
  {
    Associate(w + x + y, z, close);
    Associate(w + x, y, z + close);
    Associate(w, x, y + (z + close));
  }

  lemma PayloadMembers(inner: Inner)
    ensures InnerMembers(inner)
         == [Member("type", JString(inner.kind))] + (OptionalText("sdp", inner.sdp) + OptionalText("candidate", inner.candidate)
            + OptionalText("sdpMid", inner.sdpMid) + OptionalInt("sdpMLineIndex", inner.sdpMLineIndex))
  {
    hide OptionalText, OptionalInt;
  }

  lemma OptionalFields(inner: Inner)
    ensures WithCommas(OptionalText("sdp", inner.sdp)) == TextField("sdp", inner.sdp)
    ensures WithCommas(OptionalText("candidate", inner.candidate)) == TextField("candidate", inner.candidate)
    ensures WithCommas(OptionalText("sdpMid", inner.sdpMid)) == TextField("sdpMid", inner.sdpMid)
    ensures WithCommas(OptionalInt("sdpMLineIndex", inner.sdpMLineIndex)) == IntField("sdpMLineIndex", inner.sdpMLineIndex)
  {
    hide *;
    OptionalTextPrinted("sdp", inner.sdp);
    OptionalTextPrinted("candidate", inner.candidate);
    OptionalTextPrinted("sdpMid", inner.sdpMid);
    OptionalIntPrinted("sdpMLineIndex", inner.sdpMLineIndex);
  }

  /** The payload: the type first, then what is not empty, in this order. */
  lemma PayloadBytes(inner: Inner)
    ensures InnerText(inner)
         == "{" + ("\"" + "type" + "\":" + (Quote(inner.kind) + (TextField("sdp", inner.sdp) + (TextField("candidate", inner.candidate)
            + (TextField("sdpMid", inner.sdpMid) + (IntField("sdpMLineIndex", inner.sdpMLineIndex) + "}"))))))
  {
    var a, b := OptionalText("sdp", inner.sdp), OptionalText("candidate", inner.candidate);
    var c, d := OptionalText("sdpMid", inner.sdpMid), OptionalInt("sdpMLineIndex", inner.sdpMLineIndex);
    PrintText(inner.kind);
    PayloadText(inner);
    hide *;
    PayloadMembers(inner);
    ObjectText("type", JString(inner.kind), a + b + c + d);
    FourOptional(a, b, c, d);
    OptionalFields(inner);
  }

  lemma PrintText(text: string)
    ensures Print(JString(text)) == Quote(text)
  {
  }

  lemma PrintInt(n: int)
    ensures Print(IntJson(n)) == Decimal(n)
  {
  }

  lemma PayloadText(inner: Inner)
    ensures InnerText(inner) == Print(JObject(InnerMembers(inner)))
  {
  }

  /** The routing: from, then to unless it is 0, then the payload as a string. */
  lemma RoutingBytes(from: int, to: int, text: string)
    ensures Print(JObject(RoutingMembers(from, to, text)))
         == "{" + ("\"" + "from" + "\":" + (Decimal(from) + (IntField("to", to) + ("," + ("\"" + "msg" + "\":" + (Quote(text) + "}"))))))
  {
    var last, optional := Member("msg", JString(text)), OptionalInt("to", to);
    PrintText(text);
    PrintInt(from);
    RoutingList(from, to, text);
    hide *;
    ObjectText("from", IntJson(from), optional + [last]);
    OptionalIntPrinted("to", to);
    CommasSum(optional, [last]);
    LastText("msg", JString(text));
    Associate(IntField("to", to), WithCommas([last]), "}");
  }

  lemma RoutingList(from: int, to: int, text: string)
    ensures RoutingMembers(from, to, text) == [Member("from", IntJson(from))] + (OptionalInt("to", to) + [Member("msg", JString(text))])
  {
    hide OptionalInt, IntJson;
  }

  /** A last member with its comma and the closing brace. */
  lemma LastText(name: string, j: Json)
    requires forall k :: 0 <= k < |name| ==> 'A' <= name[k] <= 'Z' || 'a' <= name[k] <= 'z' || name[k] == '_'
    ensures WithCommas([Member(name, j)]) + "}" == "," + ("\"" + name + "\":" + (Print(j) + "}"))
  {
    hide *;
    OneWithComma(Member(name, j));
    MemberText(name, j);
    Associate(",", "\"" + name + "\":" + Print(j), "}");
    Associate("\"" + name + "\":", Print(j), "}");
  }

  /** A frame to Kit, to the byte. */
  lemma KitBytes(from: int, to: int, inner: Inner)
    ensures KitText(from, to, inner)
         == "{" + ("\"" + "peer_msg" + "\":" + (("{" + ("\"" + "from" + "\":" + (Decimal(from) + (IntField("to", to)
            + ("," + ("\"" + "msg" + "\":" + (Quote(InnerText(inner)) + "}"))))))) + "}"))
  {
    var routing := JObject(RoutingMembers(from, to, InnerText(inner)));
    KitFrameText(from, to, inner);
    NoMore();
    hide *;
    assert [Member("peer_msg", routing)] + [] == [Member("peer_msg", routing)];
    ObjectText("peer_msg", routing, []);
    RoutingBytes(from, to, InnerText(inner));
    Nothing("}");
  }

  lemma NoMore()
    ensures WithCommas([]) == "" && IntField("to", 0) == ""
  {
  }

  lemma Nothing(s: string)
    ensures "" + s == s
  {
  }

  lemma KitFrameText(from: int, to: int, inner: Inner)
    ensures KitText(from, to, inner)
         == Print(JObject([Member("peer_msg", JObject(RoutingMembers(from, to, InnerText(inner))))]))
  {
    BuildFrameAgrees(KitFrame(from, to, inner));
    hide PrintMembers, RoutingMembers, InnerText, Parse, Print;
  }

  lemma BrowserFrameText(ackid: int, from: int, inner: Inner)
    ensures var last := Member("peer_msg", JObject(RoutingMembers(from, 0, InnerText(inner))));
            BrowserText(ackid, from, inner)
              == Print(JObject(if ackid == 0 then [last] else [Member("ackid", IntJson(ackid))] + [last]))
  {
    BuildFrameAgrees(BrowserFrame(ackid, from, inner));
    hide PrintMembers, RoutingMembers, InnerText, Parse, Print, IntJson;
    var last := Member("peer_msg", JObject(RoutingMembers(from, 0, InnerText(inner))));
    assert [] + [last] == [last];
  }

  /** A frame to the browser: the ackid first unless it is 0, and never a `to`. */
  lemma BrowserBytes(ackid: int, from: int, inner: Inner)
    ensures var peerMsg := "\"" + "peer_msg" + "\":" + (("{" + ("\"" + "from" + "\":" + (Decimal(from)
                           + ("," + ("\"" + "msg" + "\":" + (Quote(InnerText(inner)) + "}")))))) + "}");
            BrowserText(ackid, from, inner)
              == if ackid == 0 then "{" + peerMsg else "{" + ("\"" + "ackid" + "\":" + (Decimal(ackid) + ("," + peerMsg)))
  {
    var routing := JObject(RoutingMembers(from, 0, InnerText(inner)));
    var last := Member("peer_msg", routing);
    BrowserFrameText(ackid, from, inner);
    NoMore();
    PrintInt(ackid);
    hide *;
    RoutingBytes(from, 0, InnerText(inner));
    Nothing("," + ("\"" + "msg" + "\":" + (Quote(InnerText(inner)) + "}")));
    if ackid == 0 {
      assert [last] + [] == [last];
      ObjectText("peer_msg", routing, []);
      Nothing("}");
    } else {
      ObjectText("ackid", IntJson(ackid), [last]);
      LastText("peer_msg", routing);
    }
  }

  /** A bare ack. */
  lemma AckBytes(ackid: int)
    ensures AckText(ackid) == "{" + ("\"" + "ack" + "\":" + (Decimal(ackid) + "}"))
  {
    AckMembers(ackid);
    PrintInt(ackid);
    NoMore();
    hide *;
    assert [Member("ack", IntJson(ackid))] + [] == [Member("ack", IntJson(ackid))];
    ObjectText("ack", IntJson(ackid), []);
    Nothing("}");
  }

  lemma AckMembers(ackid: int)
    ensures AckText(ackid) == Print(JObject([Member("ack", IntJson(ackid))]))
  {
    OneKey(ackid);
    hide Print, IntJson, ToJson;
  }

  lemma OneKey(ackid: int)
    ensures ToJson(Object(map["ack" := Int(ackid)])) == JObject([Member("ack", IntJson(ackid))])
  {
    var fields: map<string, Any> := map["ack" := Int(ackid)];
    var keys := SortedKeys(fields.Keys);
    assert "ack" in fields.Keys;
    assert forall i :: 0 <= i < |keys| ==> keys[i] in keys;
    OnlyKey(keys, "ack");
  }

  lemma OnlyKey(keys: seq<string>, key: string)
    requires key in keys && (forall i :: 0 <= i < |keys| ==> keys[i] == key)
    requires |keys| > 1 ==> Less(keys[0], keys[1])
    ensures keys == [key]
  {
    LessTotal(key, key);
  }
}
