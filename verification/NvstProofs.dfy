/** What the envelope codec promises: round trips through two layers of JSON, and agreement of the cached bytes. */
module NvstProofs {
  import opened Wrappers
  import opened Signals
  import opened Json
  import opened JsonRoundTrip
  import opened Values
  import opened Nvst

  // ---------------------------------------------------------------- inner payload

  lemma DecodeMembersSnoc(members: seq<Member>, m: Member)
    requires DecodeMembers(members).Some?
    ensures DecodeMembers(members + [m]) == DecodeMember(DecodeMembers(members).value, m)
  {
    assert (members + [m])[..|members|] == members;
  }

  lemma DecodeOptionalText(members: seq<Member>, key: string, text: string)
    requires DecodeMembers(members).Some?
    ensures DecodeMembers(members + OptionalText(key, text))
      == if text == "" then DecodeMembers(members)
         else DecodeMember(DecodeMembers(members).value, Member(key, JString(text)))
  {
    if text == "" {
      assert members + [] == members;
    } else {
      DecodeMembersSnoc(members, Member(key, JString(text)));
    }
  }

  lemma DecodeOptionalInt(members: seq<Member>, key: string, n: int)
    requires DecodeMembers(members).Some?
    ensures DecodeMembers(members + OptionalInt(key, n))
      == if n == 0 then DecodeMembers(members)
         else DecodeMember(DecodeMembers(members).value, Member(key, IntJson(n)))
  {
    if n == 0 {
      assert members + [] == members;
    } else {
      DecodeMembersSnoc(members, Member(key, IntJson(n)));
    }
  }

  lemma DecodeOneMember(inner: Inner, t: string, n: Int64)
    ensures DecodeMember(inner, Member("type", JString(t))) == Some(inner.(kind := t))
    ensures DecodeMember(inner, Member("sdp", JString(t))) == Some(inner.(sdp := t))
    ensures DecodeMember(inner, Member("candidate", JString(t))) == Some(inner.(candidate := t))
    ensures DecodeMember(inner, Member("sdpMid", JString(t))) == Some(inner.(sdpMid := t))
    ensures DecodeMember(inner, Member("sdpMLineIndex", IntJson(n))) == Some(inner.(sdpMLineIndex := n))
  {
    DecimalIsNumber(n);
    TruncDecimal(n);
  }

  /** omitempty loses nothing: a left-out field decodes to the empty value it had. */
  lemma InnerRoundTrip(inner: Inner)
    ensures DecodeInner(InnerText(inner)) == Some(inner)
  {
    PrintThenParse(JObject(InnerMembers(inner)));
    var a := [Member("type", JString(inner.kind))];
    DecodeMembersSnoc([], a[0]);
    assert [] + a == a;
    DecodeOneMember(NO_INNER, inner.kind, 0);
    var b := a + OptionalText("sdp", inner.sdp);
    DecodeOptionalText(a, "sdp", inner.sdp);
    DecodeOneMember(Inner(inner.kind, "", "", "", 0), inner.sdp, 0);
    var c := b + OptionalText("candidate", inner.candidate);
    DecodeOptionalText(b, "candidate", inner.candidate);
    DecodeOneMember(Inner(inner.kind, inner.sdp, "", "", 0), inner.candidate, 0);
    var d := c + OptionalText("sdpMid", inner.sdpMid);
    DecodeOptionalText(c, "sdpMid", inner.sdpMid);
    DecodeOneMember(Inner(inner.kind, inner.sdp, inner.candidate, "", 0), inner.sdpMid, 0);
    DecodeOptionalInt(d, "sdpMLineIndex", inner.sdpMLineIndex);
    DecodeOneMember(Inner(inner.kind, inner.sdp, inner.candidate, inner.sdpMid, 0), "", inner.sdpMLineIndex);
  }

  /** What AsPeerMsg makes of a printed payload: the payload, or nothing if it has no type. */
  lemma InnerOfPrinted(inner: Inner)
    ensures InnerText(inner) != ""
    ensures InnerOf(InnerText(inner)) == if inner.kind == "" then None else Some(inner)
  {
    InnerRoundTrip(inner);
  }

  // -------------------------------------------------------------- the envelope

  lemma FromMembersSnoc(members: seq<Member>, m: Member)
    ensures FromMembers(members + [m]) == FromMembers(members)[m.key := FromJson(m.value)]
  {
    assert (members + [m])[..|members|] == members;
  }

  function WireInt(n: int): Any {
    DecimalIsNumber(n);
    Float(Decimal(n))
  }

  lemma FromOptionalInt(members: seq<Member>, key: string, n: int)
    ensures FromMembers(members + OptionalInt(key, n))
      == if n == 0 then FromMembers(members) else FromMembers(members)[key := WireInt(n)]
  {
    if n == 0 {
      assert members + [] == members;
    } else {
      FromMembersSnoc(members, Member(key, IntJson(n)));
    }
  }

  /** The fields a peer_msg object holds once parsed. */
  function RoutingFields(from: int, to: int, text: string): Fields {
    if to == 0 then map["from" := WireInt(from), "msg" := Text(text)]
    else map["from" := WireInt(from), "to" := WireInt(to), "msg" := Text(text)]
  }

  lemma FromRoutingMembers(from: int, to: int, text: string)
    ensures FromMembers(RoutingMembers(from, to, text)) == RoutingFields(from, to, text)
  {
    var a := [Member("from", IntJson(from))];
    FromMembersSnoc([], a[0]);
    assert [] + a == a;
    FromOptionalInt(a, "to", to);
    FromMembersSnoc(a + OptionalInt("to", to), Member("msg", JString(text)));
  }

  function KitFields(from: int, to: int, inner: Inner): Fields {
    map["peer_msg" := Object(RoutingFields(from, to, InnerText(inner)))]
  }

  function AckidFields(ackid: int): Fields { if ackid == 0 then map[] else map["ackid" := WireInt(ackid)] }

  function BrowserFields(ackid: int, from: int, inner: Inner): Fields {
    AckidFields(ackid)["peer_msg" := Object(RoutingFields(from, 0, InnerText(inner)))]
  }

  lemma FromKitFrame(from: int, to: int, inner: Inner)
    ensures FromMembers(KitFrame(from, to, inner)) == KitFields(from, to, inner)
  {
    hide RoutingMembers, RoutingFields, InnerText;
    FromRoutingMembers(from, to, InnerText(inner));
    FromMembersSnoc([], KitFrame(from, to, inner)[0]);
    assert [] + KitFrame(from, to, inner) == KitFrame(from, to, inner);
  }

  lemma FromAckidMember(ackid: int)
    ensures FromMembers(OptionalInt("ackid", ackid)) == AckidFields(ackid)
  {
    FromOptionalInt([], "ackid", ackid);
    assert [] + OptionalInt("ackid", ackid) == OptionalInt("ackid", ackid);
  }

  lemma FromBrowserFrame(ackid: int, from: int, inner: Inner)
    ensures FromMembers(BrowserFrame(ackid, from, inner)) == BrowserFields(ackid, from, inner)
  {
    hide RoutingMembers, RoutingFields, InnerText, AckidFields;
    FromRoutingMembers(from, 0, InnerText(inner));
    FromAckidMember(ackid);
    FromMembersSnoc(OptionalInt("ackid", ackid), KitFrame(from, 0, inner)[0]);
  }

  lemma WireIntIsRead(n: int)
    ensures AsInt(WireInt(n)) == n
  {
    TruncDecimal(n);
  }

  lemma RoutingEntries(from: int, to: int, text: string)
    ensures var f := RoutingFields(from, to, text);
            && "from" in f && f["from"] == WireInt(from) && TextOf(f, "msg") == text
            && ("to" in f <==> to != 0) && (to != 0 ==> f["to"] == WireInt(to))
  {
  }

  lemma RoutingIsRead(fields: Fields, from: int, to: int, inner: Inner)
    requires "peer_msg" in fields && fields["peer_msg"] == Object(RoutingFields(from, to, InnerText(inner)))
    ensures AsPeerMsg(fields) == Some(Outer(from, to, to != 0, if inner.kind == "" then None else Some(inner)))
  {
    RoutingEntries(from, to, InnerText(inner));
    WireIntIsRead(from);
    WireIntIsRead(to);
    InnerOfPrinted(inner);
  }

  /** A built frame is cached with the very map its bytes parse to. */
  lemma BuildFrameAgrees(members: seq<Member>)
    ensures BuildFrame(members) == Some(Envelope(Some(FromMembers(members)), Some(Print(JObject(members)))))
    ensures Parse(Encode(BuildFrame(members).value)) == Some(Envelope(Some(FromMembers(members)), None))
  {
    PrintThenParse(JObject(members));
  }

  /** Client-to-server frames: build, encode, parse and AsPeerMsg give back the routing and the payload. */
  lemma ToKitRoundTrip(from: int, to: int, inner: Inner)
    ensures NewPeerMsgToKit(from, to, inner).Some?
    ensures var m := NewPeerMsgToKit(from, to, inner).value;
            && Parse(Encode(m)) == Some(m.(encoded := None))
            && AsPeerMsg(m.Entries()) == Some(Outer(from, to, to != 0, if inner.kind == "" then None else Some(inner)))
            && Ackid(m.Entries()) == None && !IsAck(m.Entries())
  {
    BuildFrameAgrees(KitFrame(from, to, inner));
    FromKitFrame(from, to, inner);
    RoutingIsRead(KitFields(from, to, inner), from, to, inner);
    hide BuildFrame, KitFrame, RoutingFields, Parse, Encode, AsPeerMsg;
  }

  lemma BrowserEntries(ackid: int, from: int, inner: Inner)
    ensures var f := BrowserFields(ackid, from, inner);
            && "peer_msg" in f && f["peer_msg"] == Object(RoutingFields(from, 0, InnerText(inner)))
            && "sdp" !in f && "candidate" !in f
            && Ackid(f) == (if ackid == 0 then None else Some(ackid)) && !IsAck(f)
  {
    WireIntIsRead(ackid);
    hide RoutingFields, InnerText, WireInt;
  }

  /** Server-to-client frames: never a `to`, and an ackid on the wire exactly when it is not zero. */
  lemma ToBrowserRoundTrip(ackid: int, from: int, inner: Inner)
    ensures NewPeerMsgToBrowser(ackid, from, inner).Some?
    ensures var m := NewPeerMsgToBrowser(ackid, from, inner).value;
            && Parse(Encode(m)) == Some(m.(encoded := None))
            && AsPeerMsg(m.Entries()) == Some(Outer(from, 0, false, if inner.kind == "" then None else Some(inner)))
            && Ackid(m.Entries()) == (if ackid == 0 then None else Some(ackid)) && !IsAck(m.Entries())
  {
    BuildFrameAgrees(BrowserFrame(ackid, from, inner));
    FromBrowserFrame(ackid, from, inner);
    BrowserEntries(ackid, from, inner);
    RoutingIsRead(BrowserFields(ackid, from, inner), from, 0, inner);
    hide BuildFrame, BrowserFrame, BrowserFields, Parse, Encode, AsPeerMsg, Ackid, IsAck;
  }

  lemma NullRoundTrip()
    ensures Parse("null") == Some(Envelope(None, None))
  {
    PrintThenParse(JNull);
  }

  /** What Encode writes is parsed back as the map it was written from, the cached bytes standing for their own parse. */
  lemma EncodeThenParse(raw: Option<Fields>)
    ensures Parse(Encode(Envelope(raw, None)))
      == Some(Envelope(if raw.None? then None else Some(NormalFields(raw.value)), None))
  {
    if raw.None? {
      NullRoundTrip();
    } else {
      UnmarshalInvertsMarshal(raw.value);
    }
  }

  lemma AckRoundTrip(ackid: int)
    ensures Parse(Encode(NewAck(ackid))) == Some(Envelope(Some(map["ack" := WireInt(ackid)]), None))
  {
    EncodeThenParse(NewAck(ackid).raw);
    assert NormalFields(NewAck(ackid).raw.value) == map["ack" := WireInt(ackid)];
  }

  lemma NormalOfPut(fields: Fields, key: string, a: Any)
    ensures NormalFields(fields[key := a]) == NormalFields(fields)[key := Normal(a)]
  {
  }

  lemma NormalOfObject(fields: Fields)
    ensures Normal(Object(fields)) == Object(NormalFields(fields))
  {
  }

  lemma AsIntOfNormal(a: Any)
    ensures AsInt(Normal(a)) == AsInt(a)
  {
    if a.Int? {
      TruncDecimal(a.n);
    }
  }

  lemma TextOfNormal(fields: Fields, key: string)
    ensures TextOf(NormalFields(fields), key) == TextOf(fields, key)
  {
  }

  lemma PeerMsgSurvivesTheWire(fields: Fields)
    ensures AsPeerMsg(NormalFields(fields)) == AsPeerMsg(fields)
  {
    if HasPeerMsg(fields) {
      var pm := fields["peer_msg"].fields;
      NormalOfObject(pm);
      TextOfNormal(pm, "msg");
      if "from" in pm {
        AsIntOfNormal(pm["from"]);
      }
      if "to" in pm {
        AsIntOfNormal(pm["to"]);
      }
    }
  }

  /** Every accessor reads the same before and after the wire, whichever way a number is held. */
  lemma AccessorsSurviveTheWire(fields: Fields, key: string)
    ensures var wired := NormalFields(fields);
            && TextOf(wired, key) == TextOf(fields, key)
            && KindOf(wired) == KindOf(fields)
            && SdpMLineIndex(wired) == SdpMLineIndex(fields)
            && Ackid(wired) == Ackid(fields)
            && IsAck(wired) == IsAck(fields)
            && AsPeerMsg(wired) == AsPeerMsg(fields)
  {
    TextOfNormal(fields, key);
    TextOfNormal(fields, "type");
    PeerMsgSurvivesTheWire(fields);
    if "sdpMLineIndex" in fields {
      AsIntOfNormal(fields["sdpMLineIndex"]);
    }
    if "ackid" in fields {
      AsIntOfNormal(fields["ackid"]);
    }
  }

  // -------------------------------------------------------------------- setters

  lemma PutFieldCommutesWithWire(fields: Fields, s: Setter)
    ensures NormalFields(PutField(fields, s)) == PutField(NormalFields(fields), s)
  {
    match s
    case PutSdp(sdp) => NormalOfPut(fields, "sdp", Text(sdp));
    case PutCandidate(c) => NormalOfPut(fields, "candidate", Text(c));
    case PutInner(inner) =>
      if HasPeerMsg(fields) {
        var pm := fields["peer_msg"].fields;
        var put := pm["msg" := Text(InnerText(inner))];
        NormalOfPut(pm, "msg", Text(InnerText(inner)));
        NormalOfPut(fields, "peer_msg", Object(put));
        NormalOfObject(pm);
        NormalOfObject(put);
      }
  }

  lemma {:induction false} PutFieldsCommutesWithWire(fields: Fields, setters: seq<Setter>)
    ensures NormalFields(PutFields(fields, setters)) == PutFields(NormalFields(fields), setters)
  {
    if setters != [] {
      var init := setters[..|setters| - 1];
      PutFieldsCommutesWithWire(fields, init);
      PutFieldCommutesWithWire(PutFields(fields, init), setters[|setters| - 1]);
    }
  }

  /** Any run of setters on a parsed message reaches the wire as it stands in memory. */
  lemma SettersReachTheWire(data: string, setters: seq<Setter>)
    requires Parse(data).Some? && Parse(data).value.raw.Some?
    ensures var changed := PutFields(Parse(data).value.raw.value, setters);
            Parse(Encode(Envelope(Some(changed), None))) == Some(Envelope(Some(changed), None))
  {
    var fields := Parse(data).value.raw.value;
    UnmarshalIsWired(data);
    NormalFieldsKeepsWired(fields);
    PutFieldsCommutesWithWire(fields, setters);
    EncodeThenParse(Some(PutFields(fields, setters)));
  }

  /** Outside sdp, candidate and peer_msg.msg nothing changes, and no peer_msg appears or goes away. */
  ghost predicate OnlyNamedFieldsChange(before: Fields, after: Fields) {
    && (forall k :: k != "sdp" && k != "candidate" && k != "peer_msg" ==>
          (k in after <==> k in before) && (k in before ==> after[k] == before[k]))
    && HasPeerMsg(after) == HasPeerMsg(before)
    && (!HasPeerMsg(before) ==>
          ("peer_msg" in after <==> "peer_msg" in before) && ("peer_msg" in before ==> after["peer_msg"] == before["peer_msg"]))
    && (HasPeerMsg(before) ==>
          forall k :: k != "msg" ==>
            (k in after["peer_msg"].fields <==> k in before["peer_msg"].fields)
            && (k in before["peer_msg"].fields ==> after["peer_msg"].fields[k] == before["peer_msg"].fields[k]))
  }

  /** What a setter sets is what is read, under its own name. */
  lemma SettersAreRead(fields: Fields, text: string)
    ensures TextOf(PutField(fields, PutSdp(text)), "sdp") == text
    ensures TextOf(PutField(fields, PutSdp(text)), "candidate") == TextOf(fields, "candidate")
    ensures TextOf(PutField(fields, PutCandidate(text)), "candidate") == text
    ensures TextOf(PutField(fields, PutCandidate(text)), "sdp") == TextOf(fields, "sdp")
  {
  }

  lemma SetterChangesOnlyNamedFields(fields: Fields, s: Setter)
    ensures OnlyNamedFieldsChange(fields, PutField(fields, s))
  {
    hide InnerText;
  }

  lemma OnlyNamedFieldsChangeAgain(a: Fields, b: Fields, c: Fields)
    requires OnlyNamedFieldsChange(a, b) && OnlyNamedFieldsChange(b, c)
    ensures OnlyNamedFieldsChange(a, c)
  {
  }

  lemma {:induction false} SettersChangeOnlyNamedFields(fields: Fields, setters: seq<Setter>)
    ensures OnlyNamedFieldsChange(fields, PutFields(fields, setters))
  {
    if setters != [] {
      var before := PutFields(fields, setters[..|setters| - 1]);
      SettersChangeOnlyNamedFields(fields, setters[..|setters| - 1]);
      SetterChangesOnlyNamedFields(before, setters[|setters| - 1]);
      OnlyNamedFieldsChangeAgain(fields, before, PutFields(fields, setters));
    }
  }

  /** After SetPeerMsgInner the routing is the old one and the payload is the new one. */
  lemma PutInnerIsRead(fields: Fields, inner: Inner)
    requires AsPeerMsg(fields).Some?
    ensures AsPeerMsg(PutField(fields, PutInner(inner)))
      == Some(AsPeerMsg(fields).value.(inner := if inner.kind == "" then None else Some(inner)))
    ensures Ackid(PutField(fields, PutInner(inner))) == Ackid(fields)
  {
    InnerOfPrinted(inner);
  }

  /** A built message is sent as its cached bytes, so what a setter does to the map never shows. */
  lemma CachedBytesHideSetters(members: seq<Member>, s: Setter)
    ensures BuildFrame(members).Some? && BuildFrame(members).value.raw.Some?
    ensures var m := BuildFrame(members).value;
            var changed := m.(raw := Some(PutField(m.raw.value, s)));
            && Parse(Encode(changed)) == Some(m.(encoded := None))
            && (Parse(Encode(changed)) == Some(changed.(encoded := None)) <==> PutField(m.raw.value, s) == m.raw.value)
  {
    BuildFrameAgrees(members);
  }

  lemma InnerTextIsInjective(a: Inner, b: Inner)
    ensures InnerText(a) == InnerText(b) <==> a == b
  {
    InnerRoundTrip(a);
    InnerRoundTrip(b);
  }

  lemma PutChanges(fields: Fields, from: int, to: int, inner: Inner, s: Setter)
    requires "peer_msg" in fields && fields["peer_msg"] == Object(RoutingFields(from, to, InnerText(inner)))
    requires "sdp" !in fields && "candidate" !in fields
    ensures PutField(fields, s) == fields <==> s == PutInner(inner)
  {
    hide InnerText;
    match s
    case PutSdp(sdp) => assert "sdp" in PutField(fields, s);
    case PutCandidate(candidate) => assert "candidate" in PutField(fields, s);
    case PutInner(other) =>
      InnerTextIsInjective(other, inner);
      var pm := RoutingFields(from, to, InnerText(inner));
      assert pm["msg"] == Text(InnerText(inner));
      var put := pm["msg" := Text(InnerText(other))];
      assert PutField(fields, s)["peer_msg"] == Object(put) && put["msg"] == Text(InnerText(other));
      if other == inner {
        assert put == pm;
        assert PutField(fields, s) == fields;
      }
  }

  /**
   On a frame built for Kit SetSDP and SetCandidate never reach the wire, and
   SetPeerMsgInner does exactly when it sets the payload the frame was built from.
   */
  lemma SettersMissFrameToKit(from: int, to: int, inner: Inner, s: Setter)
    ensures NewPeerMsgToKit(from, to, inner).Some? && NewPeerMsgToKit(from, to, inner).value.raw.Some?
    ensures var m := NewPeerMsgToKit(from, to, inner).value;
            var changed := m.(raw := Some(PutField(m.raw.value, s)));
            Parse(Encode(changed)) == Some(changed.(encoded := None)) <==> s == PutInner(inner)
  {
    CachedBytesHideSetters(KitFrame(from, to, inner), s);
    BuildFrameAgrees(KitFrame(from, to, inner));
    FromKitFrame(from, to, inner);
    PutChanges(KitFields(from, to, inner), from, to, inner, s);
    hide Parse, Encode, PutField, KitFrame, KitFields, BuildFrame;
  }

  /** Likewise on a frame built for the browser. */
  lemma SettersMissFrameToBrowser(ackid: int, from: int, inner: Inner, s: Setter)
    ensures NewPeerMsgToBrowser(ackid, from, inner).Some? && NewPeerMsgToBrowser(ackid, from, inner).value.raw.Some?
    ensures var m := NewPeerMsgToBrowser(ackid, from, inner).value;
            var changed := m.(raw := Some(PutField(m.raw.value, s)));
            Parse(Encode(changed)) == Some(changed.(encoded := None)) <==> s == PutInner(inner)
  {
    CachedBytesHideSetters(BrowserFrame(ackid, from, inner), s);
    BuildFrameAgrees(BrowserFrame(ackid, from, inner));
    FromBrowserFrame(ackid, from, inner);
    BrowserEntries(ackid, from, inner);
    PutChanges(BrowserFields(ackid, from, inner), from, 0, inner, s);
    hide Parse, Encode, PutField, BrowserFrame, BrowserFields, BuildFrame;
  }

  // --------------------------------------------------------------- plain envelopes

  /** Offers, answers and candidates outside peer_msg are classified and read back as built, after the wire. */
  lemma PlainOfferIsRead(sdp: string)
    ensures var m := Parse(Encode(NewOffer(sdp)));
            m.Some? && KindOf(m.value.Entries()) == KindOffer && TextOf(m.value.Entries(), "sdp") == sdp
  {
    var fields := NewOffer(sdp).raw.value;
    assert NewOffer(sdp) == Envelope(Some(fields), None) && TextOf(fields, "sdp") == sdp && KindOf(fields) == KindOffer;
    hide *;
    ReadBack(fields, "sdp");
  }

  lemma PlainAnswerIsRead(sdp: string)
    ensures var m := Parse(Encode(NewAnswer(sdp)));
            m.Some? && KindOf(m.value.Entries()) == KindAnswer && TextOf(m.value.Entries(), "sdp") == sdp
  {
    var fields := NewAnswer(sdp).raw.value;
    assert NewAnswer(sdp) == Envelope(Some(fields), None) && TextOf(fields, "sdp") == sdp && KindOf(fields) == KindAnswer;
    hide *;
    ReadBack(fields, "sdp");
  }

  lemma PlainCandidateIsRead(candidate: string, mid: string, index: int)
    ensures var m := Parse(Encode(NewCandidate(candidate, mid, index)));
            && m.Some? && KindOf(m.value.Entries()) == KindCandidate && TextOf(m.value.Entries(), "candidate") == candidate
            && TextOf(m.value.Entries(), "sdpMid") == mid && SdpMLineIndex(m.value.Entries()) == index
  {
    var fields := NewCandidate(candidate, mid, index).raw.value;
    assert NewCandidate(candidate, mid, index) == Envelope(Some(fields), None) && KindOf(fields) == KindCandidate;
    assert TextOf(fields, "candidate") == candidate && TextOf(fields, "sdpMid") == mid && SdpMLineIndex(fields) == index;
    hide *;
    ReadBack(fields, "candidate");
    ReadBack(fields, "sdpMid");
  }

  /** An offer, an answer or a candidate by its `type` and by nothing else; an index that is no number is 0. */
  lemma TypeDecidesKind(fields: Fields)
    ensures var m := Parse(Encode(Envelope(Some(fields), None)));
            && m.Some?
            && (KindOf(m.value.Entries()) == KindOffer <==> "type" in fields && fields["type"] == Text("offer"))
            && (KindOf(m.value.Entries()) == KindAnswer <==> "type" in fields && fields["type"] == Text("answer"))
            && (KindOf(m.value.Entries()) == KindCandidate <==> "type" in fields && fields["type"] == Text("candidate"))
            && ("sdpMLineIndex" !in fields || fields["sdpMLineIndex"].Text? ==> SdpMLineIndex(m.value.Entries()) == 0)
  {
    ReadBack(fields, "type");
    hide Parse, Encode;
  }

  lemma ReadBack(fields: Fields, key: string)
    ensures var back := Parse(Encode(Envelope(Some(fields), None)));
            && back.Some? && TextOf(back.value.Entries(), key) == TextOf(fields, key)
            && KindOf(back.value.Entries()) == KindOf(fields) && SdpMLineIndex(back.value.Entries()) == SdpMLineIndex(fields)
  {
    EncodeThenParse(Some(fields));
    AccessorsSurviveTheWire(fields, key);
    hide Parse, Encode, NormalFields;
  }
}
