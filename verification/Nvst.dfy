/**
 The NVST signalling envelope. A frame is a JSON object; a WebRTC payload
 travels in `peer_msg.msg`, a JSON string that is itself printed JSON.
 */
module Nvst {
  import opened Wrappers
  import opened Signals
  import opened Json
  import opened Values

  // ------------------------------------------------------------------ envelope

  /** A parsed or built message: the field map (None is Go's nil map) and the byte layout a builder fixed, if any. */
  datatype Envelope = Envelope(raw: Option<Fields>, encoded: Option<string>) {
    function Entries(): Fields { if raw.Some? then raw.value else map[] }
  }

  function Parse(data: string): Option<Envelope> {
    var raw :- Unmarshal(data);
    Some(Envelope(raw, None))
  }

  function Encode(e: Envelope): string {
    if e.encoded.Some? then e.encoded.value
    else if e.raw.None? then "null"
    else Marshal(e.raw.value)
  }

  function TextOf(fields: Fields, key: string): string {
    if key in fields && fields[key].Text? then fields[key].s else ""
  }

  /** A number of either representation as an int; anything else is 0. */
  function AsInt(a: Any): int {
    match a
    case Float(l) => Trunc(l)
    case Int(n) => n
    case _ => 0
  }

  datatype Kind = KindOther | KindOffer | KindAnswer | KindCandidate

  function KindOf(fields: Fields): Kind {
    match TextOf(fields, "type")
    case "offer" => KindOffer
    case "answer" => KindAnswer
    case "candidate" => KindCandidate
    case _ => KindOther
  }

  function SdpMLineIndex(fields: Fields): int {
    if "sdpMLineIndex" in fields then AsInt(fields["sdpMLineIndex"]) else 0
  }

  function NewOffer(sdp: string): Envelope {
    Envelope(Some(map["type" := Text("offer"), "sdp" := Text(sdp)]), None)
  }

  function NewAnswer(sdp: string): Envelope {
    Envelope(Some(map["type" := Text("answer"), "sdp" := Text(sdp)]), None)
  }

  function NewCandidate(candidate: string, sdpMid: string, index: int): Envelope {
    Envelope(Some(map["type" := Text("candidate"), "candidate" := Text(candidate),
                      "sdpMid" := Text(sdpMid), "sdpMLineIndex" := Int(index)]), None)
  }

  function NewAck(ackid: int): Envelope {
    Envelope(Some(map["ack" := Int(ackid)]), None)
  }

  predicate IsAck(fields: Fields) { "ack" in fields }

  function Ackid(fields: Fields): Option<int> {
    if "ackid" in fields then Some(AsInt(fields["ackid"])) else None
  }

  // -------------------------------------------------------------- inner payload

  const NO_INNER := Inner("", "", "", "", 0)

  function OptionalText(key: string, text: string): seq<Member> {
    if text == "" then [] else [Member(key, JString(text))]
  }

  function IntJson(n: int): Json {
    DecimalIsNumber(n);
    JNumber(Decimal(n))
  }

  function OptionalInt(key: string, n: int): seq<Member> {
    if n == 0 then [] else [Member(key, IntJson(n))]
  }

  function InnerMembers(inner: Inner): seq<Member> {
    [Member("type", JString(inner.kind))]
    + OptionalText("sdp", inner.sdp)
    + OptionalText("candidate", inner.candidate)
    + OptionalText("sdpMid", inner.sdpMid)
    + OptionalInt("sdpMLineIndex", inner.sdpMLineIndex)
  }

  function InnerText(inner: Inner): string { Print(JObject(InnerMembers(inner))) }

  /** A string field of a struct: null leaves it alone, any other non-string is an error. */
  function DecodeText(j: Json, current: string): Option<string> {
    match j
    case JString(s) => Some(s)
    case JNull => Some(current)
    case _ => None
  }

  predicate FitsInt64(l: NumberLiteral) {
    IntegerEnd(l) == Some(|l|) && -0x8000_0000_0000_0000 <= Trunc(l) < 0x8000_0000_0000_0000
  }

  function DecodeInt(j: Json, current: Int64): Option<Int64> {
    match j
    case JNumber(l) => if FitsInt64(l) then Some(Trunc(l)) else None
    case JNull => Some(current)
    case _ => None
  }

  function DecodeMember(inner: Inner, m: Member): Option<Inner> {
    match m.key
    case "type" => var t :- DecodeText(m.value, inner.kind); Some(inner.(kind := t))
    case "sdp" => var t :- DecodeText(m.value, inner.sdp); Some(inner.(sdp := t))
    case "candidate" => var t :- DecodeText(m.value, inner.candidate); Some(inner.(candidate := t))
    case "sdpMid" => var t :- DecodeText(m.value, inner.sdpMid); Some(inner.(sdpMid := t))
    case "sdpMLineIndex" => var n :- DecodeInt(m.value, inner.sdpMLineIndex); Some(inner.(sdpMLineIndex := n))
    case _ => Some(inner)
  }

  /** The members of an object stored into the struct from left to right. */
  function DecodeMembers(members: seq<Member>): Option<Inner> {
    if members == [] then Some(NO_INNER)
    else
      var inner :- DecodeMembers(members[..|members| - 1]);
      DecodeMember(inner, members[|members| - 1])
  }

  function DecodeInner(text: string): Option<Inner> {
    var j :- ParseJson(text);
    match j
    case JObject(members) => DecodeMembers(members)
    case JNull => Some(NO_INNER)
    case _ => None
  }

  // ----------------------------------------------------------- peer_msg envelope

  datatype Outer = Outer(from: int, to: int, hasTo: bool, inner: Option<Inner>)

  function InnerOf(text: string): Option<Inner> {
    if text == "" then None
    else
      var inner :- DecodeInner(text);
      if inner.kind == "" then None else Some(inner)
  }

  predicate HasPeerMsg(fields: Fields) { "peer_msg" in fields && fields["peer_msg"].Object? }

  /** The routing fields and the payload; None for a frame that carries no peer_msg. */
  function AsPeerMsg(fields: Fields): Option<Outer> {
    if !HasPeerMsg(fields) then None
    else
      var pm := fields["peer_msg"].fields;
      Some(Outer(if "from" in pm then AsInt(pm["from"]) else 0,
                 if "to" in pm then AsInt(pm["to"]) else 0,
                 "to" in pm,
                 InnerOf(TextOf(pm, "msg"))))
  }

  function RoutingMembers(from: int, to: int, text: string): seq<Member> {
    [Member("from", IntJson(from))] + OptionalInt("to", to) + [Member("msg", JString(text))]
  }

  function KitFrame(from: int, to: int, inner: Inner): seq<Member> {
    [Member("peer_msg", JObject(RoutingMembers(from, to, InnerText(inner))))]
  }

  /** The server-to-client envelope never has a `to`. */
  function BrowserFrame(ackid: int, from: int, inner: Inner): seq<Member> {
    OptionalInt("ackid", ackid) + [Member("peer_msg", JObject(RoutingMembers(from, 0, InnerText(inner))))]
  }

  /** The bytes of a frame with the field order of the struct, and their own parse next to them. */
  function BuildFrame(members: seq<Member>): Option<Envelope> {
    var buf := Print(JObject(members));
    var raw :- Unmarshal(buf);
    Some(Envelope(raw, Some(buf)))
  }

  function NewPeerMsgToKit(from: int, to: int, inner: Inner): Option<Envelope> {
    BuildFrame(KitFrame(from, to, inner))
  }

  function NewPeerMsgToBrowser(ackid: int, from: int, inner: Inner): Option<Envelope> {
    BuildFrame(BrowserFrame(ackid, from, inner))
  }

  // -------------------------------------------------------------------- setters

  datatype Setter = PutSdp(sdp: string) | PutCandidate(candidate: string) | PutInner(inner: Inner)

  function PutField(fields: Fields, s: Setter): Fields {
    match s
    case PutSdp(sdp) => fields["sdp" := Text(sdp)]
    case PutCandidate(c) => fields["candidate" := Text(c)]
    case PutInner(inner) =>
      if HasPeerMsg(fields) then
        fields["peer_msg" := Object(fields["peer_msg"].fields["msg" := Text(InnerText(inner))])]
      else fields
  }

  function PutFields(fields: Fields, setters: seq<Setter>): Fields {
    if setters == [] then fields
    else PutField(PutFields(fields, setters[..|setters| - 1]), setters[|setters| - 1])
  }

  /** A message held by reference: its setters overwrite entries of the map and leave the cached bytes alone. */
  class Message {
    var raw: Option<Fields>
    var encoded: Option<string>

    function Value(): Envelope
      reads this
    {
      Envelope(raw, encoded)
    }

    constructor (e: Envelope)
      ensures Value() == e
    {
      raw, encoded := e.raw, e.encoded;
    }

    /** Storing into a nil map panics, so the caller must hold a real map. */
    method SetSDP(sdp: string)
      requires raw.Some?
      modifies this`raw
      ensures raw == Some(PutField(old(raw).value, PutSdp(sdp)))
      ensures raw.value == old(raw).value["sdp" := Text(sdp)]
    {
      raw := Some(raw.value["sdp" := Text(sdp)]);
    }

    method SetCandidate(candidate: string)
      requires raw.Some?
      modifies this`raw
      ensures raw == Some(PutField(old(raw).value, PutCandidate(candidate)))
      ensures raw.value == old(raw).value["candidate" := Text(candidate)]
    {
      raw := Some(raw.value["candidate" := Text(candidate)]);
    }

    /** Replaces the payload in the nested map; fails without change when there is no peer_msg. */
    method SetPeerMsgInner(inner: Inner) returns (ok: bool)
      modifies this`raw
      ensures ok == HasPeerMsg(old(Value()).Entries())
      ensures raw == if ok then Some(PutField(old(raw).value, PutInner(inner))) else old(raw)
    {
      ok := HasPeerMsg(Value().Entries());
      if ok {
        var pm := raw.value["peer_msg"].fields;
        pm := pm["msg" := Text(InnerText(inner))];
        raw := Some(raw.value["peer_msg" := Object(pm)]);
      }
    }
  }
}
