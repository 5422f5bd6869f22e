/** What the two hooks make of any frame, whoever printed it. */
module HookLaws {
  import opened Wrappers
  import opened Signals
  import opened Json
  import opened Values
  import opened Nvst
  import opened NvstProofs
  import opened NvstReading
  import opened Hooks

  /** The number under a name; 0 for anything else, or nothing. */
  function NumberAt(fields: Fields, key: string): int {
    if key in fields && fields[key].Int? then fields[key].n
    else if key in fields && fields[key].Float? then Trunc(fields[key].literal)
    else 0
  }

  predicate HasObject(fields: Fields, key: string) { key in fields && fields[key].Object? }

  function ObjectAt(fields: Fields, key: string): Fields
    requires HasObject(fields, key)
  {
    fields[key].fields
  }

  /** The payload in a peer_msg: its `msg` is the text of an object, its members are well typed, and it has a type. */
  function PayloadIn(fields: Fields): Option<Inner> {
    if HasObject(fields, "peer_msg") && "msg" in ObjectAt(fields, "peer_msg") && ObjectAt(fields, "peer_msg")["msg"].Text? then
      match ParseJson(ObjectAt(fields, "peer_msg")["msg"].s)
      case Some(JObject(members)) =>
        if AllWellTyped(members) && LastText(members, "type") != "" then Some(Payload(members)) else None
      case _ => None
    else None
  }

  /** A frame as a signal, if it has a payload. */
  function SignalIn(fields: Fields): Verdict {
    match PayloadIn(fields)
    case None => Plain
    case Some(inner) =>
      var pm := ObjectAt(fields, "peer_msg");
      Signal(Wrap32(NumberAt(pm, "from")), if "to" in pm then Some(Wrap32(NumberAt(pm, "to"))) else None, inner,
             if "ackid" in fields then Some(NumberAt(fields, "ackid")) else None)
  }

  lemma PeerMsgIsSignal(fields: Fields)
    ensures PeerMsgVerdict(fields) == SignalIn(fields)
  {
    if HasObject(fields, "peer_msg") {
      TextIsPayloadExactly(TextOf(ObjectAt(fields, "peer_msg"), "msg"));
      assert ParseJson("") == None;
    }
    hide InnerOf, ParseJson, Wrap32, Trunc;
  }

  /** Which id a peer_info announces: the name says whose, and an id that is no number is 0. */
  function InfoIn(info: Fields): Verdict {
    var name := if "name" in info && info["name"].Text? then info["name"].s else "";
    if "OneSdkServer" <= name then KitInfo(Wrap32(NumberAt(info, "id")))
    else if "peer-" <= name then BrowserInfo(Wrap32(NumberAt(info, "id")))
    else Plain
  }

  lemma NumberOverTheWire(fields: Fields, key: string)
    ensures var wired := NormalFields(fields);
            NumberAt(fields, key) == if key in wired && wired[key].Float? then Trunc(wired[key].literal) else 0
  {
    hide Trunc, Decimal;
    if key in fields && fields[key].Int? {
      TruncDecimal(fields[key].n);
    }
  }

  lemma InfoOverTheWire(info: Fields)
    ensures PeerInfoVerdict(NormalFields(info)) == InfoIn(info)
  {
    hide NormalFields, NumberAt, Trunc, Wrap32;
    TextOfNormal(info, "name");
    NumberOverTheWire(info, "id");
  }

  lemma ObjectOverTheWire(fields: Fields, key: string)
    ensures HasObject(NormalFields(fields), key) == HasObject(fields, key)
    ensures HasObject(fields, key) ==> ObjectAt(NormalFields(fields), key) == NormalFields(ObjectAt(fields, key))
  {
    if HasObject(fields, key) {
      NormalOfObject(ObjectAt(fields, key));
    }
  }

  /** Over the wire and into the Kit hook: peer_info first, then a signal, and everything else is plain. */
  lemma KitHookReads(fields: Fields)
    ensures KitVerdict(Marshal(fields))
         == if HasObject(fields, "peer_info") then InfoIn(ObjectAt(fields, "peer_info")) else SignalIn(fields)
  {
    UnmarshalInvertsMarshal(fields);
    AccessorsSurviveTheWire(fields, "");
    PeerMsgIsSignal(fields);
    ObjectOverTheWire(fields, "peer_info");
    if HasObject(fields, "peer_info") {
      InfoOverTheWire(ObjectAt(fields, "peer_info"));
    }
    hide Unmarshal, Marshal, SignalIn, AsPeerMsg, Ackid, PeerInfoVerdict, NormalFields, InfoIn;
  }

  /** Into the client hook: whatever has an `ack` is an ack. */
  lemma ClientHookReads(fields: Fields)
    ensures ClientVerdict(Marshal(fields)) == if "ack" in fields then AckFrame else SignalIn(fields)
  {
    UnmarshalInvertsMarshal(fields);
    AccessorsSurviveTheWire(fields, "");
    PeerMsgIsSignal(fields);
    hide Unmarshal, Marshal, SignalIn, AsPeerMsg, Ackid;
  }

  /** What is not a JSON object tells the hooks nothing. */
  lemma OtherTextsArePlain(data: string)
    requires match ParseJson(data) case Some(JObject(_)) => false case _ => true
    ensures KitVerdict(data) == Plain && ClientVerdict(data) == Plain
  {
    ParsesExactly(data);
  }

  predicate WebRtcType(kind: string) { kind == "offer" || kind == "answer" || kind == "candidate" }

  /** Kit's frames: consumed are exactly those with a payload of the three types, and owed an ack those of them that have an ackid. */
  lemma KitFramesConsumed(fields: Fields)
    requires !HasObject(fields, "peer_info")
    ensures var payload := PayloadIn(fields);
            && (NVST.KitPasses(Marshal(fields)) <==> payload.None? || !WebRtcType(payload.value.kind))
            && NVST.OwedAck(Marshal(fields)) == if payload.Some? && WebRtcType(payload.value.kind) && "ackid" in fields
                                                then Some(NumberAt(fields, "ackid")) else None
  {
    KitHookReads(fields);
    hide KitVerdict, Marshal, PayloadIn, NumberAt, Wrap32;
  }

  /** The browser's frames: consumed are the acks and those with a payload of the three types. */
  lemma ClientFramesConsumed(fields: Fields)
    ensures var payload := PayloadIn(fields);
            NVST.ClientPasses(Marshal(fields)) <==>
              "ack" !in fields && (payload.None? || !WebRtcType(payload.value.kind))
  {
    ClientHookReads(fields);
    hide ClientVerdict, Marshal, PayloadIn, NumberAt, Wrap32;
  }

  /** An announcement is passed on whatever else it carries. */
  lemma AnnouncementsPass(fields: Fields)
    requires HasObject(fields, "peer_info")
    ensures NVST.KitPasses(Marshal(fields)) && NVST.OwedAck(Marshal(fields)) == None
  {
    KitHookReads(fields);
    hide KitVerdict, Marshal, NumberAt, Wrap32;
  }

  /** Of the frames the gateway itself builds, the hooks consume those of the three types. */
  lemma BuiltFramesConsumed(ackid: int, from: int, to: int, inner: Inner)
    requires inner.kind != ""
    ensures NVST.KitPasses(BrowserText(ackid, from, inner)) <==> !WebRtcType(inner.kind)
    ensures NVST.OwedAck(BrowserText(ackid, from, inner)) == if WebRtcType(inner.kind) && ackid != 0 then Some(ackid) else None
    ensures NVST.ClientPasses(KitText(from, to, inner)) <==> !WebRtcType(inner.kind)
  {
    KitHookReadsBuilt(ackid, from, inner);
    ClientHookReadsBuilt(from, to, inner);
    hide KitVerdict, ClientVerdict, BrowserText, KitText, Wrap32;
  }
}
