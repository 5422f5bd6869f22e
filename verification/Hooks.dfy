/** How the two message hooks of a session read a frame, before any state is touched. */
module Hooks {
  import opened Wrappers
  import opened Signals
  import opened Values
  import opened Json
  import opened Nvst
  import opened NvstProofs

  predicate HasPeerInfo(fields: Fields) { "peer_info" in fields && fields["peer_info"].Object? }

  function PeerInfoVerdict(info: Fields): Verdict {
    var name := TextOf(info, "name");
    var id := if "id" in info && info["id"].Float? then Trunc(info["id"].literal) else 0;
    if "OneSdkServer" <= name then KitInfo(Wrap32(id))
    else if "peer-" <= name then BrowserInfo(Wrap32(id))
    else Plain
  }

  /** A peer_msg without a WebRTC payload is as plain as any other frame. */
  function PeerMsgVerdict(fields: Fields): Verdict {
    match AsPeerMsg(fields)
    case None => Plain
    case Some(outer) =>
      if outer.inner.None? then Plain
      else Signal(Wrap32(outer.from), if outer.hasTo then Some(Wrap32(outer.to)) else None,
                  outer.inner.value, Ackid(fields))
  }

  function KitVerdict(data: string): Verdict {
    match Parse(data)
    case None => Plain
    case Some(m) =>
      var fields := m.Entries();
      if HasPeerInfo(fields) then PeerInfoVerdict(fields["peer_info"].fields) else PeerMsgVerdict(fields)
  }

  function ClientVerdict(data: string): Verdict {
    match Parse(data)
    case None => Plain
    case Some(m) => if IsAck(m.Entries()) then AckFrame else PeerMsgVerdict(m.Entries())
  }

  // ------------------------------------------------------- the texts it builds

  function AckText(ackid: int): string { Encode(NewAck(ackid)) }

  /** Building a frame cannot fail: the bytes just printed always parse. */
  function KitText(from: int, to: int, inner: Inner): string {
    ToKitRoundTrip(from, to, inner);
    Encode(NewPeerMsgToKit(from, to, inner).value)
  }

  function BrowserText(ackid: int, from: int, inner: Inner): string {
    ToBrowserRoundTrip(ackid, from, inner);
    Encode(NewPeerMsgToBrowser(ackid, from, inner).value)
  }

  // ------------------------------------------------------------ reading frames

  /** The client hook reads a frame built for Kit as what it was built from. */
  lemma ClientHookReadsBuilt(from: int, to: int, inner: Inner)
    requires inner.kind != ""
    ensures ClientVerdict(KitText(from, to, inner))
         == Signal(Wrap32(from), if to == 0 then None else Some(Wrap32(to)), inner, None)
  {
    ToKitRoundTrip(from, to, inner);
    hide Parse, Encode, NewPeerMsgToKit, AsPeerMsg, Ackid, IsAck, Wrap32;
  }

  /** And the Kit hook one built for the browser, its ackid included. */
  lemma KitHookReadsBuilt(ackid: int, from: int, inner: Inner)
    requires inner.kind != ""
    ensures KitVerdict(BrowserText(ackid, from, inner))
         == Signal(Wrap32(from), None, inner, if ackid == 0 then None else Some(ackid))
  {
    ToBrowserRoundTrip(ackid, from, inner);
    BrowserFrameHasNoPeerInfo(ackid, from, inner);
    hide Parse, Encode, NewPeerMsgToBrowser, AsPeerMsg, Ackid, IsAck, Wrap32, HasPeerInfo;
  }

  lemma BrowserFrameHasNoPeerInfo(ackid: int, from: int, inner: Inner)
    ensures NewPeerMsgToBrowser(ackid, from, inner).Some?
    ensures !HasPeerInfo(NewPeerMsgToBrowser(ackid, from, inner).value.Entries())
  {
    BuildFrameAgrees(BrowserFrame(ackid, from, inner));
    FromBrowserFrame(ackid, from, inner);
    hide BrowserFrame, BuildFrame, RoutingFields, InnerText;
  }

  /** The gateway's own ack is an ack to the client hook, and nothing of note to the Kit hook. */
  lemma HooksReadAcks(ackid: int)
    ensures ClientVerdict(AckText(ackid)) == AckFrame && KitVerdict(AckText(ackid)) == Plain
  {
    AckRoundTrip(ackid);
    hide Parse, Encode, NewAck;
  }

  /** A peer_info frame tells Kit's id or the browser's by the name in it, whatever else is in the frame. */
  lemma HookReadsPeerInfo(fields: Fields, info: Fields, id: int, name: string)
    requires "peer_info" in fields && fields["peer_info"] == Object(info)
    requires "id" in info && info["id"] == Int(id) && "name" in info && info["name"] == Text(name)
    ensures KitVerdict(Marshal(fields)) == if "OneSdkServer" <= name then KitInfo(Wrap32(id))
                                           else if "peer-" <= name then BrowserInfo(Wrap32(id)) else Plain
  {
    UnmarshalInvertsMarshal(fields);
    NormalOfObject(info);
    assert NormalFields(fields)["peer_info"] == Object(NormalFields(info));
    PeerInfoOverTheWire(info, id, name);
    hide Unmarshal, Marshal, NormalFields, PeerInfoVerdict;
  }

  lemma PeerInfoOverTheWire(info: Fields, id: int, name: string)
    requires "id" in info && info["id"] == Int(id) && "name" in info && info["name"] == Text(name)
    ensures PeerInfoVerdict(NormalFields(info)) == if "OneSdkServer" <= name then KitInfo(Wrap32(id))
                                                   else if "peer-" <= name then BrowserInfo(Wrap32(id)) else Plain
  {
    TruncDecimal(id);
    TextOfNormal(info, "name");
    assert NormalFields(info)["id"] == Normal(Int(id)) == Float(Decimal(id));
    hide Trunc, Decimal, IsNumber, Wrap32;
  }

  const NVST: Codec := Codec(
    data => KitVerdict(data),
    data => ClientVerdict(data),
    ackid => AckText(ackid),
    (from, to, inner) => KitText(from, to, inner),
    (ackid, from, inner) => BrowserText(ackid, from, inner))
}
