/** The session with its real codec: what the bytes on the two WebSockets say. */
module SessionWire {
  import opened Wrappers
  import opened Signals
  import opened Values
  import opened Nvst
  import opened NvstProofs
  import opened Hooks
  import opened Gateway
  import opened WireProofs
  import opened AckProofs
  import opened AckidProofs
  import opened PeerIdProofs
  import opened RoutingProofs
  import opened AckidOrder
  import opened AddressTears

  /** The fields of a frame that is a JSON object. */
  function FieldsOf(data: string): Fields {
    match Parse(data)
    case None => map[]
    case Some(m) => m.Entries()
  }

  /** A JSON object with an `ack` key. */
  predicate IsAckObject(f: Frame) { IsAck(FieldsOf(f.data)) }

  function WireAckid(f: Frame): Option<int> { Ackid(FieldsOf(f.data)) }

  // ------------------------------------------------------------------ Kit's acks

  /** What Kit receives. */
  function KitWire(writes: seq<Write>): seq<Frame> {
    if writes == [] then []
    else
      var w := writes[|writes| - 1];
      var before := KitWire(writes[..|writes| - 1]);
      if w.ok && w.side == ToKit then before + [w.frame] else before
  }

  function AckObjects(frames: seq<Frame>): seq<Frame> {
    if frames == [] then []
    else
      var before := AckObjects(frames[..|frames| - 1]);
      if IsAckObject(frames[|frames| - 1]) then before + [frames[|frames| - 1]] else before
  }

  /** On Kit's side the ack objects are exactly the gateway's own acks: a browser's ack never gets there. */
  lemma OnlyGatewayAcksReachKit(s: State, k: nat)
    requires Reachable(NVST, s) && k < |s.writes|
    ensures s.writes[k].origin.AutoAck? ==> s.writes[k].side == ToKit
    ensures s.writes[k].side == ToKit ==> (IsAckObject(s.writes[k].frame) <==> s.writes[k].origin.AutoAck?)
  {
    var events :| s == Run(NVST, INITIAL, events);
    WireInvAlways(NVST, events);
    var w := s.writes[k];
    assert Rightful(NVST, s.kitRead, s.clientRead, s.tasks, w);
    match w.origin
    case Forwarded(_) =>
      if w.side == ToKit {
        assert !ClientVerdict(w.frame.data).AckFrame?;
      }
    case AutoAck(n) => AckRoundTrip(NVST.OwedAck(s.kitRead[n].data).value);
    case Built(i) =>
      if w.side == ToKit {
        var t := s.tasks[i];
        ToKitRoundTrip(t.from, t.to, PayloadToKit(t));
      }
  }

  lemma {:induction false} AckObjectsAre(writes: seq<Write>)
    requires forall k :: 0 <= k < |writes| && writes[k].side == ToKit ==>
      (IsAckObject(writes[k].frame) <==> writes[k].origin.AutoAck?)
    requires forall k :: 0 <= k < |writes| && writes[k].origin.AutoAck? ==> writes[k].side == ToKit && writes[k].ok
    ensures AckObjects(KitWire(writes)) == Attempted(writes)
  {
    if writes != [] {
      var n := |writes| - 1;
      AckObjectsAre(writes[..n]);
      var before := KitWire(writes[..n]);
      assert (before + [writes[n].frame])[..|before|] == before;
    }
  }

  predicate AcksWentOut(writes: seq<Write>) {
    forall k :: 0 <= k < |writes| && writes[k].origin.AutoAck? ==> writes[k].ok
  }

  /**
   When no ack was lost to a failing socket and no frame is waiting for its ack,
   the ack objects Kit has received are exactly those owed for the frames the hook
   consumed: one each, in order, and none from the browser.
   */
  lemma KitReceivesExactlyItsAcks(s: State)
    requires Reachable(NVST, s)
    ensures !BeforeAck(s.kitPump) && AcksWentOut(s.writes) ==> AckObjects(KitWire(s.writes)) == Owed(NVST, s.kitRead)
  {
    forall k | 0 <= k < |s.writes|
      ensures s.writes[k].origin.AutoAck? ==> s.writes[k].side == ToKit
      ensures s.writes[k].side == ToKit ==> (IsAckObject(s.writes[k].frame) <==> s.writes[k].origin.AutoAck?)
    {
      OnlyGatewayAcksReachKit(s, k);
    }
    if AcksWentOut(s.writes) {
      AckObjectsAre(s.writes);
    }
    AcksAttemptedAreOwed(NVST, s);
  }

  /** The number a JSON object acknowledges. */
  function AckNumber(f: Frame): Option<int> {
    if IsAckObject(f) then Some(AsInt(FieldsOf(f.data)["ack"])) else None
  }

  predicate KitAckidsDiffer(kitRead: seq<Frame>) {
    forall m, n :: 0 <= m < n < |kitRead| && WireAckid(kitRead[m]).Some? && WireAckid(kitRead[n]).Some? ==>
      WireAckid(kitRead[m]) != WireAckid(kitRead[n])
  }

  /** What is owed for a frame is the ackid its bytes carry, when it is consumed. */
  lemma OwedIsOnTheWire(f: Frame)
    ensures NVST.OwedAck(f.data) == if Consumed(NVST.kit(f.data)) then WireAckid(f) else None
  {
    hide Parse, AsPeerMsg, Ackid;
  }

  lemma AckTextNumber(ackid: int)
    ensures AckNumber(Frame(true, NVST.ackText(ackid))) == Some(ackid)
  {
    AckRoundTrip(ackid);
    WireIntIsRead(ackid);
    hide Parse, Encode, NewAck, WireInt;
  }

  lemma {:induction false} OnKitWire(writes: seq<Write>, f: Frame)
    ensures f in KitWire(writes) <==> exists k :: 0 <= k < |writes| && writes[k].ok && writes[k].side == ToKit && writes[k].frame == f
  {
    if writes != [] {
      var n := |writes| - 1;
      OnKitWire(writes[..n], f);
      if f in KitWire(writes[..n]) {
        var k :| 0 <= k < n && writes[..n][k].ok && writes[..n][k].side == ToKit && writes[..n][k].frame == f;
        assert writes[k] == writes[..n][k];
      }
    }
  }

  /** On Kit's wire an ack with the number of the m-th frame is the gateway's ack of it. */
  lemma AckWriteSays(s: State, k: nat, m: nat)
    requires Reachable(NVST, s) && k < |s.writes| && s.writes[k].origin == AutoAck(m)
    ensures m < |s.kitRead| && Consumed(NVST.kit(s.kitRead[m].data))
    ensures WireAckid(s.kitRead[m]).Some? && AckNumber(s.writes[k].frame) == WireAckid(s.kitRead[m])
  {
    var events :| s == Run(NVST, INITIAL, events);
    WireInvAlways(NVST, events);
    hide Run, AckNumber;
    assert Rightful(NVST, s.kitRead, s.clientRead, s.tasks, s.writes[k]);
    OwedIsOnTheWire(s.kitRead[m]);
    AckTextNumber(NVST.OwedAck(s.kitRead[m].data).value);
  }

  ghost predicate KitGetsAck(s: State, number: int) { exists f :: f in KitWire(s.writes) && AckNumber(f) == Some(number) }

  lemma AckOnWireHasCause(s: State, number: int) returns (m: nat)
    requires Reachable(NVST, s) && KitGetsAck(s, number)
    ensures m < |s.kitRead| && WireAckid(s.kitRead[m]) == Some(number) && Consumed(NVST.kit(s.kitRead[m].data))
  {
    var f :| f in KitWire(s.writes) && AckNumber(f) == Some(number);
    OnKitWire(s.writes, f);
    var k :| 0 <= k < |s.writes| && s.writes[k].ok && s.writes[k].side == ToKit && s.writes[k].frame == f;
    OnlyGatewayAcksReachKit(s, k);
    m := s.writes[k].origin.kitIndex;
    AckWriteSays(s, k, m);
  }

  /**
   With distinct Kit ackids, Kit gets an ack for the ackid of its n-th frame only
   if the hook consumed that frame; and it does get one unless the ack is still
   due or was lost to a failing socket. A frame that is passed on is never acked.
   */
  lemma KitGetsAckExactlyWhenConsumed(s: State, n: nat)
    requires Reachable(NVST, s) && KitAckidsDiffer(s.kitRead)
    requires n < |s.kitRead| && WireAckid(s.kitRead[n]).Some?
    ensures KitGetsAck(s, WireAckid(s.kitRead[n]).value) ==> Consumed(NVST.kit(s.kitRead[n].data))
    ensures AcksWentOut(s.writes) && (n == |s.kitRead| - 1 ==> !BeforeAck(s.kitPump)) ==>
      (KitGetsAck(s, WireAckid(s.kitRead[n]).value) <==> Consumed(NVST.kit(s.kitRead[n].data)))
  {
    var number := WireAckid(s.kitRead[n]).value;
    if KitGetsAck(s, number) {
      var m := AckOnWireHasCause(s, number);
      assert m == n;
    } else if AcksWentOut(s.writes) && (n == |s.kitRead| - 1 ==> !BeforeAck(s.kitPump)) && Consumed(NVST.kit(s.kitRead[n].data)) {
      OwedIsOnTheWire(s.kitRead[n]);
      AckedExactlyWhenConsumed(NVST, s, n);
      var k :| 0 <= k < |s.writes| && s.writes[k].origin == AutoAck(n);
      AckWriteSays(s, k, n);
      OnlyGatewayAcksReachKit(s, k);
      OnKitWire(s.writes, s.writes[k].frame);
      assert false;
    }
  }

  const INFO_ENTRY: Fields := map["id" := Int(10), "name" := Text("peer-X")]
  const INFO_FIELDS: Fields := map["ackid" := Int(1), "peer_info" := Object(INFO_ENTRY)]

  /** Kit announces the browser's id in a frame with ackid 1. */
  const INFO := Marshal(INFO_FIELDS)

  lemma MarshalledAckid(fields: Fields)
    ensures WireAckid(Frame(true, Marshal(fields))) == Ackid(fields)
  {
    UnmarshalInvertsMarshal(fields);
    AccessorsSurviveTheWire(fields, "");
    hide Unmarshal, Marshal, NormalFields, Ackid;
  }

  lemma InfoEntries()
    ensures "peer_info" in INFO_FIELDS && INFO_FIELDS["peer_info"] == Object(INFO_ENTRY) && Ackid(INFO_FIELDS) == Some(1)
    ensures "id" in INFO_ENTRY && INFO_ENTRY["id"] == Int(10) && "name" in INFO_ENTRY && INFO_ENTRY["name"] == Text("peer-X")
    ensures "peer-" <= "peer-X" && !("OneSdkServer" <= "peer-X") && Wrap32(10) == 10
  {
    assert "OneSdkServer"[0] != "peer-X"[0];
    assert "peer-X"[..5] == "peer-";
  }

  lemma InfoIsPassed()
    ensures KitVerdict(INFO) == BrowserInfo(10) && WireAckid(Frame(true, INFO)) == Some(1)
  {
    InfoEntries();
    assert INFO == Marshal(INFO_FIELDS);
    hide *;
    MarshalledAckid(INFO_FIELDS);
    HookReadsPeerInfo(INFO_FIELDS, INFO_ENTRY, 10, "peer-X");
  }

  /** "Kit gets every ackid acked" is false: here it sends ackid 1, the browser acks 1, and nothing goes to Kit. */
  lemma PassedFrameStaysUnacked()
    ensures WireAckid(Frame(true, INFO)) == Some(1) && AckNumber(Frame(true, AckText(1))) == Some(1)
    ensures exists s :: Reachable(NVST, s) && s.kitRead == [Frame(true, INFO)] && s.clientRead == [Frame(true, AckText(1))]
                        && s.kitPump.Reading? && s.clientPump.Reading? && KitWire(s.writes) == []
  {
    InfoIsPassed();
    HooksReadAcks(1);
    AckTextNumber(1);
    hide KitVerdict, ClientVerdict, AckText, WireAckid, AckNumber;
    PassedFrameRun(NVST, Frame(true, INFO), Frame(true, AckText(1)));
    var s :| Reachable(NVST, s) && s.kitRead == [Frame(true, INFO)] && s.clientRead == [Frame(true, AckText(1))]
             && s.kitPump.Reading? && s.clientPump.Reading? && |s.writes| == 1 && s.writes[0].side == ToClient;
    assert KitWire(s.writes[..0]) == [];
  }

  // -------------------------------------------------------- ackids at the browser

  /** Every Kit ackid is at most the gateway's base, and no two Kit frames share one. */
  predicate KitAckidsAreLow(kitRead: seq<Frame>) {
    && (forall n :: 0 <= n < |kitRead| && WireAckid(kitRead[n]).Some? ==> WireAckid(kitRead[n]).value <= ACK_BASE)
    && KitAckidsDiffer(kitRead)
  }

  /** A built frame shows the ackid its goroutine took, unless that is zero. */
  lemma BuiltFrameAckid(t: Task)
    requires t.ackid != 0
    ensures WireAckid(FrameToBrowser(NVST, t)) == Some(t.ackid)
  {
    ToBrowserRoundTrip(t.ackid, t.peer, PayloadToBrowser(t));
  }

  lemma BuiltWriteAckid(s: State, k: nat)
    requires Reachable(NVST, s) && s.ids.issued < 0x8000_0000 - ACK_BASE
    requires k < |s.writes| && ForBrowser(s.writes[k])
    ensures s.writes[k].origin.task < |s.tasks|
    ensures WireAckid(s.writes[k].frame) == Some(BuilderOf(s, s.writes[k]).ackid)
    ensures BuilderOf(s, s.writes[k]).ackid > ACK_BASE
  {
    var events :| s == Run(NVST, INITIAL, events);
    WireInvAlways(NVST, events);
    assert Rightful(NVST, s.kitRead, s.clientRead, s.tasks, s.writes[k]);
    BuiltAckidsAreHigh(NVST, s, k);
    BuiltFrameAckid(BuilderOf(s, s.writes[k]));
  }

  lemma ForwardedAckid(s: State, k: nat)
    requires Reachable(NVST, s) && k < |s.writes| && s.writes[k].side == ToClient && s.writes[k].origin.Forwarded?
    ensures s.writes[k].origin.index < |s.kitRead| && s.writes[k].frame == s.kitRead[s.writes[k].origin.index]
  {
    var events :| s == Run(NVST, INITIAL, events);
    WireInvAlways(NVST, events);
    assert Rightful(NVST, s.kitRead, s.clientRead, s.tasks, s.writes[k]);
  }

  lemma WritesToClient(s: State, j: nat, k: nat)
    requires Reachable(NVST, s) && j < k < |s.writes| && s.writes[j].side == s.writes[k].side == ToClient
    ensures !s.writes[j].origin.AutoAck? && !s.writes[k].origin.AutoAck?
    ensures s.writes[j].origin != s.writes[k].origin
  {
    var events :| s == Run(NVST, INITIAL, events);
    WireInvAlways(NVST, events);
    assert Rightful(NVST, s.kitRead, s.clientRead, s.tasks, s.writes[j]);
    assert Rightful(NVST, s.kitRead, s.clientRead, s.tasks, s.writes[k]);
  }

  /** No two ack-bearing frames on the browser's socket carry the same ackid, whoever they come from. */
  lemma BrowserSeesNoAckidTwice(s: State, j: nat, k: nat)
    requires Reachable(NVST, s) && s.ids.issued < 0x8000_0000 - ACK_BASE && KitAckidsAreLow(s.kitRead)
    requires j < k < |s.writes| && s.writes[j].side == s.writes[k].side == ToClient
    requires WireAckid(s.writes[j].frame).Some? && WireAckid(s.writes[k].frame).Some?
    ensures WireAckid(s.writes[j].frame) != WireAckid(s.writes[k].frame)
  {
    WritesToClient(s, j, k);
    if s.writes[j].origin.Built? {
      BuiltWriteAckid(s, j);
    } else {
      ForwardedAckid(s, j);
    }
    if s.writes[k].origin.Built? {
      BuiltWriteAckid(s, k);
    } else {
      ForwardedAckid(s, k);
    }
    if s.writes[j].origin.Built? && s.writes[k].origin.Built? {
      BuiltAckidsAreUnique(NVST, s, j, k);
    }
  }

  /** Kit's offer, with ackid 1. */
  const OFFER := BrowserText(1, 1, Inner("offer", "v=0", "", "", 0))

  lemma OfferIsRead()
    ensures KitVerdict(OFFER) == Signal(1, None, Inner("offer", "v=0", "", "", 0), Some(1))
  {
    var inner := Inner("offer", "v=0", "", "", 0);
    assert OFFER == BrowserText(1, 1, inner);
    hide *;
    SmallIds();
    KitHookReadsBuilt(1, 1, inner);
  }

  /** Unique is all: after one offer of Kit, the browser sees a candidate with ackid 10002 before the offer with 10001. */
  lemma AckidsOutOfOrder() returns (s: State)
    ensures Reachable(NVST, s) && |s.tasks| == 3 && s.tasks[1].job == OfferBrowser(0) && s.tasks[2].job.CandidateToBrowser?
    ensures |s.writes| >= 2
    ensures var first, second := s.writes[|s.writes| - 2], s.writes[|s.writes| - 1];
            && first.side == second.side == ToClient && first.ok && second.ok && first.origin == Built(2) && second.origin == Built(1)
            && WireAckid(first.frame) == Some(10002) && WireAckid(second.frame) == Some(10001)
  {
    OfferIsRead();
    hide Reachable, FrameToBrowser, WireAckid, KitVerdict;
    assert IsOffer(NVST.kit(OFFER));
    s := OutOfOrderRun(NVST, Frame(true, OFFER));
    hide *;
    BuiltFrameAckid(s.tasks[1]);
    BuiltFrameAckid(s.tasks[2]);
  }

  /** What the gateway writes of its own is text. */
  lemma BuiltFramesAreText(s: State, k: nat)
    requires Reachable(NVST, s) && k < |s.writes| && !s.writes[k].origin.Forwarded?
    ensures s.writes[k].frame.text
  {
    var events :| s == Run(NVST, INITIAL, events);
    WireInvAlways(NVST, events);
    assert Rightful(NVST, s.kitRead, s.clientRead, s.tasks, s.writes[k]);
  }

  // ------------------------------------------------------------ addresses on the wire

  lemma BuiltWrite(s: State, k: nat)
    requires Reachable(NVST, s) && k < |s.writes| && s.writes[k].origin.Built?
    ensures s.writes[k].origin.task < |s.tasks|
    ensures var t := s.tasks[s.writes[k].origin.task];
            s.writes[k].frame == if s.writes[k].side == ToKit then FrameToKit(NVST, t) else FrameToBrowser(NVST, t)
  {
    hide FrameToKit, FrameToBrowser;
    var events :| s == Run(NVST, INITIAL, events);
    WireInvAlways(NVST, events);
    assert Rightful(NVST, s.kitRead, s.clientRead, s.tasks, s.writes[k]);
  }

  lemma FrameToKitSays(t: Task)
    requires PayloadToKit(t).kind != ""
    ensures AsPeerMsg(FieldsOf(FrameToKit(NVST, t).data)) == Some(Outer(t.from, t.to, t.to != 0, Some(PayloadToKit(t))))
  {
    ToKitRoundTrip(t.from, t.to, PayloadToKit(t));
    hide Parse, Encode, AsPeerMsg, NewPeerMsgToKit;
  }

  lemma FrameToBrowserSays(t: Task)
    requires PayloadToBrowser(t).kind != ""
    ensures AsPeerMsg(FieldsOf(FrameToBrowser(NVST, t).data)) == Some(Outer(t.peer, 0, false, Some(PayloadToBrowser(t))))
    ensures WireAckid(FrameToBrowser(NVST, t)) == if t.ackid == 0 then None else Some(t.ackid)
  {
    ToBrowserRoundTrip(t.ackid, t.peer, PayloadToBrowser(t));
    hide Parse, Encode, AsPeerMsg, NewPeerMsgToBrowser, Ackid;
  }

  /** A frame built for Kit parses to its goroutine's routing, and to an answer, an offer or a candidate as its job wants. */
  lemma BuiltFrameToKitSays(s: State, k: nat)
    requires Reachable(NVST, s) && k < |s.writes| && s.writes[k].side == ToKit && s.writes[k].origin.Built?
    ensures s.writes[k].origin.task < |s.tasks|
    ensures var t := s.tasks[s.writes[k].origin.task];
            var said := AsPeerMsg(FieldsOf(s.writes[k].frame.data));
            match t.job
            case AnswerKit(_) => said == Some(Outer(t.from, t.to, t.to != 0, Some(Inner("answer", t.kitSdp, "", "", 0))))
            case BridgeOffer(_) => said == Some(Outer(t.from, t.to, t.to != 0, Some(Inner("offer", t.kitSdp, "", "", 0))))
            case CandidateToKit(inner) => inner.kind == "candidate" && said == Some(Outer(t.from, t.to, t.to != 0, Some(inner)))
            case _ => false
  {
    BuiltWrite(s, k);
    hide FieldsOf, FrameToKit, Run, PayloadToKit;
    var events :| s == Run(NVST, INITIAL, events);
    BuiltForKit(NVST, events, k);
    FrameToKitSays(s.tasks[s.writes[k].origin.task]);
  }

  /** A frame built for the browser parses to its goroutine's ackid and payload, from an id that was Kit's, to nobody. */
  lemma BuiltFrameToBrowserSays(s: State, k: nat)
    requires Reachable(NVST, s) && k < |s.writes| && s.writes[k].side == ToClient && s.writes[k].origin.Built?
    ensures s.writes[k].origin.task < |s.tasks|
    ensures var t := s.tasks[s.writes[k].origin.task];
            var said := AsPeerMsg(FieldsOf(s.writes[k].frame.data));
            && WireAckid(s.writes[k].frame) == (if t.ackid == 0 then None else Some(t.ackid))
            && WasKitId(s.ids.log, t.peer)
            && match t.job
               case OfferBrowser(_) => said == Some(Outer(t.peer, 0, false, Some(Inner("offer", t.browserSdp, "", "", 0))))
               case BridgeOffer(_) => said == Some(Outer(t.peer, 0, false, Some(Inner("answer", t.browserSdp, "", "", 0))))
               case CandidateToBrowser(inner) => inner.kind == "candidate" && said == Some(Outer(t.peer, 0, false, Some(inner)))
               case _ => false
  {
    BuiltWrite(s, k);
    hide FieldsOf, WireAckid, FrameToBrowser, Run, PayloadToBrowser;
    var events :| s == Run(NVST, INITIAL, events);
    BuiltForBrowser(NVST, events, k);
    FrameToBrowserSays(s.tasks[s.writes[k].origin.task]);
  }

  /** With stable ids the bytes Kit receives are addressed from the browser's id to Kit's id. */
  lemma StableAddressesOnTheWire(s: State, k: nat, n: nat, browser: int, kit: int)
    requires Reachable(NVST, s) && k < |s.writes| && s.writes[k].side == ToKit && s.writes[k].origin.Built?
    requires s.writes[k].origin.task < |s.tasks| && n <= s.tasks[s.writes[k].origin.task].fromAt
    requires StableFrom(s.ids.log, n, browser, kit)
    ensures AsPeerMsg(FieldsOf(s.writes[k].frame.data)).Some?
    ensures var outer := AsPeerMsg(FieldsOf(s.writes[k].frame.data)).value;
            outer.from == browser && outer.to == kit && (outer.hasTo <==> kit != 0)
  {
    BuiltFrameToKitSays(s, k);
    StableAddressing(NVST, s, k, n, browser, kit);
  }

  /** A run in which Kit gets a frame from 0 to 9, two ids that were never the peers' at one moment. */
  lemma TornPair() returns (s: State)
    ensures Reachable(NVST, s) && |s.writes| == 1 && s.writes[0].side == ToKit && s.writes[0].ok
    ensures AsPeerMsg(FieldsOf(s.writes[0].frame.data)).Some?
    ensures var outer := AsPeerMsg(FieldsOf(s.writes[0].frame.data)).value; outer.from == 0 && outer.to == 9
    ensures forall n :: 0 <= n <= |s.ids.log| ==> !BothAt(s.ids.log, n, 0, 9)
  {
    var announcement := Announcement();
    hide KitVerdict, ClientVerdict;
    s := TornRun(NVST, announcement);
    hide *;
    NeverZeroAndNine(s.ids.log);
    FrameToKitSays(s.tasks[0]);
  }

  lemma Announcement() returns (f: Frame)
    ensures ClientVerdict(f.data) == Signal(7, Some(9), Inner("answer", "", "", "", 0), None)
  {
    hide *;
    SmallIds();
    f := Frame(true, KitText(7, 9, Inner("answer", "", "", "", 0)));
    ClientHookReadsBuilt(7, 9, Inner("answer", "", "", "", 0));
  }

  lemma SmallIds()
    ensures Wrap32(1) == 1 && Wrap32(7) == 7 && Wrap32(9) == 9
  {
  }
}
