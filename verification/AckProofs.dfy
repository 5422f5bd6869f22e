/** Exact accounting of the acks the gateway sends Kit in the browser's place. */
module AckProofs {
  import opened Signals
  import opened Gateway
  import opened WireProofs

  /** The acks Kit is owed for the frames it sent that the hook consumed, in order. */
  function Owed(c: Codec, kitRead: seq<Frame>): seq<Frame> {
    if kitRead == [] then []
    else
      var before := Owed(c, kitRead[..|kitRead| - 1]);
      match c.OwedAck(kitRead[|kitRead| - 1].data)
      case None => before
      case Some(n) => before + [Frame(true, c.ackText(n))]
  }

  /** The acks the gateway tried to write, in order. */
  function Attempted(writes: seq<Write>): seq<Frame> {
    if writes == [] then []
    else
      var w := writes[|writes| - 1];
      if w.origin.AutoAck? then Attempted(writes[..|writes| - 1]) + [w.frame] else Attempted(writes[..|writes| - 1])
  }

  predicate BeforeAck(pump: Pump) { pump.Deciding? || pump.Learned? }

  /** Between the read of a frame and its ack, that frame's ack is still due; otherwise none is. */
  predicate AckOk(c: Codec, kitRead: seq<Frame>, pump: Pump, acks: seq<Frame>) {
    if BeforeAck(pump) then
      kitRead != [] && kitRead[|kitRead| - 1] == pump.frame && acks == Owed(c, kitRead[..|kitRead| - 1])
    else
      acks == Owed(c, kitRead)
  }

  predicate AckInv(c: Codec, s: State) { AckOk(c, s.kitRead, s.kitPump, Attempted(s.writes)) }

  lemma AttemptedAfter(s: State, effect: Effect, ok: bool)
    ensures Attempted(Apply(s, effect, ok).writes)
      == if effect.Put? && effect.origin.AutoAck? then Attempted(s.writes) + [effect.frame] else Attempted(s.writes)
  {
    if effect.Put? {
      var w := Write(effect.side, effect.frame, effect.origin, GoesOut(s.life, effect.side, ok));
      assert (s.writes + [w])[..|s.writes|] == s.writes;
    }
  }

  lemma AttemptedByKit(c: Codec, s: State, ok: bool, frame: Frame)
    ensures Attempted(StepKit(c, s, ok, frame).writes)
      == if s.kitPump.Learned? && c.OwedAck(s.kitPump.frame.data).Some?
         then Attempted(s.writes) + [Frame(true, c.ackText(c.OwedAck(s.kitPump.frame.data).value))]
         else Attempted(s.writes)
  {
    AttemptedAfter(s, KitEffect(c, s), ok);
  }

  lemma AttemptedByClient(c: Codec, s: State, ok: bool, frame: Frame)
    ensures Attempted(StepClient(c, s, ok, frame).writes) == Attempted(s.writes)
    ensures StepClient(c, s, ok, frame).kitRead == s.kitRead && StepClient(c, s, ok, frame).kitPump == s.kitPump
  {
    AttemptedAfter(s, ClientEffect(c, s, ok), ok);
  }

  lemma AttemptedByTask(c: Codec, s: State, i: nat, ok: bool, sdp: string)
    requires i < |s.tasks|
    ensures Attempted(StepTask(c, s, i, ok, sdp).writes) == Attempted(s.writes)
    ensures StepTask(c, s, i, ok, sdp).kitRead == s.kitRead && StepTask(c, s, i, ok, sdp).kitPump == s.kitPump
  {
    AttemptedAfter(s, TaskEffect(c, s.tasks[i], i), ok);
  }

  lemma LastOwed(c: Codec, kitRead: seq<Frame>, f: Frame)
    requires kitRead != [] && kitRead[|kitRead| - 1] == f
    ensures Owed(c, kitRead) == match c.OwedAck(f.data)
                                case None => Owed(c, kitRead[..|kitRead| - 1])
                                case Some(n) => Owed(c, kitRead[..|kitRead| - 1]) + [Frame(true, c.ackText(n))]
  {
  }

  lemma KitMoveKeepsAcks(c: Codec, s: State, ok: bool, frame: Frame, acks: seq<Frame>)
    requires AckInv(c, s) && acks == Attempted(StepKit(c, s, ok, frame).writes)
    ensures var next := KitMove(c, s, ok, frame); AckOk(c, AfterRead(s.kitRead, s.kitPump, next), next, acks)
  {
    hide Attempted, StepKit, Owed, GoesOut;
    AttemptedByKit(c, s, ok, frame);
    if BeforeAck(s.kitPump) {
      LastOwed(c, s.kitRead, s.kitPump.frame);
    } else if s.kitPump.Reading? {
      assert (s.kitRead + [frame])[..|s.kitRead|] == s.kitRead;
    }
  }

  lemma KitKeepsAcks(c: Codec, s: State, ok: bool, frame: Frame)
    requires AckInv(c, s)
    ensures AckInv(c, StepKit(c, s, ok, frame))
  {
    KitMoveKeepsAcks(c, s, ok, frame, Attempted(StepKit(c, s, ok, frame).writes));
  }

  lemma {:induction false} AckInvAlways(c: Codec, events: seq<Event>)
    ensures AckInv(c, Run(c, INITIAL, events))
  {
    if events != [] {
      var init := events[..|events| - 1];
      AckInvAlways(c, init);
      var s := Run(c, INITIAL, init);
      match events[|events| - 1]
      case KitPumpRuns(ok, frame) => KitKeepsAcks(c, s, ok, frame);
      case ClientPumpRuns(ok, frame) => AttemptedByClient(c, s, ok, frame);
      case TaskRuns(i, ok, sdp) => if i < |s.tasks| { AttemptedByTask(c, s, i, ok, sdp); }
      case _ =>
    }
  }

  /**
   In every state the acks attempted are the acks owed for the consumed frames,
   one each and in the order Kit sent them; only the frame in the pump's hands may
   still lack its ack.
   */
  lemma AcksAttemptedAreOwed(c: Codec, s: State)
    requires Reachable(c, s)
    ensures Attempted(s.writes) <= Owed(c, s.kitRead)
    ensures |Owed(c, s.kitRead)| <= |Attempted(s.writes)| + 1
    ensures !BeforeAck(s.kitPump) ==> Attempted(s.writes) == Owed(c, s.kitRead)
  {
    var events :| s == Run(c, INITIAL, events);
    AckInvAlways(c, events);
    if BeforeAck(s.kitPump) {
      LastOwed(c, s.kitRead, s.kitPump.frame);
    }
  }

  // ------------------------------------------------------------ which frames are acked

  predicate AckWritten(writes: seq<Write>, n: nat) {
    exists k :: 0 <= k < |writes| && writes[k].origin == AutoAck(n)
  }

  predicate EachAcked(c: Codec, s: State) {
    forall n :: 0 <= n < |s.kitRead| && (BeforeAck(s.kitPump) ==> n < |s.kitRead| - 1) && c.OwedAck(s.kitRead[n].data).Some? ==>
      AckWritten(s.writes, n)
  }

  predicate EachAckedInv(c: Codec, s: State) {
    && EachAcked(c, s)
    && (BeforeAck(s.kitPump) ==> s.kitRead != [] && s.kitRead[|s.kitRead| - 1] == s.kitPump.frame)
  }

  lemma AckWrittenStays(writes: seq<Write>, more: seq<Write>, n: nat)
    requires writes <= more && AckWritten(writes, n)
    ensures AckWritten(more, n)
  {
    var k :| 0 <= k < |writes| && writes[k].origin == AutoAck(n);
    assert more[k] == writes[k];
  }

  lemma EachAckedAfterKit(c: Codec, s: State, ok: bool, frame: Frame)
    requires EachAckedInv(c, s)
    ensures EachAckedInv(c, StepKit(c, s, ok, frame))
  {
    var after := StepKit(c, s, ok, frame);
    forall n | 0 <= n < |after.kitRead| && (BeforeAck(after.kitPump) ==> n < |after.kitRead| - 1) && c.OwedAck(after.kitRead[n].data).Some?
      ensures AckWritten(after.writes, n)
    {
      if s.kitPump.Learned? && n == |s.kitRead| - 1 {
        assert after.writes[|s.writes|].origin == AutoAck(n);
      } else {
        AckWrittenStays(s.writes, after.writes, n);
      }
    }
  }

  lemma EachAckedStays(c: Codec, s: State, after: State)
    requires EachAckedInv(c, s) && s.writes <= after.writes
    requires after.kitRead == s.kitRead && after.kitPump == s.kitPump
    ensures EachAckedInv(c, after)
  {
    forall n | 0 <= n < |s.kitRead| && AckWritten(s.writes, n)
      ensures AckWritten(after.writes, n)
    {
      AckWrittenStays(s.writes, after.writes, n);
    }
  }

  lemma {:induction false} EachAckedAlways(c: Codec, events: seq<Event>)
    ensures EachAckedInv(c, Run(c, INITIAL, events))
  {
    if events != [] {
      var init := events[..|events| - 1];
      EachAckedAlways(c, init);
      var s := Run(c, INITIAL, init);
      match events[|events| - 1]
      case KitPumpRuns(ok, frame) => EachAckedAfterKit(c, s, ok, frame);
      case ClientPumpRuns(ok, frame) => PumpsAreApart(c, s, ok, frame); EachAckedStays(c, s, StepClient(c, s, ok, frame));
      case TaskRuns(i, ok, sdp) =>
        if i < |s.tasks| {
          TasksAreApart(c, s, i, ok, sdp);
          EachAckedStays(c, s, StepTask(c, s, i, ok, sdp));
        }
      case _ =>
    }
  }

  /** The gateway acks the n-th frame exactly when it consumed it and it carried an ackid; only the frame in hand may still wait. */
  lemma AckedExactlyWhenConsumed(c: Codec, s: State, n: nat)
    requires Reachable(c, s) && n < |s.kitRead| && (n == |s.kitRead| - 1 ==> !BeforeAck(s.kitPump))
    ensures AckWritten(s.writes, n) <==> c.OwedAck(s.kitRead[n].data).Some?
  {
    var events :| s == Run(c, INITIAL, events);
    EachAckedAlways(c, events);
    WireInvAlways(c, events);
    if AckWritten(s.writes, n) {
      var k :| 0 <= k < |s.writes| && s.writes[k].origin == AutoAck(n);
      assert Rightful(c, s.kitRead, s.clientRead, s.tasks, s.writes[k]);
    }
  }

  /** A run in which Kit's frame is passed on and the browser's ack for it goes nowhere. */
  lemma PassedFrameRun(c: Codec, f: Frame, reply: Frame)
    requires c.KitPasses(f.data) && !c.kit(f.data).Signal? && c.client(reply.data).AckFrame?
    ensures exists s :: Reachable(c, s) && s.kitRead == [f] && s.clientRead == [reply]
                        && s.kitPump.Reading? && s.clientPump.Reading?
                        && |s.writes| == 1 && s.writes[0].side == ToClient
  {
    var kit, client := KitPumpRuns(true, f), ClientPumpRuns(true, reply);
    hide Run, Reachable;
    StartIsReachable(c);
    var s1 := Step(c, INITIAL, kit);
    StepIsReachable(c, INITIAL, kit);
    var s2 := Step(c, s1, kit);
    StepIsReachable(c, s1, kit);
    var s3 := Step(c, s2, kit);
    StepIsReachable(c, s2, kit);
    assert s3.kitPump == Reading && s3.clientPump == Reading;
    var s4 := Step(c, s3, client);
    StepIsReachable(c, s3, client);
    var s5 := Step(c, s4, client);
    StepIsReachable(c, s4, client);
    assert s5.clientPump == Reading;
  }
}
