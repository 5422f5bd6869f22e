/** Where every write came from: a frame the hook let through, an ack owed to Kit, or one goroutine's one message. */
module WireProofs {
  import opened Signals
  import opened Gateway

  predicate BeforeKit(stage: Stage) { stage.PrepareKit? || stage.LoadFrom? || stage.LoadTo? || stage.SendKit? }

  /** The write is what its origin makes it. */
  predicate Rightful(c: Codec, kitRead: seq<Frame>, clientRead: seq<Frame>, tasks: seq<Task>, w: Write) {
    match w.origin
    case Forwarded(n) =>
      if w.side == ToKit then n < |clientRead| && w.frame == clientRead[n] && c.ClientPasses(w.frame.data)
      else n < |kitRead| && w.frame == kitRead[n] && c.KitPasses(w.frame.data)
    case AutoAck(n) =>
      && w.side == ToKit && n < |kitRead| && c.OwedAck(kitRead[n].data).Some?
      && w.frame == Frame(true, c.ackText(c.OwedAck(kitRead[n].data).value))
    case Built(i) =>
      && i < |tasks|
      && if w.side == ToKit then w.frame == FrameToKit(c, tasks[i]) && !BeforeKit(tasks[i].stage)
         else w.frame == FrameToBrowser(c, tasks[i]) && tasks[i].stage.Finished?
  }

  predicate AllRightful(c: Codec, kitRead: seq<Frame>, clientRead: seq<Frame>, tasks: seq<Task>, writes: seq<Write>) {
    forall k :: 0 <= k < |writes| ==> Rightful(c, kitRead, clientRead, tasks, writes[k])
  }

  /** No frame, no ack and no goroutine is written twice to the same side. */
  predicate Once(writes: seq<Write>) {
    forall j, k :: 0 <= j < k < |writes| && writes[j].side == writes[k].side ==> writes[j].origin != writes[k].origin
  }

  predicate Unwritten(writes: seq<Write>, side: Side, origin: Origin) {
    forall k :: 0 <= k < |writes| && writes[k].side == side ==> writes[k].origin != origin
  }

  predicate Holds(pump: Pump) { pump.Deciding? || pump.Learned? || pump.Settled? || pump.Forwarding? }

  /** The frame in the Kit pump's hands: not forwarded yet, and before its ack not acknowledged. */
  predicate KitHand(c: Codec, kitRead: seq<Frame>, pump: Pump, writes: seq<Write>) {
    Holds(pump) ==>
      && kitRead != [] && kitRead[|kitRead| - 1] == pump.frame
      && Unwritten(writes, ToClient, Forwarded(|kitRead| - 1))
      && (pump.Deciding? || pump.Learned? ==> Unwritten(writes, ToKit, AutoAck(|kitRead| - 1)))
      && (pump.Forwarding? ==> c.KitPasses(pump.frame.data))
  }

  predicate ClientHand(c: Codec, clientRead: seq<Frame>, pump: Pump, writes: seq<Write>) {
    Holds(pump) ==>
      && clientRead != [] && clientRead[|clientRead| - 1] == pump.frame
      && Unwritten(writes, ToKit, Forwarded(|clientRead| - 1))
      && (pump.Forwarding? ==> c.ClientPasses(pump.frame.data))
  }

  predicate WireInv(c: Codec, s: State) {
    && KitHand(c, s.kitRead, s.kitPump, s.writes)
    && ClientHand(c, s.clientRead, s.clientPump, s.writes)
    && AllRightful(c, s.kitRead, s.clientRead, s.tasks, s.writes)
    && Once(s.writes)
  }

  /** What has not been read, or what a goroutine has not come to yet, has not been written. */
  lemma NotYetWritten(c: Codec, s: State)
    requires AllRightful(c, s.kitRead, s.clientRead, s.tasks, s.writes)
    ensures Unwritten(s.writes, ToClient, Forwarded(|s.kitRead|)) && Unwritten(s.writes, ToKit, AutoAck(|s.kitRead|))
    ensures Unwritten(s.writes, ToKit, Forwarded(|s.clientRead|))
    ensures forall i :: 0 <= i < |s.tasks| && BeforeKit(s.tasks[i].stage) ==> Unwritten(s.writes, ToKit, Built(i))
    ensures forall i :: 0 <= i < |s.tasks| && !s.tasks[i].stage.Finished? ==> Unwritten(s.writes, ToClient, Built(i))
  {
    forall k | 0 <= k < |s.writes|
      ensures Rightful(c, s.kitRead, s.clientRead, s.tasks, s.writes[k])
    {
    }
  }

  ghost predicate Moved(before: Task, after: Task) {
    after == before || exists ids, life, ok, sdp :: after == TaskMove(ids, life, before, ok, sdp)
  }

  /** Later reads and later goroutines do not matter to a write, nor does a goroutine that is past its own. */
  lemma RightfulStays(c: Codec, s: State, after: State)
    requires AllRightful(c, s.kitRead, s.clientRead, s.tasks, s.writes)
    requires s.kitRead <= after.kitRead && s.clientRead <= after.clientRead && |s.tasks| <= |after.tasks|
    requires forall i :: 0 <= i < |s.tasks| ==> Moved(s.tasks[i], after.tasks[i])
    ensures AllRightful(c, after.kitRead, after.clientRead, after.tasks, s.writes)
  {
    forall k | 0 <= k < |s.writes|
      ensures Rightful(c, after.kitRead, after.clientRead, after.tasks, s.writes[k])
    {
      assert Rightful(c, s.kitRead, s.clientRead, s.tasks, s.writes[k]);
    }
  }

  lemma KitKeepsHands(c: Codec, s: State, ok: bool, frame: Frame)
    requires WireInv(c, s)
    ensures var after := StepKit(c, s, ok, frame);
            KitHand(c, after.kitRead, after.kitPump, after.writes) && ClientHand(c, after.clientRead, after.clientPump, after.writes)
  {
    NotYetWritten(c, s);
    hide Rightful, AllRightful, Once;
  }

  lemma KitKeepsWire(c: Codec, s: State, ok: bool, frame: Frame)
    requires WireInv(c, s)
    ensures WireInv(c, StepKit(c, s, ok, frame))
  {
    KitKeepsHands(c, s, ok, frame);
    RightfulStays(c, s, StepKit(c, s, ok, frame));
  }

  lemma ClientKeepsHands(c: Codec, s: State, ok: bool, frame: Frame)
    requires WireInv(c, s)
    ensures var after := StepClient(c, s, ok, frame);
            KitHand(c, after.kitRead, after.kitPump, after.writes) && ClientHand(c, after.clientRead, after.clientPump, after.writes)
  {
    NotYetWritten(c, s);
    hide Rightful, AllRightful, Once;
  }

  lemma ClientKeepsWire(c: Codec, s: State, ok: bool, frame: Frame)
    requires WireInv(c, s)
    ensures WireInv(c, StepClient(c, s, ok, frame))
  {
    ClientKeepsHands(c, s, ok, frame);
    RightfulStays(c, s, StepClient(c, s, ok, frame));
  }

  lemma TaskKeepsHands(c: Codec, s: State, i: nat, ok: bool, sdp: string)
    requires WireInv(c, s) && i < |s.tasks|
    ensures var after := StepTask(c, s, i, ok, sdp);
            KitHand(c, after.kitRead, after.kitPump, after.writes) && ClientHand(c, after.clientRead, after.clientPump, after.writes)
  {
    hide Rightful, AllRightful, Once, FrameToKit, FrameToBrowser;
  }

  lemma TaskWritesOnce(c: Codec, s: State, i: nat, ok: bool, sdp: string)
    requires WireInv(c, s) && i < |s.tasks|
    ensures Once(StepTask(c, s, i, ok, sdp).writes)
  {
    NotYetWritten(c, s);
    hide Rightful, AllRightful, FrameToKit, FrameToBrowser;
  }

  lemma TaskKeepsWire(c: Codec, s: State, i: nat, ok: bool, sdp: string)
    requires WireInv(c, s) && i < |s.tasks|
    ensures WireInv(c, StepTask(c, s, i, ok, sdp))
  {
    TaskKeepsHands(c, s, i, ok, sdp);
    TaskWritesOnce(c, s, i, ok, sdp);
    hide KitHand, ClientHand, Once;
    RightfulStays(c, s, StepTask(c, s, i, ok, sdp));
  }

  lemma {:induction false} WireInvAlways(c: Codec, events: seq<Event>)
    ensures WireInv(c, Run(c, INITIAL, events))
  {
    if events != [] {
      var init := events[..|events| - 1];
      WireInvAlways(c, init);
      var s := Run(c, INITIAL, init);
      match events[|events| - 1]
      case KitPumpRuns(ok, frame) => KitKeepsWire(c, s, ok, frame);
      case ClientPumpRuns(ok, frame) => ClientKeepsWire(c, s, ok, frame);
      case TaskRuns(i, ok, sdp) => if i < |s.tasks| { TaskKeepsWire(c, s, i, ok, sdp); }
      case _ => RightfulStays(c, s, Step(c, s, events[|events| - 1]));
    }
  }
}
