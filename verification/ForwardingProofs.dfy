/** Forwarded frames: on each wire exactly the frames the hook let through, verbatim, in order, once. */
module ForwardingProofs {
  import opened Signals
  import opened Gateway

  // A pump is named by the side it writes to: the ToClient pump frames from Kit.

  function PumpOf(s: State, side: Side): Pump { if side == ToKit then s.clientPump else s.kitPump }

  function ReadBy(s: State, side: Side): seq<Frame> { if side == ToKit then s.clientRead else s.kitRead }

  predicate Passes(c: Codec, side: Side, f: Frame) { if side == ToKit then c.ClientPasses(f.data) else c.KitPasses(f.data) }

  /** The frames of `frames` that the hook lets through. */
  function Passed(c: Codec, side: Side, frames: seq<Frame>): seq<Frame> {
    if frames == [] then []
    else
      var last := frames[|frames| - 1];
      Passed(c, side, frames[..|frames| - 1]) + if Passes(c, side, last) then [last] else []
  }

  /** The frames that went out on one side because a pump forwarded them. */
  function Relayed(side: Side, writes: seq<Write>): seq<Frame> {
    if writes == [] then []
    else
      var w := writes[|writes| - 1];
      Relayed(side, writes[..|writes| - 1])
      + if w.ok && w.side == side && w.origin.Forwarded? then [w.frame] else []
  }

  predicate InHand(frames: seq<Frame>, f: Frame) { frames != [] && frames[|frames| - 1] == f }

  function Before(frames: seq<Frame>): seq<Frame> { if frames == [] then [] else frames[..|frames| - 1] }

  /** What has been relayed, for each position of the pump. */
  predicate PumpOk(c: Codec, side: Side, frames: seq<Frame>, pump: Pump, sent: seq<Frame>) {
    match pump
    case Reading => sent == Passed(c, side, frames)
    case Deciding(f) => InHand(frames, f) && sent == Passed(c, side, Before(frames))
    case Learned(f) => InHand(frames, f) && sent == Passed(c, side, Before(frames))
    case Settled(f) => InHand(frames, f) && sent == Passed(c, side, Before(frames)) && (side == ToClient ==> !Passes(c, side, f))
    case Forwarding(f) => InHand(frames, f) && sent == Passed(c, side, Before(frames)) && Passes(c, side, f)
    case _ => sent == Passed(c, side, frames) || sent == Passed(c, side, Before(frames))
  }

  predicate PumpInv(c: Codec, s: State, side: Side) {
    PumpOk(c, side, ReadBy(s, side), PumpOf(s, side), Relayed(side, s.writes))
  }

  lemma PassedSnoc(c: Codec, side: Side, frames: seq<Frame>, f: Frame)
    ensures Passed(c, side, frames + [f])
      == if Passes(c, side, f) then Passed(c, side, frames) + [f] else Passed(c, side, frames)
    ensures Before(frames + [f]) == frames
  {
    assert (frames + [f])[..|frames|] == frames;
    assert Passed(c, side, frames) + [] == Passed(c, side, frames);
  }

  predicate Relays(side: Side, life: Life, effect: Effect, ok: bool) {
    effect.Put? && effect.side == side && effect.origin.Forwarded? && GoesOut(life, side, ok)
  }

  lemma RelayedAfter(side: Side, s: State, effect: Effect, ok: bool)
    ensures Relayed(side, Apply(s, effect, ok).writes)
      == if Relays(side, s.life, effect, ok) then Relayed(side, s.writes) + [effect.frame] else Relayed(side, s.writes)
  {
    if effect.Put? {
      var w := Write(effect.side, effect.frame, effect.origin, GoesOut(s.life, effect.side, ok));
      assert (s.writes + [w])[..|s.writes|] == s.writes;
      assert Relayed(side, s.writes) + [] == Relayed(side, s.writes);
    }
  }

  lemma LastRead(c: Codec, side: Side, frames: seq<Frame>, f: Frame)
    requires InHand(frames, f)
    ensures Passed(c, side, frames)
      == if Passes(c, side, f) then Passed(c, side, Before(frames)) + [f] else Passed(c, side, Before(frames))
  {
    PassedSnoc(c, side, Before(frames), f);
    assert frames == Before(frames) + [f];
  }

  // Which steps relay: only a pump at Forwarding, and only to its own side.

  lemma RelayedByKit(c: Codec, s: State, side: Side, ok: bool, frame: Frame)
    ensures Relayed(side, StepKit(c, s, ok, frame).writes)
      == if side == ToClient && s.kitPump.Forwarding? && GoesOut(s.life, ToClient, ok)
         then Relayed(side, s.writes) + [s.kitPump.frame] else Relayed(side, s.writes)
  {
    RelayedAfter(side, s, KitEffect(c, s), ok);
  }

  lemma RelayedByClient(c: Codec, s: State, side: Side, ok: bool, frame: Frame)
    ensures Relayed(side, StepClient(c, s, ok, frame).writes)
      == if side == ToKit && s.clientPump.Forwarding? && GoesOut(s.life, ToKit, ok)
         then Relayed(side, s.writes) + [s.clientPump.frame] else Relayed(side, s.writes)
  {
    RelayedAfter(side, s, ClientEffect(c, s, ok), ok);
  }

  lemma RelayedByTask(c: Codec, s: State, side: Side, i: nat, ok: bool, sdp: string)
    requires i < |s.tasks|
    ensures Relayed(side, StepTask(c, s, i, ok, sdp).writes) == Relayed(side, s.writes)
  {
    RelayedAfter(side, s, TaskEffect(c, s.tasks[i], i), ok);
  }

  predicate InHook(pump: Pump) { pump.Deciding? || pump.Learned? || pump.Settled? }

  ghost predicate KitNextOk(c: Codec, s: State, ok: bool, frame: Frame) {
    var next := KitMove(c, s, ok, frame);
    PumpOk(c, ToClient, AfterRead(s.kitRead, s.kitPump, next), next, Relayed(ToClient, StepKit(c, s, ok, frame).writes))
  }

  lemma KitHookOk(c: Codec, s: State, ok: bool, frame: Frame)
    requires PumpInv(c, s, ToClient) && InHook(s.kitPump)
    ensures KitNextOk(c, s, ok, frame)
  {
    hide Relayed, Passed;
    RelayedByKit(c, s, ToClient, ok, frame);
    LastRead(c, ToClient, s.kitRead, s.kitPump.frame);
  }

  lemma KitReadOk(c: Codec, s: State, ok: bool, frame: Frame)
    requires PumpInv(c, s, ToClient) && s.kitPump.Reading?
    ensures KitNextOk(c, s, ok, frame)
  {
    hide Relayed, Passed;
    RelayedByKit(c, s, ToClient, ok, frame);
    PassedSnoc(c, ToClient, s.kitRead, frame);
  }

  lemma KitForwardOk(c: Codec, s: State, ok: bool, frame: Frame)
    requires PumpInv(c, s, ToClient) && s.kitPump.Forwarding?
    ensures KitNextOk(c, s, ok, frame)
  {
    hide Relayed, Passed;
    RelayedByKit(c, s, ToClient, ok, frame);
    LastRead(c, ToClient, s.kitRead, s.kitPump.frame);
  }

  lemma KitTearOk(c: Codec, s: State, ok: bool, frame: Frame)
    requires PumpInv(c, s, ToClient) && !InHook(s.kitPump) && !s.kitPump.Reading? && !s.kitPump.Forwarding?
    ensures KitNextOk(c, s, ok, frame)
  {
    hide Relayed, Passed;
    RelayedByKit(c, s, ToClient, ok, frame);
  }

  lemma KitMoveOk(c: Codec, s: State, ok: bool, frame: Frame)
    requires PumpInv(c, s, ToClient)
    ensures KitNextOk(c, s, ok, frame)
  {
    hide Relayed, Passed;
    if InHook(s.kitPump) {
      KitHookOk(c, s, ok, frame);
    } else if s.kitPump.Reading? {
      KitReadOk(c, s, ok, frame);
    } else if s.kitPump.Forwarding? {
      KitForwardOk(c, s, ok, frame);
    } else {
      KitTearOk(c, s, ok, frame);
    }
  }

  ghost predicate ClientNextOk(c: Codec, s: State, ok: bool, frame: Frame) {
    var next := ClientMove(c, s, ok, frame);
    PumpOk(c, ToKit, AfterRead(s.clientRead, s.clientPump, next), next, Relayed(ToKit, StepClient(c, s, ok, frame).writes))
  }

  lemma ClientHookOk(c: Codec, s: State, ok: bool, frame: Frame)
    requires PumpInv(c, s, ToKit) && InHook(s.clientPump)
    ensures ClientNextOk(c, s, ok, frame)
  {
    hide Relayed, Passed;
    RelayedByClient(c, s, ToKit, ok, frame);
    LastRead(c, ToKit, s.clientRead, s.clientPump.frame);
  }

  lemma ClientReadOk(c: Codec, s: State, ok: bool, frame: Frame)
    requires PumpInv(c, s, ToKit) && s.clientPump.Reading?
    ensures ClientNextOk(c, s, ok, frame)
  {
    hide Relayed, Passed;
    RelayedByClient(c, s, ToKit, ok, frame);
    PassedSnoc(c, ToKit, s.clientRead, frame);
  }

  lemma ClientForwardOk(c: Codec, s: State, ok: bool, frame: Frame)
    requires PumpInv(c, s, ToKit) && s.clientPump.Forwarding?
    ensures ClientNextOk(c, s, ok, frame)
  {
    hide Relayed, Passed;
    RelayedByClient(c, s, ToKit, ok, frame);
    LastRead(c, ToKit, s.clientRead, s.clientPump.frame);
  }

  lemma ClientTearOk(c: Codec, s: State, ok: bool, frame: Frame)
    requires PumpInv(c, s, ToKit) && !InHook(s.clientPump) && !s.clientPump.Reading? && !s.clientPump.Forwarding?
    ensures ClientNextOk(c, s, ok, frame)
  {
    hide Relayed, Passed;
    RelayedByClient(c, s, ToKit, ok, frame);
  }

  lemma ClientMoveOk(c: Codec, s: State, ok: bool, frame: Frame)
    requires PumpInv(c, s, ToKit)
    ensures ClientNextOk(c, s, ok, frame)
  {
    hide Relayed, Passed;
    if InHook(s.clientPump) {
      ClientHookOk(c, s, ok, frame);
    } else if s.clientPump.Reading? {
      ClientReadOk(c, s, ok, frame);
    } else if s.clientPump.Forwarding? {
      ClientForwardOk(c, s, ok, frame);
    } else {
      ClientTearOk(c, s, ok, frame);
    }
  }

  lemma PumpInvStep(c: Codec, s: State, e: Event, side: Side)
    requires PumpInv(c, s, side)
    ensures PumpInv(c, Step(c, s, e), side)
  {
    hide Relayed, Passed;
    match e
    case KitPumpRuns(ok, frame) =>
      PumpsAreApart(c, s, ok, frame);
      RelayedByKit(c, s, side, ok, frame);
      if side == ToClient {
        KitMoveOk(c, s, ok, frame);
      }
    case ClientPumpRuns(ok, frame) =>
      PumpsAreApart(c, s, ok, frame);
      RelayedByClient(c, s, side, ok, frame);
      if side == ToKit {
        ClientMoveOk(c, s, ok, frame);
      }
    case TaskRuns(i, ok, sdp) =>
      if i < |s.tasks| {
        RelayedByTask(c, s, side, i, ok, sdp);
        TasksAreApart(c, s, i, ok, sdp);
      }
    case _ =>
  }

  lemma {:induction false} PumpInvAlways(c: Codec, events: seq<Event>, side: Side)
    ensures PumpInv(c, Run(c, INITIAL, events), side)
  {
    if events != [] {
      var init := events[..|events| - 1];
      PumpInvAlways(c, init, side);
      PumpInvStep(c, Run(c, INITIAL, init), events[|events| - 1], side);
    }
  }

  lemma PumpOkGap(c: Codec, side: Side, frames: seq<Frame>, pump: Pump, sent: seq<Frame>)
    requires PumpOk(c, side, frames, pump, sent)
    ensures sent <= Passed(c, side, frames) && |Passed(c, side, frames)| <= |sent| + 1
  {
    if frames != [] {
      LastRead(c, side, frames, frames[|frames| - 1]);
    }
  }

  /**
   In every state the frames relayed to a side are the frames the hook let
   through, in order and unchanged, short of at most the last one; while the
   pump is back at its read there is no such gap.
   */
  lemma RelayedVerbatim(c: Codec, s: State, side: Side)
    requires Reachable(c, s)
    ensures Relayed(side, s.writes) <= Passed(c, side, ReadBy(s, side))
    ensures |Passed(c, side, ReadBy(s, side))| <= |Relayed(side, s.writes)| + 1
    ensures PumpOf(s, side).Reading? ==> Relayed(side, s.writes) == Passed(c, side, ReadBy(s, side))
  {
    var events :| s == Run(c, INITIAL, events);
    PumpInvAlways(c, events, side);
    PumpOkGap(c, side, ReadBy(s, side), PumpOf(s, side), Relayed(side, s.writes));
  }
}
