/**
 The session in the form of its code: one object that all goroutines share, one
 method per function, and straight-line bodies that load, store, add, send and
 start goroutines in the order the code does. Before each of these operations
 the other goroutines may run any schedule. Whatever they do, the object never
 leaves the reachable states of the step machine.
 */
module SessionObject {
  import opened Wrappers
  import opened Signals
  import opened Gateway
  import opened ForwardingProofs
  import opened AckProofs
  import opened TeardownProofs
  import opened RoutingProofs
  import opened OfferProofs
  import opened OfferTheorems
  import opened WireProofs

  /** What happens around the running goroutine, by the number of the operation: what the others do, and the answers it gets. */
  datatype Environment = Environment(others: nat -> seq<Event>, ok: nat -> bool, frame: nat -> Frame, sdp: nat -> string)

  /** Who runs: the pump that writes to this side, or the i-th goroutine started. */
  datatype Who = PumpTo(side: Side) | Goroutine(i: nat)

  predicate Mine(who: Who, e: Event) {
    match e
    case KitPumpRuns(_, _) => who == PumpTo(ToClient)
    case ClientPumpRuns(_, _) => who == PumpTo(ToKit)
    case TaskRuns(i, _, _) => who == Goroutine(i)
    case _ => false
  }

  function Without(events: seq<Event>, who: Who): seq<Event> {
    if events == [] then []
    else
      var init, e := Without(events[..|events| - 1], who), events[|events| - 1];
      if Mine(who, e) then init else init + [e]
  }

  /** The goroutines that bridge browser offers are for the same frames. */
  ghost predicate SameBridges(tasks: seq<Task>, after: seq<Task>) {
    forall n :: HasGoroutine(after, BridgeOffer(n)) <==> HasGoroutine(tasks, BridgeOffer(n))
  }

  /**
   What the others cannot touch: a pump's position and reads, a goroutine's locals; nor does a pump
   come back from its way out, nor does anybody but the client pump start a bridge.
   */
  ghost predicate Kept(who: Who, before: State, after: State) {
    match who
    case PumpTo(side) =>
      && PumpOf(after, side) == PumpOf(before, side) && ReadBy(after, side) == ReadBy(before, side)
      && (Leaving(PumpOf(before, From(side))) ==> Leaving(PumpOf(after, From(side))))
      && (side == ToKit ==> SameBridges(before.tasks, after.tasks))
    case Goroutine(i) => i < |before.tasks| ==> i < |after.tasks| && after.tasks[i] == before.tasks[i]
  }

  lemma KitStepKeeps(c: Codec, s: State, ok: bool, frame: Frame, who: Who)
    requires who != PumpTo(ToClient)
    ensures Kept(who, s, StepKit(c, s, ok, frame))
  {
    PumpsAreApart(c, s, ok, frame);
    assert s.tasks <= StepKit(c, s, ok, frame).tasks;
    LeavingStays(c, s, KitPumpRuns(ok, frame));
    OtherStepBridgesNothing(c, s, KitPumpRuns(ok, frame));
    hide StepKit, SameBridges;
  }

  lemma ClientStepKeeps(c: Codec, s: State, ok: bool, frame: Frame, who: Who)
    requires who != PumpTo(ToKit)
    ensures Kept(who, s, StepClient(c, s, ok, frame))
  {
    PumpsAreApart(c, s, ok, frame);
    assert s.tasks <= StepClient(c, s, ok, frame).tasks;
    LeavingStays(c, s, ClientPumpRuns(ok, frame));
    hide StepClient;
  }

  lemma TaskStepKeeps(c: Codec, s: State, i: nat, ok: bool, sdp: string, who: Who)
    requires i < |s.tasks| && who != Goroutine(i)
    ensures Kept(who, s, StepTask(c, s, i, ok, sdp))
  {
    TasksAreApart(c, s, i, ok, sdp);
    assert forall j :: 0 <= j < |s.tasks| && j != i ==> j < |StepTask(c, s, i, ok, sdp).tasks| && StepTask(c, s, i, ok, sdp).tasks[j] == s.tasks[j];
    OtherStepBridgesNothing(c, s, TaskRuns(i, ok, sdp));
    hide StepTask, SameBridges;
  }

  lemma OtherStepBridgesNothing(c: Codec, s: State, e: Event)
    requires !e.ClientPumpRuns?
    ensures SameBridges(s.tasks, Step(c, s, e).tasks)
  {
    hide Step, HasGoroutine;
    forall n {:trigger BridgeOffer(n)}
      ensures HasGoroutine(Step(c, s, e).tasks, BridgeOffer(n)) <==> HasGoroutine(s.tasks, BridgeOffer(n))
    {
      OnlyClientBridges(c, s, e, n);
    }
  }

  lemma OtherStepKeeps(c: Codec, s: State, e: Event, who: Who)
    requires !Mine(who, e)
    ensures Kept(who, s, Step(c, s, e))
  {
    if !e.ClientPumpRuns? {
      OtherStepBridgesNothing(c, s, e);
    }
    hide SameBridges;
    hide StepKit, StepClient, StepTask;
    match e
    case KitPumpRuns(ok, frame) => KitStepKeeps(c, s, ok, frame, who);
    case ClientPumpRuns(ok, frame) => ClientStepKeeps(c, s, ok, frame, who);
    case TaskRuns(i, ok, sdp) => if i < |s.tasks| { TaskStepKeeps(c, s, i, ok, sdp, who); }
    case _ =>
  }

  lemma {:induction false} OthersKeep(c: Codec, s: State, events: seq<Event>, who: Who)
    ensures Kept(who, s, Run(c, s, Without(events, who)))
  {
    hide Step;
    if events != [] {
      var init, e := events[..|events| - 1], events[|events| - 1];
      OthersKeep(c, s, init, who);
      if !Mine(who, e) {
        RunSnoc(c, s, Without(init, who), e);
        OtherStepKeeps(c, Run(c, s, Without(init, who)), e, who);
      }
    }
  }

  lemma {:induction false} RunIsReachable(c: Codec, s: State, events: seq<Event>)
    requires Reachable(c, s)
    ensures Reachable(c, Run(c, s, events))
  {
    if events != [] {
      var init := events[..|events| - 1];
      RunIsReachable(c, s, init);
      hide Reachable;
      StepIsReachable(c, Run(c, s, init), events[|events| - 1]);
    }
  }

  function Slot(side: Side, ok: bool, frame: Frame): Event {
    if side == ToClient then KitPumpRuns(ok, frame) else ClientPumpRuns(ok, frame)
  }

  lemma LeavingSlot(c: Codec, s: State, side: Side, ok: bool, frame: Frame)
    requires Leaving(PumpOf(s, side))
    ensures var pump := PumpOf(s, side);
            Step(c, s, Slot(side, ok, frame))
              == SetPump(s, side, TearMove(s.life, pump)).(life := Tear(s.life, TearEffect(s.life, pump)))
  {
  }

  lemma ReadSlot(c: Codec, s: State, side: Side, ok: bool, frame: Frame)
    requires PumpOf(s, side) == Reading
    ensures Step(c, s, Slot(side, ok, frame))
      == if ok && !Closed(s.life, From(side)) then SetPump(AddRead(s, side, frame), side, Deciding(frame)) else SetPump(s, side, TearingDown)
  {
  }

  lemma ForwardSlot(c: Codec, s: State, side: Side, ok: bool, f: Frame)
    requires PumpOf(s, side) == Forwarding(f)
    ensures var sent := GoesOut(s.life, side, ok);
            Step(c, s, Slot(side, ok, f))
              == SetPump(s, side, if sent then Reading else TearingDown)
                 .(writes := s.writes + [Write(side, f, Forwarded(LastIndex(ReadBy(s, side))), sent)])
  {
  }

  /** The connection a pump reads from. */
  function From(side: Side): Side { if side == ToClient then ToKit else ToClient }

  function AddRead(s: State, side: Side, frame: Frame): State {
    if side == ToClient then s.(kitRead := s.kitRead + [frame]) else s.(clientRead := s.clientRead + [frame])
  }

  function SetPump(s: State, side: Side, pump: Pump): State {
    if side == ToClient then s.(kitPump := pump) else s.(clientPump := pump)
  }

  class Session {
    const codec: Codec
    const env: Environment

    // the atomics of the shared state
    var kitPeerID: int
    var browserPeerID: int
    var ackCounter: int

    // the proxy: its connections and its once
    var once: Once
    var clientClosed: bool
    var kitClosed: bool
    var cancelled: bool

    // where every goroutine is, with its locals
    var kitPump: Pump
    var clientPump: Pump
    var tasks: seq<Task>

    // history
    var kitRead: seq<Frame>
    var clientRead: seq<Frame>
    var writes: seq<Write>
    var issued: nat
    var log: seq<IdStore>
    var clientCloses: nat
    var kitCloses: nat
    var onCloseRuns: nat
    var clock: nat

    function View(): State
      reads this
    {
      State(kitRead, clientRead, kitPump, clientPump, tasks, writes, IdsView(), LifeView())
    }

    function IdsView(): Ids
      reads this`kitPeerID, this`browserPeerID, this`ackCounter, this`issued, this`log
    {
      Ids(kitPeerID, browserPeerID, ackCounter, issued, log)
    }

    function LifeView(): Life
      reads this`once, this`clientClosed, this`kitClosed, this`cancelled, this`clientCloses, this`kitCloses, this`onCloseRuns
    {
      Life(once, clientClosed, kitClosed, cancelled, clientCloses, kitCloses, onCloseRuns)
    }

    predicate IsClosed(side: Side)
      reads this`once, this`clientClosed, this`kitClosed, this`cancelled, this`clientCloses, this`kitCloses, this`onCloseRuns
      ensures IsClosed(side) == Closed(LifeView(), side)
    {
      if side == ToKit then kitClosed else clientClosed
    }

    ghost predicate Valid()
      reads this
    {
      Reachable(codec, View())
    }

    function Position(side: Side): Pump
      reads this
    {
      if side == ToClient then kitPump else clientPump
    }

    function Frames(side: Side): seq<Frame>
      reads this
    {
      if side == ToClient then kitRead else clientRead
    }

    constructor (codec: Codec, env: Environment)
      ensures Valid() && kitPump == clientPump == Reading && kitRead == clientRead == [] && tasks == []
      ensures this.codec == codec && this.env == env
      ensures kitPeerID == 1 && browserPeerID == 0 && ackCounter == 10000
    {
      this.codec, this.env := codec, env;
      kitPeerID, browserPeerID, ackCounter := 1, 0, ACK_BASE;
      once, clientClosed, kitClosed, cancelled := Fresh, false, false, false;
      kitPump, clientPump, tasks := Reading, Reading, [];
      kitRead, clientRead, writes, issued, log := [], [], [], 0, [];
      clientCloses, kitCloses, onCloseRuns, clock := 0, 0, 0, 0;
      new;
      StartIsReachable(codec);
      assert View() == INITIAL;
    }

    /** The others run: any schedule without the steps of the goroutine that is running. */
    method Others(who: Who)
      requires Valid()
      modifies this
      ensures Valid() && Kept(who, old(View()), View())
      ensures View() == Run(codec, old(View()), Without(env.others(old(clock)), who)) && clock == old(clock) + 1
    {
      hide Run, Reachable, Without, Kept;
      var s := Run(codec, View(), Without(env.others(clock), who));
      RunIsReachable(codec, View(), Without(env.others(clock), who));
      OthersKeep(codec, View(), env.others(clock), who);
      Become(s);
    }

    method Become(s: State)
      modifies this
      ensures View() == s && clock == old(clock) + 1
    {
      hide IdsView, LifeView;
      BecomeIds(s.ids);
      BecomeLife(s.life);
      BecomeRest(s);
      clock := clock + 1;
      assert View() == State(s.kitRead, s.clientRead, s.kitPump, s.clientPump, s.tasks, s.writes, s.ids, s.life);
    }

    method BecomeRest(s: State)
      modifies this`kitRead, this`clientRead, this`kitPump, this`clientPump, this`tasks, this`writes
      ensures kitRead == s.kitRead && clientRead == s.clientRead && kitPump == s.kitPump && clientPump == s.clientPump
      ensures tasks == s.tasks && writes == s.writes
    {
      kitRead, clientRead, kitPump := s.kitRead, s.clientRead, s.kitPump;
      clientPump, tasks, writes := s.clientPump, s.tasks, s.writes;
    }

    method BecomeIds(ids: Ids)
      modifies this`kitPeerID, this`browserPeerID, this`ackCounter, this`issued, this`log
      ensures IdsView() == ids
    {
      kitPeerID, browserPeerID, ackCounter, issued, log := ids.kitPeerID, ids.browserPeerID, ids.ackCounter, ids.issued, ids.log;
    }

    method BecomeLife(life: Life)
      modifies this`once, this`clientClosed, this`kitClosed, this`cancelled, this`clientCloses, this`kitCloses, this`onCloseRuns
      ensures LifeView() == life
    {
      once, clientClosed, kitClosed, cancelled := life.once, life.clientClosed, life.kitClosed, life.cancelled;
      clientCloses, kitCloses, onCloseRuns := life.clientCloses, life.kitCloses, life.onCloseRuns;
    }

    // ---------------------------------------------------------- single operations

    /** WriteMessage under the side's mutex; the connection may refuse, and a closed one does. */
    method WriteTo(side: Side, frame: Frame, origin: Origin) returns (sent: bool)
      modifies this`writes
      ensures writes == old(writes) + [Write(side, frame, origin, sent)]
      ensures sent == GoesOut(LifeView(), side, env.ok(clock))
    {
      sent := env.ok(clock) && !IsClosed(side);
      writes := writes + [Write(side, frame, origin, sent)];
    }

    method StorePeerID(reader: Side, register: Register, value: int)
      modifies this`kitPeerID, this`browserPeerID, this`log
      ensures IdsView() == StoreId(old(IdsView()), IdStore(reader, register, value))
      ensures kitPeerID == (if register == KitId then value else old(kitPeerID))
      ensures browserPeerID == (if register == BrowserId then value else old(browserPeerID))
    {
      if register == KitId {
        kitPeerID := value;
      } else {
        browserPeerID := value;
      }
      log := log + [IdStore(reader, register, value)];
    }

    method AddFrame(side: Side, frame: Frame)
      modifies this`kitRead, this`clientRead
      ensures Frames(side) == old(Frames(side)) + [frame]
      ensures if side == ToClient then clientRead == old(clientRead) else kitRead == old(kitRead)
    {
      if side == ToClient {
        kitRead := kitRead + [frame];
      } else {
        clientRead := clientRead + [frame];
      }
    }

    method MovePump(side: Side, pump: Pump)
      modifies this`kitPump, this`clientPump
      ensures Position(side) == pump
      ensures if side == ToClient then clientPump == old(clientPump) else kitPump == old(kitPump)
    {
      if side == ToClient {
        kitPump := pump;
      } else {
        clientPump := pump;
      }
    }

    // ------------------------------------------------------------------ the pumps

    /** What ends a pump: its connection has just failed, or the other pump tears the session down. */
    predicate MayEnd(side: Side)
      reads this
    {
      !env.ok(clock) || Leaving(Position(From(side)))
    }

    /** As long as this pump is not on its way out, a closed connection is the other's doing. */
    lemma OtherLeaves(side: Side)
      requires Valid() && !Leaving(Position(side))
      ensures IsClosed(ToKit) || IsClosed(ToClient) ==> Leaving(Position(From(side)))
    {
      hide Run, Reachable;
      ClosedByLeaver(codec, View());
    }

    method ReadMessage(side: Side) returns (frame: Option<Frame>)
      requires Valid() && Position(side) == Reading
      modifies this
      ensures Valid() && Position(side) == if frame.Some? then Deciding(frame.value) else TearingDown
      ensures Frames(side) == old(Frames(side)) + if frame.Some? then [frame.value] else []
      ensures frame.None? ==> MayEnd(side)
      ensures clock > old(clock)
      ensures side == ToKit ==> SameBridges(old(tasks), tasks)
    {
      hide Run, Reachable, IdsView, LifeView, StepKit, StepClient, HasGoroutine;
      PumpWaits(side);
      OtherLeaves(side);
      ghost var s := View();
      var f := env.frame(clock);
      if env.ok(clock) && !IsClosed(From(side)) {
        frame := Some(f);
        AddFrame(side, f);
        MovePump(side, Deciding(f));
      } else {
        frame := None;
        MovePump(side, TearingDown);
      }
      ReadSlot(codec, s, side, env.ok(clock), f);
      hide Step;
      assert View() == Step(codec, s, Slot(side, env.ok(clock), f));
      StepIsReachable(codec, s, Slot(side, env.ok(clock), f));
    }

    /** Stores the id that a frame of Kit announces, if it announces one. */
    method LearnFromKit(f: Frame)
      requires Valid() && kitPump == Deciding(f)
      modifies this
      ensures clock >= old(clock)
      ensures Valid() && kitRead == old(kitRead)
      ensures kitPump == if codec.kit(f.data).Signal? then Learned(f) else Forwarding(f)
      ensures codec.kit(f.data).KitInfo? ==> kitPeerID == codec.kit(f.data).id
      ensures codec.kit(f.data).BrowserInfo? ==> browserPeerID == codec.kit(f.data).id
      ensures codec.kit(f.data).Signal? ==> kitPeerID == codec.kit(f.data).from
    {
      hide Run, Reachable, IdsView, LifeView;
      PumpWaits(ToClient);
      ghost var s := View();
      match codec.kit(f.data) {
        case KitInfo(id) => StorePeerID(ToClient, KitId, id);
        case BrowserInfo(id) => StorePeerID(ToClient, BrowserId, id);
        case Signal(from, _, _, _) => StorePeerID(ToClient, KitId, from);
        case _ =>
      }
      kitPump := if codec.kit(f.data).Signal? then Learned(f) else Forwarding(f);
      assert View() == StepKit(codec, s, true, f);
      StepIsReachable(codec, s, KitPumpRuns(true, f));
    }

    /** Acknowledges a consumed frame that carried an ackid. */
    method AckKitIfNeeded(f: Frame)
      requires Valid() && kitPump == Learned(f) && !codec.KitPasses(f.data)
      modifies this
      ensures clock >= old(clock)
      ensures Valid() && kitPump == Settled(f) && kitRead == old(kitRead)
    {
      hide Run, Reachable;
      PumpWaits(ToClient);
      ghost var s := View();
      var ackid := codec.OwedAck(f.data);
      if ackid.Some? {
        var _ := WriteTo(ToKit, Frame(true, codec.ackText(ackid.value)), AutoAck(LastIndex(kitRead)));
      }
      kitPump := Settled(f);
      assert View() == StepKit(codec, s, env.ok(clock), f);
      StepIsReachable(codec, s, KitPumpRuns(env.ok(clock), f));
    }

    /** The Kit hook: what it lets through goes on to be written, what it consumes leaves the pump at its read. */
    method OnKitMessage(f: Frame) returns (forward: bool)
      requires Valid() && kitPump == Deciding(f)
      modifies this
      ensures clock >= old(clock)
      ensures Valid() && kitRead == old(kitRead)
      ensures forward == codec.KitPasses(f.data) && kitPump == if forward then Forwarding(f) else Reading
      ensures var v := codec.kit(f.data);
              forward <==> !(v.Signal? && (v.inner.kind == "offer" || v.inner.kind == "answer" || v.inner.kind == "candidate"))
    {
      hide Run, Reachable;
      LearnFromKit(f);
      var verdict := codec.kit(f.data);
      if !verdict.Signal? {
        return true;
      }
      if !Consumed(verdict) {
        SkipToForwarding(f);
        return true;
      }
      AckKitIfNeeded(f);
      PumpWaits(ToClient);
      ghost var s := View();
      if IsOffer(verdict) {
        tasks := tasks + [NewTask(AnswerKit(LastIndex(kitRead)), |writes|)];
      }
      kitPump := Reading;
      assert View() == StepKit(codec, s, true, f);
      StepIsReachable(codec, s, KitPumpRuns(true, f));
      return false;
    }

    method SkipToForwarding(f: Frame)
      requires Valid() && kitPump == Learned(f) && codec.KitPasses(f.data)
      modifies this`kitPump
      ensures Valid() && kitPump == Forwarding(f)
    {
      hide Run, Reachable;
      ghost var s := View();
      kitPump := Forwarding(f);
      assert View() == StepKit(codec, s, true, f);
      StepIsReachable(codec, s, KitPumpRuns(true, f));
    }

    /** Stores the browser's id, then Kit's when the frame is addressed. */
    method LearnFromClient(f: Frame)
      requires Valid() && clientPump == Deciding(f) && codec.client(f.data).Signal?
      modifies this
      ensures clock >= old(clock)
      ensures Valid() && clientPump == Settled(f) && clientRead == old(clientRead)
      ensures SameBridges(old(tasks), tasks)
    {
      hide Run, Reachable;
      StoreBrowserID(f);
      Others(PumpTo(ToKit));
      StoreKitID(f);
    }

    method StoreBrowserID(f: Frame)
      requires Valid() && clientPump == Deciding(f) && codec.client(f.data).Signal?
      modifies this
      ensures clock >= old(clock)
      ensures Valid() && clientPump == Learned(f) && clientRead == old(clientRead)
      ensures browserPeerID == codec.client(f.data).from
      ensures SameBridges(old(tasks), tasks)
    {
      hide Run, Reachable, IdsView, LifeView;
      Others(PumpTo(ToKit));
      ghost var s := View();
      StorePeerID(ToKit, BrowserId, codec.client(f.data).from);
      clientPump := Learned(f);
      assert View() == StepClient(codec, s, true, f);
      StepIsReachable(codec, s, ClientPumpRuns(true, f));
    }

    method StoreKitID(f: Frame)
      requires Valid() && clientPump == Learned(f) && codec.client(f.data).Signal?
      modifies this`kitPeerID, this`browserPeerID, this`log, this`clientPump
      ensures Valid() && clientPump == Settled(f)
      ensures kitPeerID == (if codec.client(f.data).to.Some? then codec.client(f.data).to.value else old(kitPeerID))
      ensures browserPeerID == old(browserPeerID)
    {
      hide Run, Reachable, IdsView, LifeView;
      ghost var s := View();
      var to := codec.client(f.data).to;
      if to.Some? {
        StorePeerID(ToKit, KitId, to.value);
      }
      clientPump := Settled(f);
      assert View() == StepClient(codec, s, true, f);
      StepIsReachable(codec, s, ClientPumpRuns(true, f));
    }

    /** The client hook; the downstream peer may refuse an offer, which is consumed all the same. */
    method OnClientMessage(f: Frame) returns (forward: bool)
      requires Valid() && clientPump == Deciding(f)
      modifies this
      ensures clock >= old(clock)
      ensures Valid() && clientRead == old(clientRead)
      ensures forward == codec.ClientPasses(f.data) && clientPump == if forward then Forwarding(f) else Reading
      ensures var v := codec.client(f.data);
              forward == (!v.AckFrame?
                          && !(v.Signal? && (v.inner.kind == "offer" || v.inner.kind == "answer" || v.inner.kind == "candidate")))
      ensures var v := codec.client(f.data);
              v.Signal? && v.inner.kind == "offer" ==> (env.ok(clock) <==> HasGoroutine(tasks, BridgeOffer(LastIndex(clientRead))))
      ensures forall n :: n != LastIndex(clientRead) ==>
        (HasGoroutine(tasks, BridgeOffer(n)) <==> HasGoroutine(old(tasks), BridgeOffer(n)))
    {
      hide Run, Reachable;
      var verdict := codec.client(f.data);
      if !verdict.Signal? {
        ghost var s := View();
        forward := !verdict.AckFrame?;
        clientPump := if forward then Forwarding(f) else Reading;
        assert View() == StepClient(codec, s, true, f);
        StepIsReachable(codec, s, ClientPumpRuns(true, f));
        return forward;
      }
      LearnFromClient(f);
      Others(PumpTo(ToKit));
      forward := BridgeIfOffer(f);
    }

    /** The frame in hand has no goroutine yet. */
    lemma NotBridgedYet()
      requires Valid() && Holds(clientPump)
      ensures clientRead != [] && !HasGoroutine(tasks, BridgeOffer(|clientRead| - 1))
    {
      hide Run, Reachable;
      InvariantsHold(codec, View());
    }

    method BridgeIfOffer(f: Frame) returns (forward: bool)
      requires Valid() && clientPump == Settled(f) && codec.client(f.data).Signal?
      modifies this`clientPump, this`tasks
      ensures Valid() && forward == codec.ClientPasses(f.data) && clientPump == if forward then Forwarding(f) else Reading
      ensures IsOffer(codec.client(f.data)) ==> (env.ok(clock) <==> HasGoroutine(tasks, BridgeOffer(LastIndex(clientRead))))
      ensures forall n :: n != LastIndex(clientRead) ==>
        (HasGoroutine(tasks, BridgeOffer(n)) <==> HasGoroutine(old(tasks), BridgeOffer(n)))
    {
      hide Run, Reachable;
      NotBridgedYet();
      ghost var was := tasks;
      ghost var s := View();
      forward := !Consumed(codec.client(f.data));
      if IsOffer(codec.client(f.data)) && env.ok(clock) {
        tasks := tasks + [NewTask(BridgeOffer(LastIndex(clientRead)), |writes|)];
        forall n {:trigger BridgeOffer(n)}
          ensures HasGoroutine(tasks, BridgeOffer(n)) <==> HasGoroutine(was, BridgeOffer(n)) || n == LastIndex(clientRead)
        {
          OneMoreGoroutine(was, NewTask(BridgeOffer(LastIndex(clientRead)), |writes|), BridgeOffer(n));
        }
      }
      hide HasGoroutine;
      clientPump := if forward then Forwarding(f) else Reading;
      assert View() == StepClient(codec, s, env.ok(clock), f);
      StepIsReachable(codec, s, ClientPumpRuns(env.ok(clock), f));
    }

    /** The pump's own write of a frame the hook let through. */
    method Forward(side: Side, f: Frame) returns (sent: bool)
      requires Valid() && Position(side) == Forwarding(f)
      modifies this
      ensures Valid() && Position(side) == (if sent then Reading else TearingDown) && Frames(side) == old(Frames(side))
      ensures !sent ==> MayEnd(side)
      ensures clock > old(clock)
      ensures writes != [] && writes[|writes| - 1] == Write(side, f, Forwarded(LastIndex(Frames(side))), sent)
      ensures side == ToKit ==> SameBridges(old(tasks), tasks)
    {
      hide Run, Reachable, IdsView, LifeView, StepKit, StepClient, HasGoroutine;
      PumpWaits(side);
      OtherLeaves(side);
      ghost var s := View();
      sent := WriteTo(side, f, Forwarded(LastIndex(Frames(side))));
      MovePump(side, if sent then Reading else TearingDown);
      ForwardSlot(codec, s, side, env.ok(clock), f);
      hide Step;
      assert View() == Step(codec, s, Slot(side, env.ok(clock), f));
      StepIsReachable(codec, s, Slot(side, env.ok(clock), f));
    }

    // ------------------------------------------------------------------- teardown

    method ShutClient()
      modifies this`clientClosed, this`clientCloses
      ensures LifeView() == old(LifeView()).(clientClosed := true, clientCloses := old(clientCloses) + 1)
      ensures old(clientCloses) == old(LifeView()).clientCloses
    {
      clientClosed, clientCloses := true, clientCloses + 1;
    }

    method ShutKit()
      modifies this`kitClosed, this`kitCloses
      ensures LifeView() == old(LifeView()).(kitClosed := true, kitCloses := old(kitCloses) + 1)
      ensures old(kitCloses) == old(LifeView()).kitCloses
    {
      kitClosed, kitCloses := true, kitCloses + 1;
    }

    method Cancel()
      modifies this`cancelled, this`onCloseRuns, this`once
      ensures LifeView() == old(LifeView()).(cancelled := true, onCloseRuns := old(onCloseRuns) + 1, once := Done)
      ensures old(onCloseRuns) == old(LifeView()).onCloseRuns
    {
      cancelled, onCloseRuns, once := true, onCloseRuns + 1, Done;
    }

    /** A pump on its way out has made its next move. */
    lemma HasLeft(s: State, side: Side)
      requires Reachable(codec, s) && Leaving(PumpOf(s, side))
      requires View() == SetPump(s, side, TearMove(s.life, PumpOf(s, side))).(life := Tear(s.life, TearEffect(s.life, PumpOf(s, side))))
      ensures Valid()
    {
      LeavingSlot(codec, s, side, true, Frame(true, ""));
      hide Run, Reachable, Step, IdsView, LifeView;
      StepIsReachable(codec, s, Slot(side, true, Frame(true, "")));
    }

    /** closeOnce.Do: the first caller runs the body. */
    method EnterOnce(side: Side)
      requires Valid() && Position(side) == TearingDown && once == Fresh
      modifies this`once, this`kitPump, this`clientPump
      ensures Valid() && Position(side) == ClosingClient
      ensures Position(From(side)) == old(Position(From(side)))
    {
      hide Run, Reachable, IdsView;
      ghost var s := View();
      once := Running;
      MovePump(side, ClosingClient);
      HasLeft(s, side);
    }

    /** s.Client.Close(). */
    method CloseClient(side: Side)
      requires Valid() && Position(side) == ClosingClient
      modifies this`clientClosed, this`clientCloses, this`kitPump, this`clientPump
      ensures Valid() && Position(side) == ClosingKit
      ensures Position(From(side)) == old(Position(From(side)))
    {
      hide Run, Reachable, IdsView, LifeView;
      ghost var s := View();
      ShutClient();
      MovePump(side, ClosingKit);
      HasLeft(s, side);
    }

    /** s.Kit.Close(). */
    method CloseKit(side: Side)
      requires Valid() && Position(side) == ClosingKit
      modifies this`kitClosed, this`kitCloses, this`kitPump, this`clientPump
      ensures Valid() && Position(side) == RunningOnClose
      ensures Position(From(side)) == old(Position(From(side)))
    {
      hide Run, Reachable, IdsView, LifeView;
      ghost var s := View();
      ShutKit();
      MovePump(side, RunningOnClose);
      HasLeft(s, side);
    }

    /** The session's OnClose, with which the body ends. */
    method OnClose(side: Side)
      requires Valid() && Position(side) == RunningOnClose
      modifies this`cancelled, this`onCloseRuns, this`once, this`kitPump, this`clientPump
      ensures Valid() && Position(side) == Stopped
      ensures Position(From(side)) == old(Position(From(side)))
    {
      hide Run, Reachable, IdsView, LifeView;
      ghost var s := View();
      Cancel();
      MovePump(side, Stopped);
      HasLeft(s, side);
    }

    /** closeOnce.Do after the body has run. */
    method SeeOnceDone(side: Side)
      requires Valid() && Position(side) == TearingDown && once == Done
      modifies this`once, this`kitPump, this`clientPump
      ensures Valid() && Position(side) == Stopped
      ensures Position(From(side)) == old(Position(From(side)))
    {
      hide Run, Reachable, IdsView;
      ghost var s := View();
      MovePump(side, Stopped);
      HasLeft(s, side);
    }

    /** A second caller of the once waits for the first one, here for at most so many operations. */
    method AwaitOnce(side: Side, patience: nat)
      requires Valid() && Position(side) == TearingDown
      modifies this
      ensures Valid() && Position(side) == TearingDown && Frames(side) == old(Frames(side))
      ensures clock >= old(clock) && (old(Leaving(Position(From(side)))) ==> Leaving(Position(From(side))))
      ensures side == ToKit ==> SameBridges(old(tasks), tasks)
    {
      hide Run, Reachable, IdsView, LifeView, HasGoroutine;
      PumpWaits(side);
      var waited := 0;
      while once == Running && waited < patience
        invariant Valid() && Position(side) == TearingDown && Frames(side) == old(Frames(side))
        invariant clock >= old(clock) && (old(Leaving(Position(From(side)))) ==> Leaving(Position(From(side))))
        invariant side == ToKit ==> SameBridges(old(tasks), tasks)
      {
        PumpWaits(side);
        waited := waited + 1;
      }
    }

    /** Unless it still waits for the other pump, a pump leaves both connections closed and OnClose run, each once. */
    method TearDown(side: Side, patience: nat) returns (done: bool)
      requires Valid() && Position(side) == TearingDown
      modifies this
      ensures Valid() && Frames(side) == old(Frames(side)) && Position(side) == if done then Stopped else TearingDown
      ensures done ==> LifeView() == Life(Done, true, true, true, 1, 1, 1)
      ensures !done ==> once == Running
      ensures clock >= old(clock) && (old(Leaving(Position(From(side)))) ==> Leaving(Position(From(side))))
      ensures side == ToKit ==> SameBridges(old(tasks), tasks)
    {
      hide Run, Reachable, IdsView, LifeView, HasGoroutine;
      AwaitOnce(side, patience);
      if once == Running {
        return false;
      }
      if once == Fresh {
        EnterOnce(side);
        RunOnce(side);
      } else {
        SeeOnceDone(side);
      }
      Ended(side);
      return true;
    }

    /** While a pump waits for its turn, the others run. */
    method PumpWaits(side: Side)
      requires Valid()
      modifies this
      ensures Valid() && Position(side) == old(Position(side)) && Frames(side) == old(Frames(side))
      ensures clock == old(clock) + 1 && (old(Leaving(Position(From(side)))) ==> Leaving(Position(From(side))))
      ensures side == ToKit ==> SameBridges(old(tasks), tasks)
    {
      hide Run, Reachable, IdsView, LifeView, HasGoroutine, SameBridges;
      Others(PumpTo(side));
    }

    /** The body of the once. */
    method RunOnce(side: Side)
      requires Valid() && Position(side) == ClosingClient
      modifies this
      ensures Valid() && Position(side) == Stopped && Frames(side) == old(Frames(side))
      ensures clock >= old(clock) && (old(Leaving(Position(From(side)))) ==> Leaving(Position(From(side))))
      ensures side == ToKit ==> SameBridges(old(tasks), tasks)
    {
      hide Run, Reachable, IdsView, LifeView, HasGoroutine;
      PumpWaits(side);
      CloseClient(side);
      PumpWaits(side);
      CloseKit(side);
      PumpWaits(side);
      OnClose(side);
    }

    lemma Ended(side: Side)
      requires Valid() && Position(side) == Stopped
      ensures LifeView() == Life(Done, true, true, true, 1, 1, 1)
    {
      hide Run, Reachable;
      TornDownOnce(codec, View());
    }

    // ------------------------------------------------------------------- the pump

    /** What a pump owes at its read and at its end, in the fields of the session. */
    ghost predicate Accounted(side: Side)
      reads this
    {
      && Relayed(side, writes) <= Passed(codec, side, Frames(side))
      && |Passed(codec, side, Frames(side))| <= |Relayed(side, writes)| + 1
      && (Position(side) == Reading ==> Relayed(side, writes) == Passed(codec, side, Frames(side)))
      && (side == ToClient ==> Attempted(writes) == Owed(codec, kitRead) && AllStarted(codec, View()))
      && clientCloses <= 1 && kitCloses <= 1 && onCloseRuns <= 1
    }

    lemma Accounts(side: Side)
      requires Valid() && (Position(side) == Reading || Leaving(Position(side)))
      ensures Accounted(side)
    {
      hide Run, Reachable, Relayed, Passed, Attempted, Owed;
      RelayedVerbatim(codec, View(), side);
      TornDownOnce(codec, View());
      AcksAttemptedAreOwed(codec, View());
      forall n | n in KitOffers(codec, View())
        ensures HasGoroutine(tasks, AnswerKit(n))
      {
        OneGoroutinePerKitOffer(codec, View(), n);
      }
    }

    /** The n-th browser frame, if it is an offer, has a goroutine exactly if the downstream peer said yes at that operation. */
    ghost predicate Bridged(n: int, at: nat)
      reads this
      requires 0 <= n < |clientRead|
    {
      var v := codec.client(clientRead[n].data);
      v.Signal? && v.inner.kind == "offer" ==> (env.ok(at) <==> HasGoroutine(tasks, BridgeOffer(n)))
    }

    /**
     One direction of the proxy, for at most so many frames. Whatever the others
     do: a pump that is back at its read has read that many; it relayed those that
     the hook let through and sent Kit the acks it owes; it ends only when its
     connection failed or the other pump tears down, and then everything is closed
     exactly once. `answers` are the operations at which the downstream peer was
     asked: an offer of the browser is bridged exactly if it said yes.
     */
    method Pump(side: Side, rounds: nat, patience: nat) returns (done: bool, ghost answers: seq<nat>)
      requires Valid() && Position(side) == Reading
      modifies this
      ensures Valid() && Accounted(side)
      ensures old(Frames(side)) <= Frames(side) && |Frames(side)| <= |old(Frames(side))| + rounds
      ensures Position(side) == Reading ==> |Frames(side)| == |old(Frames(side))| + rounds
      ensures |answers| <= |Frames(side)| - |old(Frames(side))| <= |answers| + 1
      ensures forall k :: 0 <= k < |answers| ==> old(clock) < answers[k] <= clock
      ensures side == ToKit ==> forall k :: 0 <= k < |answers| ==> Bridged(|old(clientRead)| + k, answers[k])
      ensures Position(side) != Reading ==>
        Leaving(Position(From(side))) || exists k :: old(clock) < k <= clock && !env.ok(k)
      ensures done ==> Position(side) == Stopped && LifeView() == Life(Done, true, true, true, 1, 1, 1)
      ensures !done ==> Position(side) == Reading || (Position(side) == TearingDown && once == Running)
    {
      hide Run, Reachable, IdsView, LifeView, Accounted;
      answers := [];
      var n := 0;
      while n < rounds
        invariant n <= rounds && Valid() && Position(side) == Reading && clock >= old(clock)
        invariant old(Frames(side)) <= Frames(side) && |Frames(side)| == |old(Frames(side))| + n && |answers| == n
        invariant forall k :: 0 <= k < n ==> old(clock) < answers[k] <= clock
        invariant side == ToKit ==> forall k :: 0 <= k < n ==> Bridged(|old(clientRead)| + k, answers[k])
      {
        var goesOn := Turn(side);
        if !goesOn {
          done := TearDown(side, patience);
          Accounts(side);
          return done, answers;
        }
        answers := answers + [clock];
        n := n + 1;
      }
      Accounts(side);
      done := false;
    }

    /** Reads a frame, asks the hook, and writes what it lets through. */
    method Turn(side: Side) returns (goesOn: bool)
      requires Valid() && Position(side) == Reading
      modifies this
      ensures Valid() && Position(side) == if goesOn then Reading else TearingDown
      ensures old(Frames(side)) <= Frames(side) && |Frames(side)| <= |old(Frames(side))| + 1
      ensures goesOn ==> |Frames(side)| == |old(Frames(side))| + 1
      ensures !goesOn ==> MayEnd(side)
      ensures clock > old(clock)
      ensures goesOn && side == ToKit ==> Bridged(|clientRead| - 1, clock)
      ensures side == ToKit ==> forall n: nat :: n < |old(clientRead)| ==>
        (HasGoroutine(tasks, BridgeOffer(n)) <==> HasGoroutine(old(tasks), BridgeOffer(n)))
    {
      hide Run, Reachable, IdsView, LifeView;
      var frame := ReadMessage(side);
      if frame.None? {
        return false;
      }
      var forward: bool;
      if side == ToClient {
        forward := OnKitMessage(frame.value);
      } else {
        forward := OnClientMessage(frame.value);
      }
      if !forward {
        return true;
      }
      goesOn := Forward(side, frame.value);
    }

    // ------------------------------------------------------------- the goroutines

    /** from := browserPeerID. */
    method LoadBrowserID(i: nat) returns (from: int)
      requires Valid() && i < |tasks| && tasks[i].stage.LoadFrom?
      modifies this
      ensures Valid() && i < |tasks| && tasks[i] == old(tasks[i]).(from := from, fromAt := |log|, stage := LoadTo)
      ensures clock == old(clock) + 1
    {
      hide Run, Reachable, LifeView;
      Others(Goroutine(i));
      ghost var s := View();
      from := browserPeerID;
      tasks := tasks[i := tasks[i].(from := from, fromAt := |log|, stage := LoadTo)];
      assert View() == StepTask(codec, s, i, true, "");
      StepIsReachable(codec, s, TaskRuns(i, true, ""));
    }

    method LoadKitID(i: nat) returns (to: int)
      requires Valid() && i < |tasks| && tasks[i].stage.LoadTo?
      modifies this
      ensures Valid() && i < |tasks| && tasks[i] == old(tasks[i]).(to := to, toAt := |log|, stage := SendKit)
      ensures clock == old(clock) + 1
    {
      hide Run, Reachable, LifeView;
      Others(Goroutine(i));
      ghost var s := View();
      to := kitPeerID;
      tasks := tasks[i := tasks[i].(to := to, toAt := |log|, stage := SendKit)];
      assert View() == StepTask(codec, s, i, true, "");
      StepIsReachable(codec, s, TaskRuns(i, true, ""));
    }

    /** ps.SendToKit of a frame with the two ids that were loaded. */
    method SendToKit(i: nat, from: int, to: int, inner: Inner) returns (sent: bool)
      requires Valid() && i < |tasks| && tasks[i].stage.SendKit?
      requires tasks[i].from == from && tasks[i].to == to && PayloadToKit(tasks[i]) == inner
      modifies this
      ensures Valid() && i < |tasks| && tasks[i] == old(tasks[i]).(stage := if sent then AfterKit(old(tasks[i]).job) else Finished)
      ensures writes != [] && writes[|writes| - 1] == Write(ToKit, Frame(true, codec.kitText(from, to, inner)), Built(i), sent)
      ensures sent == (env.ok(clock) && !kitClosed) && clock == old(clock) + 1
    {
      hide Run, Reachable, IdsView;
      Others(Goroutine(i));
      ghost var s := View();
      sent := WriteTo(ToKit, Frame(true, codec.kitText(from, to, inner)), Built(i));
      tasks := tasks[i := tasks[i].(stage := if sent then AfterKit(tasks[i].job) else Finished)];
      assert View() == StepTask(codec, s, i, env.ok(clock), "");
      StepIsReachable(codec, s, TaskRuns(i, env.ok(clock), ""));
    }

    /** Two loads, then the send: the other goroutines may store new ids in between. */
    method PostToKit(i: nat, inner: Inner) returns (sent: bool)
      requires Valid() && i < |tasks| && tasks[i].stage.LoadFrom? && PayloadToKit(tasks[i]) == inner
      modifies this
      ensures Valid() && i < |tasks| && tasks[i].job == old(tasks[i]).job && tasks[i].kitSdp == old(tasks[i]).kitSdp
      ensures tasks[i].stage == if sent then AfterKit(tasks[i].job) else Finished
      ensures writes != [] && writes[|writes| - 1]
           == Write(ToKit, Frame(true, codec.kitText(tasks[i].from, tasks[i].to, inner)), Built(i), sent)
      ensures sent == (env.ok(clock) && !kitClosed) && clock == old(clock) + 3
    {
      hide Run, Reachable, IdsView, LifeView;
      var from := LoadBrowserID(i);
      var to := LoadKitID(i);
      sent := SendToKit(i, from, to, inner);
    }

    /** AddInt32(&st.ackCounter, 1). */
    method AddAck(i: nat) returns (ackid: int)
      requires Valid() && i < |tasks| && tasks[i].stage.TakeAckid?
      modifies this
      ensures Valid() && i < |tasks| && tasks[i] == old(tasks[i]).(ackid := ackid, ticket := issued, stage := LoadPeer)
      ensures ackid == ackCounter
      ensures clock == old(clock) + 1
    {
      hide Run, Reachable, LifeView;
      Others(Goroutine(i));
      ghost var s := View();
      ackCounter, issued := Next32(ackCounter), issued + 1;
      ackid := ackCounter;
      tasks := tasks[i := tasks[i].(ackid := ackid, ticket := issued, stage := LoadPeer)];
      assert View() == StepTask(codec, s, i, true, "");
      StepIsReachable(codec, s, TaskRuns(i, true, ""));
    }

    method LoadSender(i: nat) returns (peer: int)
      requires Valid() && i < |tasks| && tasks[i].stage.LoadPeer?
      modifies this
      ensures Valid() && i < |tasks| && tasks[i] == old(tasks[i]).(peer := peer, stage := SendBrowser)
      ensures clock == old(clock) + 1
    {
      hide Run, Reachable, LifeView;
      Others(Goroutine(i));
      ghost var s := View();
      peer := kitPeerID;
      tasks := tasks[i := tasks[i].(peer := peer, stage := SendBrowser)];
      assert View() == StepTask(codec, s, i, true, "");
      StepIsReachable(codec, s, TaskRuns(i, true, ""));
    }

    /** ps.Send. */
    method Send(i: nat, ackid: int, peer: int, inner: Inner) returns (sent: bool)
      requires Valid() && i < |tasks| && tasks[i].stage.SendBrowser?
      requires tasks[i].ackid == ackid && tasks[i].peer == peer && PayloadToBrowser(tasks[i]) == inner
      modifies this
      ensures Valid() && i < |tasks| && tasks[i] == old(tasks[i]).(stage := Finished)
      ensures writes != [] && writes[|writes| - 1] == Write(ToClient, Frame(true, codec.browserText(ackid, peer, inner)), Built(i), sent)
      ensures sent == (env.ok(clock) && !clientClosed) && clock == old(clock) + 1
    {
      hide Run, Reachable, IdsView;
      Others(Goroutine(i));
      ghost var s := View();
      sent := WriteTo(ToClient, Frame(true, codec.browserText(ackid, peer, inner)), Built(i));
      tasks := tasks[i := tasks[i].(stage := Finished)];
      assert View() == StepTask(codec, s, i, env.ok(clock), "");
      StepIsReachable(codec, s, TaskRuns(i, env.ok(clock), ""));
    }

    /** One add, one load, then the send: ackids may be written in another order than they are taken. */
    method PostToBrowser(i: nat, inner: Inner) returns (sent: bool)
      requires Valid() && i < |tasks| && tasks[i].stage.TakeAckid? && PayloadToBrowser(tasks[i]) == inner
      modifies this
      ensures Valid() && i < |tasks| && tasks[i].job == old(tasks[i]).job && tasks[i].stage == Finished
      ensures writes != [] && writes[|writes| - 1]
           == Write(ToClient, Frame(true, codec.browserText(tasks[i].ackid, tasks[i].peer, inner)), Built(i), sent)
      ensures sent == (env.ok(clock) && !clientClosed) && clock == old(clock) + 3 && tasks[i].kitSdp == old(tasks[i]).kitSdp
    {
      hide Run, Reachable, IdsView, LifeView;
      var ackid := AddAck(i);
      var peer := LoadSender(i);
      sent := Send(i, ackid, peer, inner);
    }

    /** The upstream peer answers Kit's offer, or makes an offer of its own. */
    method AskUpstream(i: nat) returns (sdp: Option<string>)
      requires Valid() && i < |tasks| && tasks[i].stage.PrepareKit?
      modifies this
      ensures Valid() && i < |tasks|
      ensures tasks[i] == if sdp.Some? then old(tasks[i]).(kitSdp := sdp.value, stage := LoadFrom)
                          else old(tasks[i]).(stage := Finished)
      ensures sdp == (if env.ok(clock) then Some(env.sdp(clock)) else None) && clock == old(clock) + 1
    {
      hide Run, Reachable, IdsView, LifeView;
      Others(Goroutine(i));
      ghost var s := View();
      sdp := if env.ok(clock) then Some(env.sdp(clock)) else None;
      tasks := tasks[i := if sdp.Some? then tasks[i].(kitSdp := sdp.value, stage := LoadFrom) else tasks[i].(stage := Finished)];
      assert View() == StepTask(codec, s, i, env.ok(clock), env.sdp(clock));
      StepIsReachable(codec, s, TaskRuns(i, env.ok(clock), env.sdp(clock)));
    }

    /** The downstream peer makes an offer, or answers the browser's. */
    method AskDownstream(i: nat) returns (sdp: Option<string>)
      requires Valid() && i < |tasks| && tasks[i].stage.PrepareBrowser?
      modifies this
      ensures Valid() && i < |tasks|
      ensures tasks[i] == if sdp.Some? then old(tasks[i]).(browserSdp := sdp.value, stage := TakeAckid)
                          else old(tasks[i]).(stage := Finished)
      ensures sdp == (if env.ok(clock) then Some(env.sdp(clock)) else None) && clock == old(clock) + 1
    {
      hide Run, Reachable, IdsView, LifeView;
      Others(Goroutine(i));
      ghost var s := View();
      sdp := if env.ok(clock) then Some(env.sdp(clock)) else None;
      tasks := tasks[i := if sdp.Some? then tasks[i].(browserSdp := sdp.value, stage := TakeAckid) else tasks[i].(stage := Finished)];
      assert View() == StepTask(codec, s, i, env.ok(clock), env.sdp(clock));
      StepIsReachable(codec, s, TaskRuns(i, env.ok(clock), env.sdp(clock)));
    }

    lemma GateIsForOffers(i: nat)
      requires Valid() && i < |tasks| && tasks[i].stage.Gate?
      ensures tasks[i].job.OfferBrowser? || tasks[i].job.BridgeOffer?
    {
      var events :| View() == Run(codec, INITIAL, events);
      RouteInvAlways(codec, events);
      assert TaskOk(events, log, i, tasks[i]);
    }

    /** The looks at the context: an offer is made unless it is cancelled, and an answer unless cancelling wins the select. */
    method PassGate(i: nat) returns (open: bool)
      requires Valid() && i < |tasks| && tasks[i].stage.Gate?
      modifies this
      ensures Valid() && i < |tasks| && tasks[i] == old(tasks[i]).(stage := if open then PrepareBrowser else Finished)
      ensures open == (!cancelled || (tasks[i].job.BridgeOffer? && env.ok(clock))) && clock == old(clock) + 1
    {
      hide Run, Reachable, IdsView;
      Others(Goroutine(i));
      ghost var s := View();
      GateIsForOffers(i);
      open := !cancelled || (!tasks[i].job.OfferBrowser? && env.ok(clock));
      tasks := tasks[i := tasks[i].(stage := if open then PrepareBrowser else Finished)];
      assert View() == StepTask(codec, s, i, env.ok(clock), "");
      StepIsReachable(codec, s, TaskRuns(i, env.ok(clock), ""));
    }

    /** handleKitOffer: the offer to the browser is started only after the answer to Kit went out. */
    method HandleKitOffer(i: nat) returns (started: bool)
      requires Valid() && i < |tasks| && tasks[i].job.AnswerKit? && tasks[i].stage.PrepareKit?
      modifies this
      ensures Valid() && i < |tasks| && tasks[i].stage.Finished?
      ensures started ==> |tasks| > i + 1 && tasks[|tasks| - 1] == NewTask(OfferBrowser(i), |writes|)
      ensures started ==> Sent(writes, |writes|, ToKit, Built(i)) && tasks[i].kitSdp == env.sdp(old(clock) + 1)
      ensures !started ==> !env.ok(clock) || kitClosed
    {
      hide Run, Reachable, IdsView, LifeView;
      var answer := AskUpstream(i);
      if answer.None? {
        return false;
      }
      var sent := PostToKit(i, Inner("answer", answer.value, "", "", 0));
      if !sent {
        return false;
      }
      Others(Goroutine(i));
      ghost var s := View();
      tasks := tasks[i := tasks[i].(stage := Finished)] + [NewTask(OfferBrowser(i), |writes|)];
      assert s.tasks[i := tasks[i]] + [NewTask(OfferBrowser(i), |writes|)] == (s.tasks + [NewTask(OfferBrowser(i), |writes|)])[i := tasks[i]];
      assert View() == StepTask(codec, s, i, true, "");
      StepIsReachable(codec, s, TaskRuns(i, true, ""));
      AnswerIsOut(|tasks| - 1);
      return true;
    }

    lemma AnswerIsOut(i: nat)
      requires Valid() && i < |tasks| && tasks[i].job.OfferBrowser?
      ensures Sent(writes, tasks[i].bornAt, ToKit, Built(tasks[i].job.parent)) && tasks[i].bornAt <= |writes|
    {
      var events :| View() == Run(codec, INITIAL, events);
      OfferInvAlways(codec, events);
      assert JobOk(codec, View(), i);
    }

    /** buildBrowserOffer. */
    method BuildBrowserOffer(i: nat) returns (sent: bool)
      requires Valid() && i < |tasks| && tasks[i].job.OfferBrowser? && tasks[i].stage.Gate?
      modifies this
      ensures Valid() && i < |tasks| && tasks[i].stage.Finished?
      ensures var text := codec.browserText(tasks[i].ackid, tasks[i].peer, Inner("offer", env.sdp(old(clock) + 2), "", "", 0));
              sent ==> writes != [] && writes[|writes| - 1] == Write(ToClient, Frame(true, text), Built(i), true)
      ensures sent ==> Sent(writes, |writes| - 1, ToKit, Built(old(tasks[i].job).parent))
      ensures !sent ==> !env.ok(clock) || clientClosed || cancelled
    {
      hide Run, Reachable, IdsView, LifeView;
      var open := PassGate(i);
      if !open {
        return false;
      }
      var offer := AskDownstream(i);
      if offer.None? {
        return false;
      }
      sent := PostToBrowser(i, Inner("offer", offer.value, "", "", 0));
      BrowserOfferFollowsAnswer(codec, View(), |writes| - 1);
    }

    /** bridgeBrowserOffer: the answer to the browser is made only after the offer to Kit went out. */
    method BridgeBrowserOffer(i: nat) returns (sent: bool)
      requires Valid() && i < |tasks| && tasks[i].job.BridgeOffer? && tasks[i].stage.PrepareKit?
      modifies this
      ensures Valid() && i < |tasks| && tasks[i].stage.Finished?
      ensures var text := codec.browserText(tasks[i].ackid, tasks[i].peer, Inner("answer", env.sdp(old(clock) + 6), "", "", 0));
              sent ==> writes != [] && writes[|writes| - 1] == Write(ToClient, Frame(true, text), Built(i), true)
      ensures sent ==> Sent(writes, |writes| - 1, ToKit, Built(i)) && tasks[i].kitSdp == env.sdp(old(clock) + 1)
      ensures !sent ==> !env.ok(clock) || kitClosed || clientClosed || cancelled
    {
      hide Run, Reachable, IdsView, LifeView;
      var offer := AskUpstream(i);
      if offer.None? {
        return false;
      }
      var offered := PostToKit(i, Inner("offer", offer.value, "", "", 0));
      if !offered {
        return false;
      }
      var open := PassGate(i);
      if !open {
        return false;
      }
      var answer := AskDownstream(i);
      if answer.None? {
        return false;
      }
      sent := PostToBrowser(i, Inner("answer", answer.value, "", "", 0));
      BridgeAnswerFollowsOffer(codec, View(), |writes| - 1);
    }

    /** The upstream peer has found a candidate: its callback tells Kit. */
    method OnUpstreamCandidate(candidate: string, mid: string, index: Int64) returns (sent: bool, i: nat)
      requires Valid()
      modifies this
      ensures Valid() && i == |old(tasks)| && i < |tasks| && tasks[i].stage.Finished?
      ensures var inner := Inner("candidate", "", candidate, mid, index);
              && tasks[i].job == CandidateToKit(inner) && writes != []
              && writes[|writes| - 1] == Write(ToKit, Frame(true, codec.kitText(tasks[i].from, tasks[i].to, inner)), Built(i), sent)
      ensures sent == (env.ok(clock) && !kitClosed)
    {
      hide Run, Reachable, IdsView, LifeView;
      var inner := Inner("candidate", "", candidate, mid, index);
      ghost var s := View();
      i := |tasks|;
      tasks := tasks + [NewTask(CandidateToKit(inner), |writes|)];
      assert View() == Step(codec, s, UpstreamCandidate(candidate, mid, index));
      StepIsReachable(codec, s, UpstreamCandidate(candidate, mid, index));
      sent := PostToKit(i, inner);
    }

    /** The downstream peer has found a candidate: its callback tells the browser. */
    method OnDownstreamCandidate(candidate: string, mid: string, index: Int64) returns (sent: bool, i: nat)
      requires Valid()
      modifies this
      ensures Valid() && i == |old(tasks)| && i < |tasks| && tasks[i].stage.Finished?
      ensures var inner := Inner("candidate", "", candidate, mid, index);
              && tasks[i].job == CandidateToBrowser(inner) && writes != []
              && writes[|writes| - 1] == Write(ToClient, Frame(true, codec.browserText(tasks[i].ackid, tasks[i].peer, inner)), Built(i), sent)
      ensures sent == (env.ok(clock) && !clientClosed)
    {
      hide Run, Reachable, IdsView, LifeView;
      var inner := Inner("candidate", "", candidate, mid, index);
      ghost var s := View();
      i := |tasks|;
      tasks := tasks + [NewTask(CandidateToBrowser(inner), |writes|)];
      assert View() == Step(codec, s, DownstreamCandidate(candidate, mid, index));
      StepIsReachable(codec, s, DownstreamCandidate(candidate, mid, index));
      sent := PostToBrowser(i, inner);
    }
  }
}
