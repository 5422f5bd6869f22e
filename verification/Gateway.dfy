/**
 One browser session as a step machine: the two pump goroutines, the goroutines
 they and the ICE callbacks start, the three shared integers, the two sockets
 and the once-only teardown. Every step is one read, one hook decision, one
 atomic load, store or add, one locked write, or one answer of the media stack.
 */
module Gateway {
  import opened Wrappers
  import opened Signals

  /** A WebSocket message: text or binary, and its bytes. */
  datatype Frame = Frame(text: bool, data: string)

  datatype Side = ToKit | ToClient

  /** Why a frame is written: the n-th frame its pump read, an ack for the n-th Kit frame, or built by a goroutine. */
  datatype Origin = Forwarded(index: nat) | AutoAck(kitIndex: nat) | Built(task: nat)

  /** An attempt to write, in the order the writers held their lock; `ok` when the frame went out. */
  datatype Write = Write(side: Side, frame: Frame, origin: Origin, ok: bool)

  datatype Pump =
    | Reading
    | Deciding(frame: Frame)      // read, the hook is about to look at it
    | Learned(frame: Frame)       // a peer id has been stored
    | Settled(frame: Frame)       // acknowledged (Kit side) or both ids stored (client side)
    | Forwarding(frame: Frame)    // the hook let it through
    | TearingDown                 // about to enter closeOnce
    | ClosingClient | ClosingKit | RunningOnClose
    | Stopped

  datatype Job =
    | AnswerKit(kitIndex: nat)            // handleKitOffer
    | OfferBrowser(parent: nat)           // buildBrowserOffer, started by its parent
    | BridgeOffer(clientIndex: nat)       // bridgeBrowserOffer
    | CandidateToKit(inner: Inner)
    | CandidateToBrowser(inner: Inner)

  datatype Stage =
    | PrepareKit | LoadFrom | LoadTo | SendKit | SpawnOffer
    | Gate | PrepareBrowser | TakeAckid | LoadPeer | SendBrowser
    | Finished

  /**
   A goroutine: its job, how far it got and its local variables, first those of
   its message to Kit, then those of its message to the browser. The last four
   fields are history: which add gave it its ackid, how many writes there were
   when it started, and how many id stores before it read the two addresses.
   */
  datatype Task = Task(job: Job, stage: Stage, kitSdp: string, from: int, to: int, browserSdp: string, ackid: int, peer: int,
                       ticket: nat, bornAt: nat, fromAt: nat, toAt: nat)

  datatype Register = KitId | BrowserId

  /** A store to one of the two peer ids, and the pump that made it. */
  datatype IdStore = IdStore(reader: Side, register: Register, value: int)

  datatype Once = Fresh | Running | Done

  /** The three atomic integers. `issued` and `log` are history: how many adds there were, and every store. */
  datatype Ids = Ids(kitPeerID: int, browserPeerID: int, ackCounter: int, issued: nat, log: seq<IdStore>)

  /** Teardown: the once, what it has closed, and (history) how often it closed each. */
  datatype Life = Life(once: Once, clientClosed: bool, kitClosed: bool, cancelled: bool,
                       clientCloses: nat, kitCloses: nat, onCloseRuns: nat)

  datatype State = State(kitRead: seq<Frame>, clientRead: seq<Frame>, kitPump: Pump, clientPump: Pump,
                         tasks: seq<Task>, writes: seq<Write>, ids: Ids, life: Life)

  /** Gateway ackids start above this number. */
  const ACK_BASE := 10000

  const INITIAL := State([], [], Reading, Reading, [], [], Ids(1, 0, ACK_BASE, 0, []),
                         Life(Fresh, false, false, false, 0, 0, 0))

  // ------------------------------------------------------------- atomic effects

  /** What one step may do to the state that goroutines share. */
  datatype Effect =
    | NoEffect
    | Put(side: Side, frame: Frame, origin: Origin)   // a write under the side's mutex
    | Learn(store: IdStore)                           // an atomic store of a peer id
    | Count                                           // an atomic add to the ack counter
    | Start(job: Job)                                 // a go statement
    | EnterOnce | CloseClient | CloseKit | FinishClose

  predicate Closed(life: Life, side: Side) { if side == ToKit then life.kitClosed else life.clientClosed }

  /** A write on a closed connection fails; any other may fail or succeed. */
  predicate GoesOut(life: Life, side: Side, ok: bool) { ok && !Closed(life, side) }

  function StoreId(ids: Ids, store: IdStore): Ids {
    if store.register == KitId then ids.(kitPeerID := store.value, log := ids.log + [store])
    else ids.(browserPeerID := store.value, log := ids.log + [store])
  }

  function AddAck(ids: Ids): Ids {
    ids.(ackCounter := Next32(ids.ackCounter), issued := ids.issued + 1)
  }

  function FirstStage(job: Job): Stage {
    match job
    case AnswerKit(_) => PrepareKit
    case BridgeOffer(_) => PrepareKit
    case OfferBrowser(_) => Gate
    case CandidateToKit(_) => LoadFrom
    case CandidateToBrowser(_) => TakeAckid
  }

  function NewTask(job: Job, bornAt: nat): Task {
    Task(job, FirstStage(job), "", 0, 0, "", 0, 0, 0, bornAt, 0, 0)
  }

  function Tear(life: Life, effect: Effect): Life {
    match effect
    case EnterOnce => life.(once := Running)
    case CloseClient => life.(clientClosed := true, clientCloses := life.clientCloses + 1)
    case CloseKit => life.(kitClosed := true, kitCloses := life.kitCloses + 1)
    case FinishClose => life.(cancelled := true, onCloseRuns := life.onCloseRuns + 1, once := Done)
    case _ => life
  }

  function Apply(s: State, effect: Effect, ok: bool): State {
    match effect
    case NoEffect => s
    case Put(side, frame, origin) =>
      s.(writes := s.writes + [Write(side, frame, origin, GoesOut(s.life, side, ok))])
    case Learn(store) => s.(ids := StoreId(s.ids, store))
    case Count => s.(ids := AddAck(s.ids))
    case Start(job) => s.(tasks := s.tasks + [NewTask(job, |s.writes|)])
    case _ => s.(life := Tear(s.life, effect))
  }

  // ------------------------------------------------------------------- teardown

  /** tearDown through a sync.Once: a second caller waits until the first one has finished. */
  function TearEffect(life: Life, pump: Pump): Effect {
    match pump
    case TearingDown => if life.once == Fresh then EnterOnce else NoEffect
    case ClosingClient => CloseClient
    case ClosingKit => CloseKit
    case RunningOnClose => FinishClose
    case _ => NoEffect
  }

  predicate Leaving(pump: Pump) {
    pump.TearingDown? || pump.ClosingClient? || pump.ClosingKit? || pump.RunningOnClose? || pump.Stopped?
  }

  function TearMove(life: Life, pump: Pump): Pump {
    match pump
    case TearingDown =>
      if life.once == Fresh then ClosingClient else if life.once == Running then TearingDown else Stopped
    case ClosingClient => ClosingKit
    case ClosingKit => RunningOnClose
    case RunningOnClose => Stopped
    case _ => pump
  }

  // ------------------------------------------------------------------ the pumps

  function LastIndex<T>(xs: seq<T>): nat { if xs == [] then 0 else |xs| - 1 }

  /** What the Kit-to-client pump does next to the shared state. */
  function KitEffect(c: Codec, s: State): Effect {
    match s.kitPump
    case Reading => NoEffect
    case Deciding(f) =>
      (match c.kit(f.data)
       case KitInfo(id) => Learn(IdStore(ToClient, KitId, id))
       case BrowserInfo(id) => Learn(IdStore(ToClient, BrowserId, id))
       case Signal(from, _, _, _) => Learn(IdStore(ToClient, KitId, from))
       case _ => NoEffect)
    case Learned(f) =>
      (match c.OwedAck(f.data)
       case None => NoEffect
       case Some(n) => Put(ToKit, Frame(true, c.ackText(n)), AutoAck(LastIndex(s.kitRead))))
    case Settled(f) => if IsOffer(c.kit(f.data)) then Start(AnswerKit(LastIndex(s.kitRead))) else NoEffect
    case Forwarding(f) => Put(ToClient, f, Forwarded(LastIndex(s.kitRead)))
    case pump => TearEffect(s.life, pump)
  }

  /** Where it goes; `ok` and `frame` are what the environment answers to its read or write. */
  function KitMove(c: Codec, s: State, ok: bool, frame: Frame): Pump {
    match s.kitPump
    case Reading => if ok && !s.life.kitClosed then Deciding(frame) else TearingDown
    case Deciding(f) => if c.kit(f.data).Signal? then Learned(f) else Forwarding(f)
    case Learned(f) => if c.KitPasses(f.data) then Forwarding(f) else Settled(f)
    case Settled(f) => Reading
    case Forwarding(f) => if GoesOut(s.life, ToClient, ok) then Reading else TearingDown
    case pump => TearMove(s.life, pump)
  }

  /** The client-to-Kit pump; for an offer `ok` is whether the downstream peer accepted it. */
  function ClientEffect(c: Codec, s: State, ok: bool): Effect {
    match s.clientPump
    case Reading => NoEffect
    case Deciding(f) =>
      (match c.client(f.data)
       case Signal(from, _, _, _) => Learn(IdStore(ToKit, BrowserId, from))
       case _ => NoEffect)
    case Learned(f) =>
      (match c.client(f.data)
       case Signal(_, Some(to), _, _) => Learn(IdStore(ToKit, KitId, to))
       case _ => NoEffect)
    case Settled(f) =>
      if IsOffer(c.client(f.data)) && ok then Start(BridgeOffer(LastIndex(s.clientRead))) else NoEffect
    case Forwarding(f) => Put(ToKit, f, Forwarded(LastIndex(s.clientRead)))
    case pump => TearEffect(s.life, pump)
  }

  function ClientMove(c: Codec, s: State, ok: bool, frame: Frame): Pump {
    match s.clientPump
    case Reading => if ok && !s.life.clientClosed then Deciding(frame) else TearingDown
    case Deciding(f) =>
      (match c.client(f.data)
       case AckFrame => Reading
       case Signal(_, _, _, _) => Learned(f)
       case _ => Forwarding(f))
    case Learned(f) => Settled(f)
    case Settled(f) => if c.ClientPasses(f.data) then Forwarding(f) else Reading
    case Forwarding(f) => if GoesOut(s.life, ToKit, ok) then Reading else TearingDown
    case pump => TearMove(s.life, pump)
  }

  function AfterRead(read: seq<Frame>, pump: Pump, next: Pump): seq<Frame> {
    if pump.Reading? && next.Deciding? then read + [next.frame] else read
  }

  function StepKit(c: Codec, s: State, ok: bool, frame: Frame): State {
    var next := KitMove(c, s, ok, frame);
    Apply(s, KitEffect(c, s), ok).(kitPump := next, kitRead := AfterRead(s.kitRead, s.kitPump, next))
  }

  function StepClient(c: Codec, s: State, ok: bool, frame: Frame): State {
    var next := ClientMove(c, s, ok, frame);
    Apply(s, ClientEffect(c, s, ok), ok).(clientPump := next, clientRead := AfterRead(s.clientRead, s.clientPump, next))
  }

  // ------------------------------------------------------------- the goroutines

  function PayloadToKit(t: Task): Inner {
    match t.job
    case AnswerKit(_) => Inner("answer", t.kitSdp, "", "", 0)
    case CandidateToKit(inner) => inner
    case _ => Inner("offer", t.kitSdp, "", "", 0)
  }

  function PayloadToBrowser(t: Task): Inner {
    match t.job
    case OfferBrowser(_) => Inner("offer", t.browserSdp, "", "", 0)
    case CandidateToBrowser(inner) => inner
    case _ => Inner("answer", t.browserSdp, "", "", 0)
  }

  function FrameToKit(c: Codec, t: Task): Frame { Frame(true, c.kitText(t.from, t.to, PayloadToKit(t))) }

  function FrameToBrowser(c: Codec, t: Task): Frame { Frame(true, c.browserText(t.ackid, t.peer, PayloadToBrowser(t))) }

  function TaskEffect(c: Codec, t: Task, i: nat): Effect {
    match t.stage
    case SendKit => Put(ToKit, FrameToKit(c, t), Built(i))
    case SpawnOffer => Start(OfferBrowser(i))
    case TakeAckid => Count
    case SendBrowser => Put(ToClient, FrameToBrowser(c, t), Built(i))
    case _ => NoEffect
  }

  function AfterKit(job: Job): Stage {
    match job
    case AnswerKit(_) => SpawnOffer
    case BridgeOffer(_) => Gate
    case _ => Finished
  }

  /** The next stage and locals; `ok` and `sdp` are the answer of the media stack, the socket or the timer. */
  function TaskMove(ids: Ids, life: Life, t: Task, ok: bool, sdp: string): Task {
    match t.stage
    case PrepareKit => if ok then t.(kitSdp := sdp, stage := LoadFrom) else t.(stage := Finished)
    case LoadFrom => t.(from := ids.browserPeerID, fromAt := |ids.log|, stage := LoadTo)
    case LoadTo => t.(to := ids.kitPeerID, toAt := |ids.log|, stage := SendKit)
    case SendKit => t.(stage := if GoesOut(life, ToKit, ok) then AfterKit(t.job) else Finished)
    case SpawnOffer => t.(stage := Finished)
    case Gate => t.(stage := if life.cancelled && (t.job.OfferBrowser? || !ok) then Finished else PrepareBrowser)
    case PrepareBrowser => if ok then t.(browserSdp := sdp, stage := TakeAckid) else t.(stage := Finished)
    case TakeAckid => t.(ackid := Next32(ids.ackCounter), ticket := ids.issued + 1, stage := LoadPeer)
    case LoadPeer => t.(peer := ids.kitPeerID, stage := SendBrowser)
    case SendBrowser => t.(stage := Finished)
    case Finished => t
  }

  function StepTask(c: Codec, s: State, i: nat, ok: bool, sdp: string): State
    requires i < |s.tasks|
  {
    var after := Apply(s, TaskEffect(c, s.tasks[i], i), ok);
    after.(tasks := after.tasks[i := TaskMove(s.ids, s.life, s.tasks[i], ok, sdp)])
  }

  // ------------------------------------------------------------------ schedules

  datatype Event =
    | KitPumpRuns(ok: bool, frame: Frame)
    | ClientPumpRuns(ok: bool, frame: Frame)
    | TaskRuns(task: nat, ok: bool, sdp: string)
    | UpstreamCandidate(candidate: string, mid: string, index: Int64)
    | DownstreamCandidate(candidate: string, mid: string, index: Int64)

  /** One step of whoever the scheduler picks; a goroutine that is not there does nothing. */
  function Step(c: Codec, s: State, e: Event): State {
    match e
    case KitPumpRuns(ok, frame) => StepKit(c, s, ok, frame)
    case ClientPumpRuns(ok, frame) => StepClient(c, s, ok, frame)
    case TaskRuns(i, ok, sdp) => if i < |s.tasks| then StepTask(c, s, i, ok, sdp) else s
    case UpstreamCandidate(text, mid, index) =>
      Apply(s, Start(CandidateToKit(Inner("candidate", "", text, mid, index))), true)
    case DownstreamCandidate(text, mid, index) =>
      Apply(s, Start(CandidateToBrowser(Inner("candidate", "", text, mid, index))), true)
  }

  /** The state after a schedule: any interleaving, any answers. */
  function Run(c: Codec, s: State, events: seq<Event>): State {
    if events == [] then s
    else Step(c, Run(c, s, events[..|events| - 1]), events[|events| - 1])
  }

  /** Every state the session can be in. */
  ghost predicate Reachable(c: Codec, s: State) { exists events :: s == Run(c, INITIAL, events) }

  lemma RunSnoc(c: Codec, s: State, events: seq<Event>, e: Event)
    ensures Run(c, s, events + [e]) == Step(c, Run(c, s, events), e)
  {
    assert (events + [e])[..|events|] == events;
  }

  lemma StartIsReachable(c: Codec)
    ensures Reachable(c, INITIAL)
  {
    assert Run(c, INITIAL, []) == INITIAL;
  }

  lemma StepIsReachable(c: Codec, s: State, e: Event)
    requires Reachable(c, s)
    ensures Reachable(c, Step(c, s, e))
  {
    var events :| s == Run(c, INITIAL, events);
    RunSnoc(c, INITIAL, events, e);
  }

  // ---------------------------------------------------- what a step leaves alone

  /** The reads of a pump are its own: no other step touches them or its position. */
  lemma PumpsAreApart(c: Codec, s: State, ok: bool, frame: Frame)
    ensures StepKit(c, s, ok, frame).clientRead == s.clientRead && StepKit(c, s, ok, frame).clientPump == s.clientPump
    ensures StepClient(c, s, ok, frame).kitRead == s.kitRead && StepClient(c, s, ok, frame).kitPump == s.kitPump
  {
  }

  /** A goroutine touches neither pump, nor the peer ids, nor the teardown. */
  lemma TasksAreApart(c: Codec, s: State, i: nat, ok: bool, sdp: string)
    requires i < |s.tasks|
    ensures var after := StepTask(c, s, i, ok, sdp);
            && after.kitRead == s.kitRead && after.kitPump == s.kitPump
            && after.clientRead == s.clientRead && after.clientPump == s.clientPump
            && after.life == s.life && after.ids.log == s.ids.log
            && after.ids.kitPeerID == s.ids.kitPeerID && after.ids.browserPeerID == s.ids.browserPeerID
  {
  }
}
