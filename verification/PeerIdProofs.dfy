/** Peer-id learning as a fold over what the two sides announced, and the addresses gateway frames carry. */
module PeerIdProofs {
  import opened Signals
  import opened Gateway

  /** The value of a register after a history of stores: the last one, or the default Kit 1 / browser 0. */
  function IdAfter(log: seq<IdStore>, register: Register): int {
    if log == [] then (if register == KitId then 1 else 0)
    else
      var last := log[|log| - 1];
      if last.register == register then last.value else IdAfter(log[..|log| - 1], register)
  }

  /** What one frame makes its reader store: Kit's pump is the ToClient one. */
  function StoresOf(c: Codec, reader: Side, f: Frame): seq<IdStore> {
    if reader == ToClient then
      match c.kit(f.data)
      case KitInfo(id) => [IdStore(ToClient, KitId, id)]
      case BrowserInfo(id) => [IdStore(ToClient, BrowserId, id)]
      case Signal(from, _, _, _) => [IdStore(ToClient, KitId, from)]
      case _ => []
    else
      match c.client(f.data)
      case Signal(from, Some(to), _, _) => [IdStore(ToKit, BrowserId, from), IdStore(ToKit, KitId, to)]
      case Signal(from, None, _, _) => [IdStore(ToKit, BrowserId, from)]
      case _ => []
  }

  function Announced(c: Codec, reader: Side, frames: seq<Frame>): seq<IdStore> {
    if frames == [] then []
    else Announced(c, reader, frames[..|frames| - 1]) + StoresOf(c, reader, frames[|frames| - 1])
  }

  /** The stores one reader made, in order. */
  function StoresBy(log: seq<IdStore>, reader: Side): seq<IdStore> {
    if log == [] then []
    else
      var before := StoresBy(log[..|log| - 1], reader);
      if log[|log| - 1].reader == reader then before + [log[|log| - 1]] else before
  }

  predicate KitLogOk(c: Codec, frames: seq<Frame>, pump: Pump, made: seq<IdStore>) {
    if pump.Deciding? then
      frames != [] && frames[|frames| - 1] == pump.frame && made == Announced(c, ToClient, frames[..|frames| - 1])
    else made == Announced(c, ToClient, frames)
  }

  predicate ClientLogOk(c: Codec, frames: seq<Frame>, pump: Pump, made: seq<IdStore>) {
    if pump.Deciding? then
      frames != [] && frames[|frames| - 1] == pump.frame && made == Announced(c, ToKit, frames[..|frames| - 1])
    else if pump.Learned? then
      && frames != [] && frames[|frames| - 1] == pump.frame && c.client(pump.frame.data).Signal?
      && made == Announced(c, ToKit, frames[..|frames| - 1]) + [IdStore(ToKit, BrowserId, c.client(pump.frame.data).from)]
    else made == Announced(c, ToKit, frames)
  }

  predicate RegistersOk(ids: Ids) {
    ids.kitPeerID == IdAfter(ids.log, KitId) && ids.browserPeerID == IdAfter(ids.log, BrowserId)
  }

  predicate LogInv(c: Codec, s: State) {
    && RegistersOk(s.ids)
    && KitLogOk(c, s.kitRead, s.kitPump, StoresBy(s.ids.log, ToClient))
    && ClientLogOk(c, s.clientRead, s.clientPump, StoresBy(s.ids.log, ToKit))
  }

  lemma StoresAfter(s: State, effect: Effect, ok: bool, reader: Side)
    ensures StoresBy(Apply(s, effect, ok).ids.log, reader)
      == if effect.Learn? && effect.store.reader == reader then StoresBy(s.ids.log, reader) + [effect.store]
         else StoresBy(s.ids.log, reader)
    ensures RegistersOk(s.ids) ==> RegistersOk(Apply(s, effect, ok).ids)
  {
    if effect.Learn? {
      assert (s.ids.log + [effect.store])[..|s.ids.log|] == s.ids.log;
    }
  }

  lemma LastAnnounced(c: Codec, reader: Side, frames: seq<Frame>, f: Frame)
    requires frames != [] && frames[|frames| - 1] == f
    ensures Announced(c, reader, frames) == Announced(c, reader, frames[..|frames| - 1]) + StoresOf(c, reader, f)
  {
  }

  ghost predicate KitNextLogOk(c: Codec, s: State, ok: bool, frame: Frame) {
    var next := KitMove(c, s, ok, frame);
    KitLogOk(c, AfterRead(s.kitRead, s.kitPump, next), next, StoresBy(Apply(s, KitEffect(c, s), ok).ids.log, ToClient))
  }

  lemma KitLogAfterDeciding(c: Codec, s: State, ok: bool, frame: Frame)
    requires LogInv(c, s) && s.kitPump.Deciding?
    ensures KitNextLogOk(c, s, ok, frame)
  {
    hide Announced, StoresBy, IdAfter;
    StoresAfter(s, KitEffect(c, s), ok, ToClient);
    LastAnnounced(c, ToClient, s.kitRead, s.kitPump.frame);
    KitEffectStores(c, s);
    hide StoresOf, KitEffect, Apply;
    var made := Announced(c, ToClient, s.kitRead[..|s.kitRead| - 1]);
    assert made + [] == made;
  }

  /** The first step of the Kit hook stores all that the frame announces. */
  lemma KitEffectStores(c: Codec, s: State)
    requires s.kitPump.Deciding?
    ensures StoresOf(c, ToClient, s.kitPump.frame)
         == if KitEffect(c, s).Learn? then [KitEffect(c, s).store] else []
    ensures KitEffect(c, s).Learn? ==> KitEffect(c, s).store.reader == ToClient
  {
  }

  lemma KitLearnsNothing(c: Codec, s: State, ok: bool)
    requires !s.kitPump.Deciding?
    ensures Apply(s, KitEffect(c, s), ok).ids.log == s.ids.log
  {
  }

  lemma KitLogAfterOther(c: Codec, s: State, ok: bool, frame: Frame)
    requires LogInv(c, s) && !s.kitPump.Deciding?
    ensures KitNextLogOk(c, s, ok, frame)
  {
    hide Announced, StoresBy, IdAfter;
    KitLearnsNothing(c, s, ok);
    if s.kitPump.Reading? {
      assert (s.kitRead + [frame])[..|s.kitRead|] == s.kitRead;
    }
  }

  ghost predicate ClientNextLogOk(c: Codec, s: State, ok: bool, frame: Frame) {
    var next := ClientMove(c, s, ok, frame);
    ClientLogOk(c, AfterRead(s.clientRead, s.clientPump, next), next, StoresBy(Apply(s, ClientEffect(c, s, ok), ok).ids.log, ToKit))
  }

  lemma ClientLogAfterDeciding(c: Codec, s: State, ok: bool, frame: Frame)
    requires LogInv(c, s) && s.clientPump.Deciding?
    ensures ClientNextLogOk(c, s, ok, frame)
  {
    hide Announced, StoresBy, IdAfter;
    StoresAfter(s, ClientEffect(c, s, ok), ok, ToKit);
    LastAnnounced(c, ToKit, s.clientRead, s.clientPump.frame);
    var made := Announced(c, ToKit, s.clientRead[..|s.clientRead| - 1]);
    assert made + [] == made;
  }

  lemma ClientLogAfterLearned(c: Codec, s: State, ok: bool, frame: Frame)
    requires LogInv(c, s) && s.clientPump.Learned?
    ensures ClientNextLogOk(c, s, ok, frame)
  {
    hide Announced, StoresBy, IdAfter;
    StoresAfter(s, ClientEffect(c, s, ok), ok, ToKit);
    LastAnnounced(c, ToKit, s.clientRead, s.clientPump.frame);
    var made := Announced(c, ToKit, s.clientRead[..|s.clientRead| - 1]);
    var v := c.client(s.clientPump.frame.data);
    if v.to.Some? {
      assert made + [IdStore(ToKit, BrowserId, v.from)] + [IdStore(ToKit, KitId, v.to.value)]
          == made + [IdStore(ToKit, BrowserId, v.from), IdStore(ToKit, KitId, v.to.value)];
    }
  }

  lemma ClientLearnsNothing(c: Codec, s: State, ok: bool)
    requires !s.clientPump.Deciding? && !s.clientPump.Learned?
    ensures Apply(s, ClientEffect(c, s, ok), ok).ids.log == s.ids.log
  {
  }

  lemma ClientLogAfterOther(c: Codec, s: State, ok: bool, frame: Frame)
    requires LogInv(c, s) && !s.clientPump.Deciding? && !s.clientPump.Learned?
    ensures ClientNextLogOk(c, s, ok, frame)
  {
    hide Announced, StoresBy, IdAfter;
    ClientLearnsNothing(c, s, ok);
    if s.clientPump.Reading? {
      assert (s.clientRead + [frame])[..|s.clientRead|] == s.clientRead;
    }
  }

  /** Each pump stores under its own name only. */
  lemma StoresAreSigned(c: Codec, s: State, ok: bool)
    ensures KitEffect(c, s).Learn? ==> KitEffect(c, s).store.reader == ToClient
    ensures ClientEffect(c, s, ok).Learn? ==> ClientEffect(c, s, ok).store.reader == ToKit
  {
  }

  lemma OtherStoresStay(s: State, effect: Effect, ok: bool, reader: Side)
    requires effect.Learn? ==> effect.store.reader != reader
    ensures StoresBy(Apply(s, effect, ok).ids.log, reader) == StoresBy(s.ids.log, reader)
    ensures RegistersOk(s.ids) ==> RegistersOk(Apply(s, effect, ok).ids)
  {
    StoresAfter(s, effect, ok, reader);
  }

  lemma LogAfterKit(c: Codec, s: State, ok: bool, frame: Frame)
    requires LogInv(c, s)
    ensures LogInv(c, StepKit(c, s, ok, frame))
  {
    hide Announced, StoresBy, IdAfter;
    if s.kitPump.Deciding? {
      KitLogAfterDeciding(c, s, ok, frame);
    } else {
      KitLogAfterOther(c, s, ok, frame);
    }
    StoresAreSigned(c, s, ok);
    OtherStoresStay(s, KitEffect(c, s), ok, ToKit);
    PumpsAreApart(c, s, ok, frame);
  }

  lemma LogAfterClient(c: Codec, s: State, ok: bool, frame: Frame)
    requires LogInv(c, s)
    ensures LogInv(c, StepClient(c, s, ok, frame))
  {
    hide Announced, StoresBy, IdAfter;
    if s.clientPump.Deciding? {
      ClientLogAfterDeciding(c, s, ok, frame);
    } else if s.clientPump.Learned? {
      ClientLogAfterLearned(c, s, ok, frame);
    } else {
      ClientLogAfterOther(c, s, ok, frame);
    }
    StoresAreSigned(c, s, ok);
    OtherStoresStay(s, ClientEffect(c, s, ok), ok, ToClient);
    PumpsAreApart(c, s, ok, frame);
  }

  lemma LogAfterTask(c: Codec, s: State, i: nat, ok: bool, sdp: string)
    requires LogInv(c, s) && i < |s.tasks|
    ensures LogInv(c, StepTask(c, s, i, ok, sdp))
  {
    hide Announced, StoresBy, IdAfter;
    TasksAreApart(c, s, i, ok, sdp);
  }

  lemma {:induction false} LogInvAlways(c: Codec, events: seq<Event>)
    ensures LogInv(c, Run(c, INITIAL, events))
  {
    hide StepKit, StepClient, StepTask;
    if events != [] {
      var init := events[..|events| - 1];
      LogInvAlways(c, init);
      var s := Run(c, INITIAL, init);
      match events[|events| - 1]
      case KitPumpRuns(ok, frame) => LogAfterKit(c, s, ok, frame);
      case ClientPumpRuns(ok, frame) => LogAfterClient(c, s, ok, frame);
      case TaskRuns(i, ok, sdp) => if i < |s.tasks| { LogAfterTask(c, s, i, ok, sdp); }
      case _ =>
    }
  }

  lemma KitStoresUpToLast(c: Codec, s: State)
    requires LogInv(c, s)
    ensures s.ids.kitPeerID == IdAfter(s.ids.log, KitId) && s.ids.browserPeerID == IdAfter(s.ids.log, BrowserId)
    ensures StoresBy(s.ids.log, ToClient) <= Announced(c, ToClient, s.kitRead)
    ensures s.kitPump.Reading? ==> StoresBy(s.ids.log, ToClient) == Announced(c, ToClient, s.kitRead)
  {
    hide Announced, StoresBy, IdAfter, ClientLogOk, StoresOf;
    if s.kitPump.Deciding? {
      LastAnnounced(c, ToClient, s.kitRead, s.kitPump.frame);
    }
  }

  lemma ClientStoresUpToLast(c: Codec, s: State)
    requires LogInv(c, s)
    ensures StoresBy(s.ids.log, ToKit) <= Announced(c, ToKit, s.clientRead)
    ensures s.clientPump.Reading? ==> StoresBy(s.ids.log, ToKit) == Announced(c, ToKit, s.clientRead)
  {
    hide Announced, StoresBy, IdAfter, KitLogOk;
    if s.clientPump.Deciding? || s.clientPump.Learned? {
      LastAnnounced(c, ToKit, s.clientRead, s.clientPump.frame);
    }
  }

  /**
   The stores are an interleaving of what Kit's frames and the browser's frames
   announce, each in order and complete but for the frame in hand; the two ids
   are the last ones stored.
   */
  lemma IdsAreLastAnnounced(c: Codec, s: State)
    requires Reachable(c, s)
    ensures s.ids.kitPeerID == IdAfter(s.ids.log, KitId) && s.ids.browserPeerID == IdAfter(s.ids.log, BrowserId)
    ensures IdAfter([], KitId) == 1 && IdAfter([], BrowserId) == 0
    ensures StoresBy(s.ids.log, ToClient) <= Announced(c, ToClient, s.kitRead)
    ensures StoresBy(s.ids.log, ToKit) <= Announced(c, ToKit, s.clientRead)
    ensures s.kitPump.Reading? ==> StoresBy(s.ids.log, ToClient) == Announced(c, ToClient, s.kitRead)
    ensures s.clientPump.Reading? ==> StoresBy(s.ids.log, ToKit) == Announced(c, ToKit, s.clientRead)
  {
    var events :| s == Run(c, INITIAL, events);
    LogInvAlways(c, events);
    assert IdAfter([], KitId) == 1 && IdAfter([], BrowserId) == 0;
    hide *;
    KitStoresUpToLast(c, s);
    ClientStoresUpToLast(c, s);
  }

  lemma {:induction false} StoresAreInLog(log: seq<IdStore>, reader: Side, store: IdStore)
    requires store in StoresBy(log, reader)
    ensures store in log
  {
    var init := log[..|log| - 1];
    if store in StoresBy(init, reader) {
      StoresAreInLog(init, reader, store);
    }
  }

  lemma {:induction false} FrameIsAnnounced(c: Codec, reader: Side, frames: seq<Frame>, n: nat, store: IdStore)
    requires n < |frames| && store in StoresOf(c, reader, frames[n])
    ensures store in Announced(c, reader, frames)
  {
    hide StoresOf;
    if n < |frames| - 1 {
      FrameIsAnnounced(c, reader, frames[..|frames| - 1], n, store);
    }
  }

  /** The n-th frame is not the one in the pump's hands. */
  predicate Handled(frames: seq<Frame>, pump: Pump, n: nat) {
    n < |frames| && (pump.Deciding? || pump.Learned? ==> n < |frames| - 1)
  }

  lemma KitStoreMade(c: Codec, s: State, n: nat, store: IdStore)
    requires LogInv(c, s) && Handled(s.kitRead, s.kitPump, n) && store in StoresOf(c, ToClient, s.kitRead[n])
    ensures store in s.ids.log
  {
    hide StoresOf, StoresBy, Announced, IdAfter, ClientLogOk;
    if s.kitPump.Deciding? {
      FrameIsAnnounced(c, ToClient, s.kitRead[..|s.kitRead| - 1], n, store);
    } else {
      FrameIsAnnounced(c, ToClient, s.kitRead, n, store);
    }
    StoresAreInLog(s.ids.log, ToClient, store);
  }

  lemma ClientStoreMade(c: Codec, s: State, n: nat, store: IdStore)
    requires LogInv(c, s) && Handled(s.clientRead, s.clientPump, n) && store in StoresOf(c, ToKit, s.clientRead[n])
    ensures store in s.ids.log
  {
    hide StoresOf, StoresBy, Announced, IdAfter, KitLogOk;
    if s.clientPump.Deciding? || s.clientPump.Learned? {
      FrameIsAnnounced(c, ToKit, s.clientRead[..|s.clientRead| - 1], n, store);
    } else {
      FrameIsAnnounced(c, ToKit, s.clientRead, n, store);
    }
    StoresAreInLog(s.ids.log, ToKit, store);
  }

  /** Every frame of Kit that announces an id, and every signal, has its store once the hook is through with it. */
  lemma KitAnnouncementsAreStored(c: Codec, s: State, n: nat)
    requires Reachable(c, s) && Handled(s.kitRead, s.kitPump, n)
    ensures match c.kit(s.kitRead[n].data)
            case KitInfo(id) => IdStore(ToClient, KitId, id) in s.ids.log
            case BrowserInfo(id) => IdStore(ToClient, BrowserId, id) in s.ids.log
            case Signal(from, _, _, _) => IdStore(ToClient, KitId, from) in s.ids.log
            case _ => true
  {
    var events :| s == Run(c, INITIAL, events);
    LogInvAlways(c, events);
    hide Run, LogInv;
    var stores := StoresOf(c, ToClient, s.kitRead[n]);
    if stores != [] {
      KitStoreMade(c, s, n, stores[0]);
    }
  }

  /** So has every signal of the browser, for itself and for the Kit it addresses. */
  lemma ClientAnnouncementsAreStored(c: Codec, s: State, n: nat)
    requires Reachable(c, s) && Handled(s.clientRead, s.clientPump, n)
    ensures match c.client(s.clientRead[n].data)
            case Signal(from, to, _, _) =>
              IdStore(ToKit, BrowserId, from) in s.ids.log && (to.Some? ==> IdStore(ToKit, KitId, to.value) in s.ids.log)
            case _ => true
  {
    var events :| s == Run(c, INITIAL, events);
    LogInvAlways(c, events);
    hide Run, LogInv;
    var stores := StoresOf(c, ToKit, s.clientRead[n]);
    if stores != [] {
      ClientStoreMade(c, s, n, stores[0]);
    }
    if |stores| == 2 {
      ClientStoreMade(c, s, n, stores[1]);
    }
  }

  lemma {:induction false} StoreIsSigned(log: seq<IdStore>, i: nat)
    requires i < |log|
    ensures log[i] in StoresBy(log, log[i].reader)
  {
    if i < |log| - 1 {
      StoreIsSigned(log[..|log| - 1], i);
    }
  }

  lemma {:induction false} AnnouncedByFrame(c: Codec, reader: Side, frames: seq<Frame>, store: IdStore) returns (n: nat)
    requires store in Announced(c, reader, frames)
    ensures n < |frames| && store in StoresOf(c, reader, frames[n])
  {
    var init := frames[..|frames| - 1];
    hide StoresOf;
    if store in Announced(c, reader, init) {
      n := AnnouncedByFrame(c, reader, init, store);
    } else {
      n := |frames| - 1;
    }
  }

  /** This frame, from this pump, names this id as the browser's. */
  predicate NamesBrowser(c: Codec, reader: Side, f: Frame, id: int) {
    if reader == ToClient then c.kit(f.data) == BrowserInfo(id)
    else c.client(f.data).Signal? && c.client(f.data).from == id
  }

  lemma ElementOfPrefix(a: seq<IdStore>, b: seq<IdStore>, x: IdStore)
    requires a <= b && x in a
    ensures x in b
  {
  }

  lemma StoreNames(c: Codec, reader: Side, f: Frame, store: IdStore)
    requires store in StoresOf(c, reader, f) && store.register == BrowserId
    ensures NamesBrowser(c, reader, f, store.value)
  {
  }

  /**
   The browser's id is only ever stored for a peer_info of Kit about the browser,
   or for a signal that came from the browser: what Kit says of itself never is.
   */
  lemma BrowserIDComesFrom(c: Codec, s: State, i: nat) returns (n: nat)
    requires Reachable(c, s) && i < |s.ids.log| && s.ids.log[i].register == BrowserId
    ensures var store, frames := s.ids.log[i], if s.ids.log[i].reader == ToClient then s.kitRead else s.clientRead;
            n < |frames| && NamesBrowser(c, store.reader, frames[n], store.value)
  {
    var store := s.ids.log[i];
    var frames := if store.reader == ToClient then s.kitRead else s.clientRead;
    IdsAreLastAnnounced(c, s);
    hide *;
    StoreIsSigned(s.ids.log, i);
    ElementOfPrefix(StoresBy(s.ids.log, store.reader), Announced(c, store.reader, frames), store);
    n := AnnouncedByFrame(c, store.reader, frames, store);
    StoreNames(c, store.reader, frames[n], store);
  }

  // ------------------------------------------------------------------ addressing

  predicate FromOk(t: Task, log: seq<IdStore>) {
    t.fromAt <= |log| && t.from == IdAfter(log[..t.fromAt], BrowserId)
  }

  predicate ToOk(t: Task, log: seq<IdStore>) {
    t.fromAt <= t.toAt <= |log| && t.to == IdAfter(log[..t.toAt], KitId)
  }

  predicate LoadsOk(t: Task, log: seq<IdStore>) {
    && (t.stage.LoadTo? || t.stage.SendKit? ==> FromOk(t, log))
    && (t.stage.SendKit? ==> ToOk(t, log))
  }

  predicate AddressedOk(s: State, k: nat)
    requires k < |s.writes|
  {
    var w := s.writes[k];
    w.side == ToKit && w.origin.Built? ==>
      && w.origin.task < |s.tasks|
      && !s.tasks[w.origin.task].stage.PrepareKit? && !s.tasks[w.origin.task].stage.LoadFrom?
      && !s.tasks[w.origin.task].stage.LoadTo? && !s.tasks[w.origin.task].stage.SendKit?
      && FromOk(s.tasks[w.origin.task], s.ids.log) && ToOk(s.tasks[w.origin.task], s.ids.log)
  }

  predicate AddressInv(s: State) {
    && RegistersOk(s.ids)
    && (forall i :: 0 <= i < |s.tasks| ==> LoadsOk(s.tasks[i], s.ids.log))
    && (forall k :: 0 <= k < |s.writes| ==> AddressedOk(s, k))
  }

  lemma LoadsStay(t: Task, log: seq<IdStore>, more: seq<IdStore>)
    requires log <= more
    ensures FromOk(t, log) ==> FromOk(t, more)
    ensures ToOk(t, log) ==> ToOk(t, more)
  {
    if t.fromAt <= |log| {
      assert more[..t.fromAt] == log[..t.fromAt];
    }
    if t.toAt <= |log| {
      assert more[..t.toAt] == log[..t.toAt];
    }
  }

  lemma AddressesStay(s: State, after: State)
    requires AddressInv(s) && RegistersOk(after.ids)
    requires s.ids.log <= after.ids.log && s.writes <= after.writes && s.tasks <= after.tasks
    requires forall i :: |s.tasks| <= i < |after.tasks| ==> LoadsOk(after.tasks[i], after.ids.log)
    requires forall k :: |s.writes| <= k < |after.writes| ==> !after.writes[k].origin.Built?
    ensures AddressInv(after)
  {
    forall i | 0 <= i < |s.tasks|
      ensures LoadsOk(after.tasks[i], after.ids.log)
    {
      assert LoadsOk(s.tasks[i], s.ids.log);
      LoadsStay(s.tasks[i], s.ids.log, after.ids.log);
    }
    forall k | 0 <= k < |s.writes|
      ensures AddressedOk(after, k)
    {
      assert AddressedOk(s, k) && after.writes[k] == s.writes[k];
      if s.writes[k].side == ToKit && s.writes[k].origin.Built? {
        LoadsStay(s.tasks[s.writes[k].origin.task], s.ids.log, after.ids.log);
      }
    }
  }

  lemma LoadsAfterMove(s: State, i: nat, ok: bool, sdp: string)
    requires AddressInv(s) && i < |s.tasks|
    ensures LoadsOk(TaskMove(s.ids, s.life, s.tasks[i], ok, sdp), s.ids.log)
  {
    assert LoadsOk(s.tasks[i], s.ids.log);
    assert s.ids.log[..|s.ids.log|] == s.ids.log;
  }

  /** Where a goroutine that has written to Kit goes on, its addresses stay. */
  lemma AddressesKept(ids: Ids, life: Life, t: Task, ok: bool, sdp: string)
    requires !t.stage.PrepareKit? && !t.stage.LoadFrom? && !t.stage.LoadTo?
    ensures var after := TaskMove(ids, life, t, ok, sdp);
            && after.from == t.from && after.to == t.to && after.fromAt == t.fromAt && after.toAt == t.toAt
            && !after.stage.PrepareKit? && !after.stage.LoadFrom? && !after.stage.LoadTo? && !after.stage.SendKit?
  {
  }

  lemma AddressesAfterTask(c: Codec, s: State, i: nat, ok: bool, sdp: string)
    requires AddressInv(s) && i < |s.tasks|
    ensures AddressInv(StepTask(c, s, i, ok, sdp))
  {
    var after := StepTask(c, s, i, ok, sdp);
    TasksAreApart(c, s, i, ok, sdp);
    LoadsAfterMove(s, i, ok, sdp);
    assert LoadsOk(s.tasks[i], s.ids.log);
    if !s.tasks[i].stage.PrepareKit? && !s.tasks[i].stage.LoadFrom? && !s.tasks[i].stage.LoadTo? {
      AddressesKept(s.ids, s.life, s.tasks[i], ok, sdp);
    }
    forall k | 0 <= k < |after.writes|
      ensures AddressedOk(after, k)
    {
      if k < |s.writes| {
        assert AddressedOk(s, k) && after.writes[k] == s.writes[k];
      }
    }
  }

  lemma AddressesAfterKit(c: Codec, s: State, ok: bool, frame: Frame)
    requires AddressInv(s) && RegistersOk(StepKit(c, s, ok, frame).ids)
    ensures AddressInv(StepKit(c, s, ok, frame))
  {
    AddressesStay(s, StepKit(c, s, ok, frame));
  }

  lemma AddressesAfterClient(c: Codec, s: State, ok: bool, frame: Frame)
    requires AddressInv(s) && RegistersOk(StepClient(c, s, ok, frame).ids)
    ensures AddressInv(StepClient(c, s, ok, frame))
  {
    AddressesStay(s, StepClient(c, s, ok, frame));
  }

  lemma RegistersAlways(c: Codec, events: seq<Event>)
    ensures RegistersOk(Run(c, INITIAL, events).ids)
  {
    LogInvAlways(c, events);
  }

  lemma {:induction false} AddressInvAlways(c: Codec, events: seq<Event>)
    ensures AddressInv(Run(c, INITIAL, events))
  {
    hide StepKit, StepClient, StepTask, LogInv;
    if events != [] {
      var init := events[..|events| - 1];
      AddressInvAlways(c, init);
      RegistersAlways(c, events);
      var s := Run(c, INITIAL, init);
      match events[|events| - 1]
      case KitPumpRuns(ok, frame) => AddressesAfterKit(c, s, ok, frame);
      case ClientPumpRuns(ok, frame) => AddressesAfterClient(c, s, ok, frame);
      case TaskRuns(i, ok, sdp) => if i < |s.tasks| { AddressesAfterTask(c, s, i, ok, sdp); }
      case _ => AddressesStay(s, Run(c, INITIAL, events));
    }
  }

  /**
   A frame the gateway builds for Kit is addressed from the browser id in force
   at its first load to the Kit id in force at its second, possibly later, load.
   */
  lemma AddressesAreLoaded(c: Codec, s: State, k: nat)
    requires Reachable(c, s) && k < |s.writes| && s.writes[k].side == ToKit && s.writes[k].origin.Built?
    ensures s.writes[k].origin.task < |s.tasks|
    ensures var t := s.tasks[s.writes[k].origin.task];
            && t.fromAt <= t.toAt <= |s.ids.log|
            && t.from == IdAfter(s.ids.log[..t.fromAt], BrowserId) && t.to == IdAfter(s.ids.log[..t.toAt], KitId)
  {
    var events :| s == Run(c, INITIAL, events);
    AddressInvAlways(c, events);
    assert AddressedOk(s, k);
  }

  /** From the n-th store on, nobody announces another id than these. */
  predicate StableFrom(log: seq<IdStore>, n: nat, browser: int, kit: int) {
    && n <= |log| && IdAfter(log[..n], BrowserId) == browser && IdAfter(log[..n], KitId) == kit
    && forall i :: n <= i < |log| ==> log[i].value == if log[i].register == KitId then kit else browser
  }

  lemma {:induction false} StableIds(log: seq<IdStore>, n: nat, m: nat, browser: int, kit: int)
    requires StableFrom(log, n, browser, kit) && n <= m <= |log|
    ensures IdAfter(log[..m], BrowserId) == browser && IdAfter(log[..m], KitId) == kit
    decreases m
  {
    if n < m {
      StableIds(log, n, m - 1, browser, kit);
      assert log[..m][..m - 1] == log[..m - 1];
    }
  }

  /** Once both ids are known and stay the same, every frame whose addresses are read later goes from the one to the other. */
  lemma StableAddressing(c: Codec, s: State, k: nat, n: nat, browser: int, kit: int)
    requires Reachable(c, s) && k < |s.writes| && s.writes[k].side == ToKit && s.writes[k].origin.Built?
    requires s.writes[k].origin.task < |s.tasks| && n <= s.tasks[s.writes[k].origin.task].fromAt
    requires StableFrom(s.ids.log, n, browser, kit)
    ensures s.tasks[s.writes[k].origin.task].from == browser && s.tasks[s.writes[k].origin.task].to == kit
  {
    AddressesAreLoaded(c, s, k);
    var t := s.tasks[s.writes[k].origin.task];
    StableIds(s.ids.log, n, t.fromAt, browser, kit);
    StableIds(s.ids.log, n, t.toAt, browser, kit);
  }
}
