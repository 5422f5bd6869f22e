/** Teardown: each connection closed and OnClose run exactly once, and afterwards everything comes to rest. */
module TeardownProofs {
  import opened Signals
  import opened Gateway

  predicate Closing(pump: Pump) { pump.ClosingClient? || pump.ClosingKit? || pump.RunningOnClose? }

  function Count(b: bool): nat { if b then 1 else 0 }

  /** What the once's body has done when its runner is at `closer`. */
  predicate HalfClosed(life: Life, closer: Pump) {
    && life.clientClosed == !closer.ClosingClient? && life.kitClosed == closer.RunningOnClose? && !life.cancelled
    && life.clientCloses == Count(life.clientClosed) && life.kitCloses == Count(life.kitClosed) && life.onCloseRuns == 0
  }

  predicate LifeOk(life: Life, kit: Pump, client: Pump) {
    match life.once
    case Fresh =>
      && !Closing(kit) && !Closing(client) && !kit.Stopped? && !client.Stopped?
      && life == Life(Fresh, false, false, false, 0, 0, 0)
    case Running =>
      && !kit.Stopped? && !client.Stopped? && Closing(kit) != Closing(client)
      && HalfClosed(life, if Closing(kit) then kit else client)
    case Done =>
      && !Closing(kit) && !Closing(client)
      && life == Life(Done, true, true, true, 1, 1, 1)
  }

  predicate LifeInv(s: State) { LifeOk(s.life, s.kitPump, s.clientPump) }

  /** A pump touches the connections' life only on its way out. */
  lemma KitTears(c: Codec, s: State, ok: bool, frame: Frame)
    ensures var after := StepKit(c, s, ok, frame);
            && after.life == Tear(s.life, TearEffect(s.life, s.kitPump))
            && if Leaving(s.kitPump) then after.kitPump == TearMove(s.life, s.kitPump)
               else !Closing(after.kitPump) && !after.kitPump.Stopped?
  {
  }

  lemma ClientTears(c: Codec, s: State, ok: bool, frame: Frame)
    ensures var after := StepClient(c, s, ok, frame);
            && after.life == Tear(s.life, TearEffect(s.life, s.clientPump))
            && if Leaving(s.clientPump) then after.clientPump == TearMove(s.life, s.clientPump)
               else !Closing(after.clientPump) && !after.clientPump.Stopped?
  {
  }

  lemma LifeAfterKit(c: Codec, s: State, ok: bool, frame: Frame)
    requires LifeInv(s)
    ensures LifeInv(StepKit(c, s, ok, frame))
  {
    PumpsAreApart(c, s, ok, frame);
    KitTears(c, s, ok, frame);
    hide StepKit;
  }

  lemma LifeAfterClient(c: Codec, s: State, ok: bool, frame: Frame)
    requires LifeInv(s)
    ensures LifeInv(StepClient(c, s, ok, frame))
  {
    PumpsAreApart(c, s, ok, frame);
    ClientTears(c, s, ok, frame);
    hide StepClient;
  }

  lemma LifeAfterStep(c: Codec, s: State, e: Event)
    requires LifeInv(s)
    ensures LifeInv(Step(c, s, e))
  {
    match e
    case KitPumpRuns(ok, frame) => LifeAfterKit(c, s, ok, frame);
    case ClientPumpRuns(ok, frame) => LifeAfterClient(c, s, ok, frame);
    case TaskRuns(i, ok, sdp) => if i < |s.tasks| { TasksAreApart(c, s, i, ok, sdp); }
    case _ =>
  }

  lemma {:induction false} LifeInvAlways(c: Codec, events: seq<Event>)
    ensures LifeInv(Run(c, INITIAL, events))
  {
    if events != [] {
      LifeInvAlways(c, events[..|events| - 1]);
      LifeAfterStep(c, Run(c, INITIAL, events[..|events| - 1]), events[|events| - 1]);
    }
  }

  /** However the pumps meet in tearDown, nothing is closed or run twice, and a pump stops only after all of it. */
  lemma TornDownOnce(c: Codec, s: State)
    requires Reachable(c, s)
    ensures s.life.clientCloses <= 1 && s.life.kitCloses <= 1 && s.life.onCloseRuns <= 1
    ensures s.life.kitClosed ==> s.life.clientClosed
    ensures s.life.cancelled ==> s.life.clientClosed && s.life.kitClosed
    ensures s.life.clientClosed == (s.life.clientCloses == 1) && s.life.kitClosed == (s.life.kitCloses == 1)
         && s.life.cancelled == (s.life.onCloseRuns == 1)
    ensures s.kitPump.Stopped? || s.clientPump.Stopped? ==> s.life == Life(Done, true, true, true, 1, 1, 1)
  {
    var events :| s == Run(c, INITIAL, events);
    LifeInvAlways(c, events);
  }

  // ------------------------------------------------------------------ who tears down

  /** A pump that is on its way out stays so, whoever runs. */
  lemma LeavingStays(c: Codec, s: State, e: Event)
    ensures Leaving(s.kitPump) ==> Leaving(Step(c, s, e).kitPump)
    ensures Leaving(s.clientPump) ==> Leaving(Step(c, s, e).clientPump)
  {
    hide StepKit, StepClient, StepTask;
    match e
    case KitPumpRuns(ok, frame) => KitTears(c, s, ok, frame); PumpsAreApart(c, s, ok, frame);
    case ClientPumpRuns(ok, frame) => ClientTears(c, s, ok, frame); PumpsAreApart(c, s, ok, frame);
    case TaskRuns(i, ok, sdp) => if i < |s.tasks| { TasksAreApart(c, s, i, ok, sdp); }
    case _ =>
  }

  predicate SomebodyLeaves(s: State) { s.life.once != Fresh ==> Leaving(s.kitPump) || Leaving(s.clientPump) }

  lemma SomebodyLeavesStays(c: Codec, s: State, e: Event)
    requires SomebodyLeaves(s)
    ensures SomebodyLeaves(Step(c, s, e))
  {
    LeavingStays(c, s, e);
    hide StepKit, StepClient, StepTask;
    match e
    case KitPumpRuns(ok, frame) => KitTears(c, s, ok, frame);
    case ClientPumpRuns(ok, frame) => ClientTears(c, s, ok, frame);
    case TaskRuns(i, ok, sdp) => if i < |s.tasks| { TasksAreApart(c, s, i, ok, sdp); }
    case _ =>
  }

  lemma {:induction false} SomebodyLeavesAlways(c: Codec, events: seq<Event>)
    ensures SomebodyLeaves(Run(c, INITIAL, events))
  {
    if events != [] {
      var init := events[..|events| - 1];
      SomebodyLeavesAlways(c, init);
      SomebodyLeavesStays(c, Run(c, INITIAL, init), events[|events| - 1]);
    }
  }

  /** A connection is closed only by a pump that is on its way out. */
  lemma ClosedByLeaver(c: Codec, s: State)
    requires Reachable(c, s)
    ensures s.life.clientClosed || s.life.kitClosed ==> Leaving(s.kitPump) || Leaving(s.clientPump)
  {
    var events :| s == Run(c, INITIAL, events);
    LifeInvAlways(c, events);
    SomebodyLeavesAlways(c, events);
  }

  // ----------------------------------------------------------------- coming to rest

  predicate BothClosed(s: State) { s.life.clientClosed && s.life.kitClosed }

  function PumpRank(pump: Pump): nat {
    match pump
    case Deciding(_) => 9
    case Learned(_) => 8
    case Settled(_) => 7
    case Forwarding(_) => 6
    case Reading => 5
    case TearingDown => 4
    case ClosingClient => 3
    case ClosingKit => 2
    case RunningOnClose => 1
    case Stopped => 0
  }

  /** A goroutine's rank covers the one it may still start. */
  function TaskRank(stage: Stage): nat {
    match stage
    case PrepareKit => 10
    case LoadFrom => 9
    case LoadTo => 8
    case SendKit => 7
    case SpawnOffer => 6
    case Gate => 5
    case PrepareBrowser => 4
    case TakeAckid => 3
    case LoadPeer => 2
    case SendBrowser => 1
    case Finished => 0
  }

  function TasksRank(tasks: seq<Task>): nat {
    if tasks == [] then 0 else TasksRank(tasks[..|tasks| - 1]) + TaskRank(tasks[|tasks| - 1].stage)
  }

  function Measure(s: State): nat {
    20 * (PumpRank(s.kitPump) + PumpRank(s.clientPump)) + TasksRank(s.tasks)
  }

  lemma TasksRankSnoc(tasks: seq<Task>, t: Task)
    ensures TasksRank(tasks + [t]) == TasksRank(tasks) + TaskRank(t.stage)
  {
    assert (tasks + [t])[..|tasks|] == tasks;
  }

  lemma {:induction false} TasksRankUpdate(tasks: seq<Task>, i: nat, t: Task)
    requires i < |tasks|
    ensures TasksRank(tasks[i := t]) + TaskRank(tasks[i].stage) == TasksRank(tasks) + TaskRank(t.stage)
  {
    var n := |tasks| - 1;
    if i == n {
      assert tasks[i := t][..n] == tasks[..n];
    } else {
      assert tasks[i := t][..n] == tasks[..n][i := t];
      TasksRankUpdate(tasks[..n], i, t);
    }
  }

  /** A step that somebody can take: not a stopped pump, not one waiting for the once, not a finished goroutine. */
  predicate Enabled(s: State, e: Event) {
    match e
    case KitPumpRuns(_, _) => !s.kitPump.Stopped? && !(s.kitPump.TearingDown? && s.life.once == Running)
    case ClientPumpRuns(_, _) => !s.clientPump.Stopped? && !(s.clientPump.TearingDown? && s.life.once == Running)
    case TaskRuns(i, _, _) => i < |s.tasks| && !s.tasks[i].stage.Finished?
    case _ => false
  }

  lemma KitMoveRank(c: Codec, s: State, ok: bool, frame: Frame)
    requires BothClosed(s) && Enabled(s, KitPumpRuns(ok, frame))
    ensures var next := KitMove(c, s, ok, frame);
            PumpRank(next) < PumpRank(s.kitPump) && AfterRead(s.kitRead, s.kitPump, next) == s.kitRead
  {
  }

  lemma ClientMoveRank(c: Codec, s: State, ok: bool, frame: Frame)
    requires BothClosed(s) && Enabled(s, ClientPumpRuns(ok, frame))
    ensures var next := ClientMove(c, s, ok, frame);
            PumpRank(next) < PumpRank(s.clientPump) && AfterRead(s.clientRead, s.clientPump, next) == s.clientRead
  {
  }

  lemma EffectRank(s: State, effect: Effect, ok: bool)
    ensures TasksRank(Apply(s, effect, ok).tasks) <= TasksRank(s.tasks) + 10
  {
    if effect.Start? {
      TasksRankSnoc(s.tasks, NewTask(effect.job, |s.writes|));
    }
  }

  lemma KitComesToRest(c: Codec, s: State, ok: bool, frame: Frame)
    requires BothClosed(s) && Enabled(s, KitPumpRuns(ok, frame))
    ensures Measure(StepKit(c, s, ok, frame)) < Measure(s)
  {
    KitMoveRank(c, s, ok, frame);
    EffectRank(s, KitEffect(c, s), ok);
    PumpsAreApart(c, s, ok, frame);
  }

  lemma ClientComesToRest(c: Codec, s: State, ok: bool, frame: Frame)
    requires BothClosed(s) && Enabled(s, ClientPumpRuns(ok, frame))
    ensures Measure(StepClient(c, s, ok, frame)) < Measure(s)
  {
    ClientMoveRank(c, s, ok, frame);
    EffectRank(s, ClientEffect(c, s, ok), ok);
    PumpsAreApart(c, s, ok, frame);
  }

  lemma TaskMoveRank(ids: Ids, life: Life, t: Task, ok: bool, sdp: string)
    requires !t.stage.Finished?
    ensures TaskRank(TaskMove(ids, life, t, ok, sdp).stage) + (if t.stage.SpawnOffer? then 5 else 0) < TaskRank(t.stage)
  {
  }

  lemma TaskComesToRest(c: Codec, s: State, i: nat, ok: bool, sdp: string)
    requires Enabled(s, TaskRuns(i, ok, sdp))
    ensures Measure(StepTask(c, s, i, ok, sdp)) < Measure(s)
  {
    TasksAreApart(c, s, i, ok, sdp);
    TaskMoveRank(s.ids, s.life, s.tasks[i], ok, sdp);
    var moved := TaskMove(s.ids, s.life, s.tasks[i], ok, sdp);
    var after := StepTask(c, s, i, ok, sdp);
    if s.tasks[i].stage.SpawnOffer? {
      var child := NewTask(OfferBrowser(i), |s.writes|);
      assert after.tasks == (s.tasks + [child])[i := moved];
      TasksRankSnoc(s.tasks, child);
      TasksRankUpdate(s.tasks + [child], i, moved);
    } else {
      assert after.tasks == s.tasks[i := moved];
      TasksRankUpdate(s.tasks, i, moved);
    }
  }

  lemma KitReadsNothing(c: Codec, s: State, ok: bool, frame: Frame)
    requires BothClosed(s)
    ensures StepKit(c, s, ok, frame).kitRead == s.kitRead && BothClosed(StepKit(c, s, ok, frame))
  {
    assert StepKit(c, s, ok, frame).life == Tear(s.life, TearEffect(s.life, s.kitPump));
  }

  lemma ClientReadsNothing(c: Codec, s: State, ok: bool, frame: Frame)
    requires BothClosed(s)
    ensures StepClient(c, s, ok, frame).clientRead == s.clientRead && BothClosed(StepClient(c, s, ok, frame))
  {
    assert StepClient(c, s, ok, frame).life == Tear(s.life, TearEffect(s.life, s.clientPump));
  }

  lemma NothingIsRead(c: Codec, s: State, e: Event)
    requires BothClosed(s)
    ensures Step(c, s, e).kitRead == s.kitRead && Step(c, s, e).clientRead == s.clientRead && BothClosed(Step(c, s, e))
  {
    hide StepKit, StepClient, StepTask;
    match e
    case KitPumpRuns(ok, frame) =>
      PumpsAreApart(c, s, ok, frame);
      KitReadsNothing(c, s, ok, frame);
    case ClientPumpRuns(ok, frame) =>
      PumpsAreApart(c, s, ok, frame);
      ClientReadsNothing(c, s, ok, frame);
    case TaskRuns(i, ok, sdp) => if i < |s.tasks| { TasksAreApart(c, s, i, ok, sdp); }
    case _ =>
  }

  /** With both connections closed, every step but a new ICE candidate brings the whole system closer to rest. */
  lemma StepsComeToRest(c: Codec, s: State, e: Event)
    requires BothClosed(s) && Enabled(s, e)
    ensures Measure(Step(c, s, e)) < Measure(s) && BothClosed(Step(c, s, e))
  {
    NothingIsRead(c, s, e);
    match e
    case KitPumpRuns(ok, frame) => KitComesToRest(c, s, ok, frame);
    case ClientPumpRuns(ok, frame) => ClientComesToRest(c, s, ok, frame);
    case TaskRuns(i, ok, sdp) => TaskComesToRest(c, s, i, ok, sdp);
  }

  predicate IsCandidate(e: Event) { e.UpstreamCandidate? || e.DownstreamCandidate? }

  function Candidates(events: seq<Event>): nat {
    if events == [] then 0 else Candidates(events[..|events| - 1]) + Count(IsCandidate(events[|events| - 1]))
  }

  /** How many slots of a schedule somebody could use. */
  ghost function EnabledSteps(c: Codec, s: State, events: seq<Event>): nat {
    if events == [] then 0
    else
      var init := events[..|events| - 1];
      EnabledSteps(c, s, init) + Count(Enabled(Run(c, s, init), events[|events| - 1]))
  }

  /** A slot of a pump that has stopped or waits for the once, or of a finished goroutine, changes nothing that counts. */
  lemma IdleSlot(c: Codec, s: State, e: Event)
    requires !Enabled(s, e) && !IsCandidate(e)
    ensures Measure(Step(c, s, e)) == Measure(s)
  {
    match e
    case KitPumpRuns(ok, frame) => KitIsIdle(c, s, ok, frame);
    case ClientPumpRuns(ok, frame) => ClientIsIdle(c, s, ok, frame);
    case TaskRuns(i, ok, sdp) =>
      if i < |s.tasks| {
        assert StepTask(c, s, i, ok, sdp).tasks == s.tasks[i := s.tasks[i]] == s.tasks;
      }
  }

  lemma KitIsIdle(c: Codec, s: State, ok: bool, frame: Frame)
    requires !Enabled(s, KitPumpRuns(ok, frame))
    ensures StepKit(c, s, ok, frame).tasks == s.tasks && StepKit(c, s, ok, frame).kitPump == s.kitPump
    ensures StepKit(c, s, ok, frame).clientPump == s.clientPump
  {
  }

  lemma ClientIsIdle(c: Codec, s: State, ok: bool, frame: Frame)
    requires !Enabled(s, ClientPumpRuns(ok, frame))
    ensures StepClient(c, s, ok, frame).tasks == s.tasks && StepClient(c, s, ok, frame).clientPump == s.clientPump
    ensures StepClient(c, s, ok, frame).kitPump == s.kitPump
  {
  }

  lemma NewCandidate(c: Codec, s: State, e: Event)
    requires IsCandidate(e)
    ensures Measure(Step(c, s, e)) <= Measure(s) + 10
  {
    match e
    case UpstreamCandidate(text, mid, index) =>
      EffectRank(s, Start(CandidateToKit(Inner("candidate", "", text, mid, index))), true);
    case DownstreamCandidate(text, mid, index) =>
      EffectRank(s, Start(CandidateToBrowser(Inner("candidate", "", text, mid, index))), true);
  }

  lemma SlotCost(c: Codec, s: State, e: Event)
    requires BothClosed(s)
    ensures Measure(Step(c, s, e)) + Count(Enabled(s, e)) <= Measure(s) + 10 * Count(IsCandidate(e))
    ensures BothClosed(Step(c, s, e))
  {
    NothingIsRead(c, s, e);
    if Enabled(s, e) {
      StepsComeToRest(c, s, e);
    } else if IsCandidate(e) {
      NewCandidate(c, s, e);
    } else {
      IdleSlot(c, s, e);
    }
  }

  /**
   Once the connections are closed, whatever the scheduler and the ICE callbacks
   do: the steps anybody can still take number at most the measure, and ten more
   for each new candidate.
   */
  lemma {:induction false} RunsEnd(c: Codec, s: State, events: seq<Event>)
    requires BothClosed(s)
    ensures EnabledSteps(c, s, events) + Measure(Run(c, s, events)) <= Measure(s) + 10 * Candidates(events)
    ensures BothClosed(Run(c, s, events))
  {
    hide Measure, Step;
    if events != [] {
      var init := events[..|events| - 1];
      RunsEnd(c, s, init);
      SlotCost(c, Run(c, s, init), events[|events| - 1]);
    }
  }

  lemma {:induction false} RankedTask(tasks: seq<Task>)
    requires TasksRank(tasks) > 0
    ensures exists i :: 0 <= i < |tasks| && !tasks[i].stage.Finished?
  {
    var n := |tasks| - 1;
    if tasks[n].stage.Finished? {
      RankedTask(tasks[..n]);
      var i :| 0 <= i < n && !tasks[..n][i].stage.Finished?;
      assert !tasks[i].stage.Finished?;
    }
  }

  /** And a schedule can always go on until both pumps have stopped and every goroutine is finished. */
  lemma NobodyGetsStuck(c: Codec, s: State, frame: Frame)
    requires Reachable(c, s)
    requires !s.kitPump.Stopped? || !s.clientPump.Stopped? || TasksRank(s.tasks) > 0
    ensures exists e :: Enabled(s, e)
  {
    var events :| s == Run(c, INITIAL, events);
    LifeInvAlways(c, events);
    if TasksRank(s.tasks) > 0 {
      RankedTask(s.tasks);
      var i :| 0 <= i < |s.tasks| && !s.tasks[i].stage.Finished?;
      assert Enabled(s, TaskRuns(i, true, ""));
    } else if Enabled(s, KitPumpRuns(true, frame)) {
    } else {
      assert Enabled(s, ClientPumpRuns(true, frame));
    }
  }

  predicate AtRest(s: State) {
    s.kitPump.Stopped? && s.clientPump.Stopped? && forall i :: 0 <= i < |s.tasks| ==> s.tasks[i].stage.Finished?
  }

  /** Nobody can take a step exactly when both pumps have stopped and every goroutine is finished; then all is closed, once. */
  lemma RestIsTheEnd(c: Codec, s: State, frame: Frame)
    requires Reachable(c, s)
    ensures AtRest(s) <==> forall e :: !Enabled(s, e)
    ensures AtRest(s) ==> s.life == Life(Done, true, true, true, 1, 1, 1)
  {
    if !AtRest(s) {
      if s.kitPump.Stopped? && s.clientPump.Stopped? {
        var i :| 0 <= i < |s.tasks| && !s.tasks[i].stage.Finished?;
        assert Enabled(s, TaskRuns(i, true, ""));
      } else {
        NobodyGetsStuck(c, s, frame);
      }
    } else {
      TornDownOnce(c, s);
    }
  }

  /** The hook calls a pump has begun: one per frame read, but for a frame still waiting for its call. */
  function HookCalls(frames: seq<Frame>, pump: Pump): int { |frames| - Count(pump.Deciding?) }

  lemma {:induction false} NothingMoreIsRead(c: Codec, s: State, events: seq<Event>)
    requires BothClosed(s)
    ensures Run(c, s, events).kitRead == s.kitRead && Run(c, s, events).clientRead == s.clientRead
    ensures BothClosed(Run(c, s, events))
  {
    if events != [] {
      var init := events[..|events| - 1];
      NothingMoreIsRead(c, s, init);
      NothingIsRead(c, Run(c, s, init), events[|events| - 1]);
    }
  }

  /** After the connections are closed each pump begins at most one more hook call, for a frame it already held. */
  lemma AtMostOneMoreHookCall(c: Codec, s: State, events: seq<Event>)
    requires BothClosed(s)
    ensures var t := Run(c, s, events);
            && HookCalls(t.kitRead, t.kitPump) <= HookCalls(s.kitRead, s.kitPump) + 1
            && HookCalls(t.clientRead, t.clientPump) <= HookCalls(s.clientRead, s.clientPump) + 1
  {
    NothingMoreIsRead(c, s, events);
  }
}
