/** When the ackids the browser sees increase: taking one and writing its frame are two steps. */
module AckidOrder {
  import opened Wrappers
  import opened Signals
  import opened Gateway
  import opened AckidProofs

  /** Before the counter wraps, ackids are ordered as the adds that gave them out. */
  lemma AckidOrderIsTicketOrder(c: Codec, s: State, j: nat, k: nat)
    requires Reachable(c, s) && s.ids.issued < 0x8000_0000 - ACK_BASE
    requires j < |s.writes| && k < |s.writes| && ForBrowser(s.writes[j]) && ForBrowser(s.writes[k])
    ensures s.writes[j].origin.task < |s.tasks| && s.writes[k].origin.task < |s.tasks|
    ensures var t, u := BuilderOf(s, s.writes[j]), BuilderOf(s, s.writes[k]);
            t.ackid < u.ackid <==> t.ticket < u.ticket
  {
    var events :| s == Run(c, INITIAL, events);
    TicketInvAlways(c, events);
    hide Run, NthAckid;
    var t, u := BuilderOf(s, s.writes[j]), BuilderOf(s, s.writes[k]);
    assert TicketOk(t, s.ids.issued) && TicketOk(u, s.ids.issued);
    hide TicketInv, TicketOk, Wrap32;
    EarlyAckids(t.ticket);
    EarlyAckids(u.ticket);
  }

  lemma EarlyAckids(n: nat)
    requires n < 0x8000_0000 - ACK_BASE
    ensures NthAckid(n) == ACK_BASE + n
  {
    NthAckidIsSum(n);
  }

  // ------------------------------------------------------------ the exact condition

  /** The goroutine has its ackid and has not written yet. */
  predicate InFlight(s: State, i: nat) { i < |s.tasks| && (s.tasks[i].stage.LoadPeer? || s.tasks[i].stage.SendBrowser?) }

  /** The goroutine, started or not, has no ackid yet. */
  predicate NotTaken(s: State, i: nat) { i >= |s.tasks| || s.tasks[i].ticket == 0 }

  lemma TicketStep(c: Codec, s: State, e: Event, i: nat)
    requires TicketInv(s)
    ensures var after := Step(c, s, e);
            && |s.tasks| <= |after.tasks| && s.ids.issued <= after.ids.issued
            && (!NotTaken(s, i) ==> after.tasks[i].ticket == s.tasks[i].ticket)
            && (NotTaken(s, i) && !NotTaken(after, i) ==>
                  after.tasks[i].ticket == after.ids.issued == s.ids.issued + 1 && after.tasks[i].stage.LoadPeer?)
  {
    match e
    case KitPumpRuns(ok, frame) =>
    case ClientPumpRuns(ok, frame) =>
    case TaskRuns(j, ok, sdp) =>
      if j < |s.tasks| {
        TicketAfterMove(s, j, ok, sdp);
        assert TicketOk(s.tasks[j], s.ids.issued);
      }
    case _ =>
  }

  /** An ackid once taken stays, and one taken later is a later one. */
  lemma {:induction false} LaterTickets(c: Codec, events: seq<Event>, m: nat, i: nat)
    requires m <= |events|
    ensures var before, s := Run(c, INITIAL, events[..m]), Run(c, INITIAL, events);
            && |before.tasks| <= |s.tasks| && before.ids.issued <= s.ids.issued
            && (!NotTaken(before, i) ==> s.tasks[i].ticket == before.tasks[i].ticket)
            && (NotTaken(before, i) && !NotTaken(s, i) ==> s.tasks[i].ticket > before.ids.issued)
    decreases |events|
  {
    if m == |events| {
      assert events[..m] == events;
    } else {
      var init := events[..|events| - 1];
      LaterTickets(c, init, m, i);
      assert init[..m] == events[..m];
      TicketInvAlways(c, init);
      TicketStep(c, Run(c, INITIAL, init), events[|events| - 1], i);
      hide Step;
    }
  }

  /** There was a moment when a goroutine had just taken its ackid. */
  lemma {:induction false} TakenAt(c: Codec, events: seq<Event>, i: nat) returns (m: nat)
    requires !NotTaken(Run(c, INITIAL, events), i)
    ensures m <= |events| && i < |Run(c, INITIAL, events[..m]).tasks| && InFlight(Run(c, INITIAL, events[..m]), i)
    ensures Run(c, INITIAL, events[..m]).ids.issued == Run(c, INITIAL, events[..m]).tasks[i].ticket
                                                    == Run(c, INITIAL, events).tasks[i].ticket
  {
    hide TicketInv, StepKit, StepClient, StepTask;
    var init := events[..|events| - 1];
    var before := Run(c, INITIAL, init);
    TicketInvAlways(c, init);
    TicketStep(c, before, events[|events| - 1], i);
    hide Step;
    if NotTaken(before, i) {
      m := |events|;
      assert events[..m] == events;
    } else {
      m := TakenAt(c, init, i);
      assert init[..m] == events[..m];
    }
  }

  lemma WrittenIsTaken(c: Codec, events: seq<Event>, k: nat)
    requires var s := Run(c, INITIAL, events); k < |s.writes| && ForBrowser(s.writes[k])
    ensures !NotTaken(Run(c, INITIAL, events), Run(c, INITIAL, events).writes[k].origin.task)
  {
    TicketInvAlways(c, events);
  }

  ghost predicate Overtaken(c: Codec, events: seq<Event>, late: nat, early: nat) {
    exists m :: 0 <= m <= |events| && InFlight(Run(c, INITIAL, events[..m]), early) && NotTaken(Run(c, INITIAL, events[..m]), late)
  }

  /**
   Of two frames to the browser the one written first has the higher ackid exactly
   when, at some moment of the run, the goroutine that wrote second had its ackid in
   hand and the one that wrote first had not taken any.
   */
  lemma OutOfOrderExactly(c: Codec, events: seq<Event>, j: nat, k: nat)
    requires var s := Run(c, INITIAL, events);
             j < k < |s.writes| && ForBrowser(s.writes[j]) && ForBrowser(s.writes[k]) && s.ids.issued < 0x8000_0000 - ACK_BASE
    ensures var s := Run(c, INITIAL, events);
            && s.writes[j].origin.task < |s.tasks| && s.writes[k].origin.task < |s.tasks|
            && (BuilderOf(s, s.writes[j]).ackid > BuilderOf(s, s.writes[k]).ackid
                <==> Overtaken(c, events, s.writes[j].origin.task, s.writes[k].origin.task))
  {
    var s := Run(c, INITIAL, events);
    WrittenIsTaken(c, events, j);
    WrittenIsTaken(c, events, k);
    AckidOrderIsTicketOrder(c, s, k, j);
    var late, early := s.writes[j].origin.task, s.writes[k].origin.task;
    hide TicketInv;
    if Overtaken(c, events, late, early) {
      var m :| 0 <= m <= |events| && InFlight(Run(c, INITIAL, events[..m]), early) && NotTaken(Run(c, INITIAL, events[..m]), late);
      LaterTickets(c, events, m, late);
      LaterTickets(c, events, m, early);
      HeldTicket(c, events[..m], early);
    }
    if s.tasks[early].ticket < s.tasks[late].ticket {
      var m := TakenAt(c, events, early);
      LaterTickets(c, events, m, late);
      if !NotTaken(Run(c, INITIAL, events[..m]), late) {
        IssuedBound(c, events[..m], late);
      }
    }
  }

  lemma IssuedBound(c: Codec, events: seq<Event>, i: nat)
    requires i < |Run(c, INITIAL, events).tasks|
    ensures Run(c, INITIAL, events).tasks[i].ticket <= Run(c, INITIAL, events).ids.issued
  {
    TicketInvAlways(c, events);
    assert TicketOk(Run(c, INITIAL, events).tasks[i], Run(c, INITIAL, events).ids.issued);
  }

  lemma HeldTicket(c: Codec, events: seq<Event>, i: nat)
    requires InFlight(Run(c, INITIAL, events), i)
    ensures 0 < Run(c, INITIAL, events).tasks[i].ticket <= Run(c, INITIAL, events).ids.issued
  {
    TicketInvAlways(c, events);
    assert TicketOk(Run(c, INITIAL, events).tasks[i], Run(c, INITIAL, events).ids.issued);
  }

  // ------------------------------------------------------------------- a guard

  predicate OneInFlight(s: State) {
    forall i, j :: 0 <= i < j < |s.tasks| ==> !(InFlight(s, i) && InFlight(s, j))
  }

  predicate TicketsIncrease(s: State) {
    && SentHaveTickets(s.tasks, s.writes)
    && forall j, k :: 0 <= j < k < |s.writes| && ForBrowser(s.writes[j]) && ForBrowser(s.writes[k]) ==>
         BuilderOf(s, s.writes[j]).ticket < BuilderOf(s, s.writes[k]).ticket
  }

  predicate WrittenBelow(s: State, bound: nat) {
    && SentHaveTickets(s.tasks, s.writes)
    && forall k :: 0 <= k < |s.writes| && ForBrowser(s.writes[k]) ==> BuilderOf(s, s.writes[k]).ticket < bound
  }

  predicate OrderInv(s: State) {
    && TicketInv(s) && TicketsIncrease(s)
    && forall i :: 0 <= i < |s.tasks| && InFlight(s, i) ==> WrittenBelow(s, s.tasks[i].ticket)
  }

  /** A step that writes nothing to the browser for a goroutine keeps the order of what is written. */
  lemma OrderStays(c: Codec, s: State, e: Event)
    requires OrderInv(s) && s.writes <= Step(c, s, e).writes
    requires forall k :: |s.writes| <= k < |Step(c, s, e).writes| ==> !ForBrowser(Step(c, s, e).writes[k])
    requires TicketInv(Step(c, s, e)) && OneInFlight(Step(c, s, e))
    requires forall i: nat :: InFlight(Step(c, s, e), i) ==> InFlight(s, i) || Step(c, s, e).tasks[i].ticket == s.ids.issued + 1
    ensures OrderInv(Step(c, s, e))
  {
    var after := Step(c, s, e);
    forall k | 0 <= k < |after.writes| && ForBrowser(after.writes[k])
      ensures k < |s.writes| && after.writes[k] == s.writes[k]
      ensures BuilderOf(after, after.writes[k]).ticket == BuilderOf(s, s.writes[k]).ticket <= s.ids.issued
    {
      TicketStep(c, s, e, s.writes[k].origin.task);
      assert TicketOk(BuilderOf(s, s.writes[k]), s.ids.issued);
    }
    forall i | 0 <= i < |after.tasks| && InFlight(after, i)
      ensures WrittenBelow(after, after.tasks[i].ticket)
    {
      if InFlight(s, i) {
        assert WrittenBelow(s, s.tasks[i].ticket);
        assert TicketOk(s.tasks[i], s.ids.issued);
        TicketStep(c, s, e, i);
      }
    }
  }

  lemma OrderAfterSend(c: Codec, s: State, i: nat, ok: bool, sdp: string)
    requires OrderInv(s) && i < |s.tasks| && s.tasks[i].stage.SendBrowser? && OneInFlight(s)
    requires TicketInv(StepTask(c, s, i, ok, sdp))
    ensures OrderInv(StepTask(c, s, i, ok, sdp))
  {
    var after := StepTask(c, s, i, ok, sdp);
    var n := |s.writes|;
    assert |after.writes| == n + 1 && after.writes[..n] == s.writes && after.writes[n].origin == Built(i);
    assert |after.tasks| == |s.tasks|;
    forall j | 0 <= j < |s.tasks|
      ensures after.tasks[j].ticket == s.tasks[j].ticket && !InFlight(after, j)
    {
      assert InFlight(s, i);
      assert i < j ==> !(InFlight(s, i) && InFlight(s, j));
      assert j < i ==> !(InFlight(s, j) && InFlight(s, i));
      assert j != i ==> after.tasks[j] == s.tasks[j];
    }
    assert WrittenBelow(s, s.tasks[i].ticket);
    hide StepTask;
    forall k | 0 <= k < n
      ensures after.writes[k] == s.writes[k]
    {
      assert after.writes[..n][k] == s.writes[k];
    }
  }

  lemma OrderAfterOther(c: Codec, s: State, e: Event)
    requires OrderInv(s) && OneInFlight(Step(c, s, e)) && TicketInv(Step(c, s, e))
    requires e.TaskRuns? && e.task < |s.tasks| ==> !s.tasks[e.task].stage.SendBrowser?
    ensures OrderInv(Step(c, s, e))
  {
    forall i: nat | InFlight(Step(c, s, e), i)
      ensures InFlight(s, i) || Step(c, s, e).tasks[i].ticket == s.ids.issued + 1
    {
      FlightBegins(c, s, e, i);
    }
    NoBrowserWrite(c, s, e);
    OrderStays(c, s, e);
  }

  lemma FlightBegins(c: Codec, s: State, e: Event, i: nat)
    requires InFlight(Step(c, s, e), i)
    ensures InFlight(s, i) || Step(c, s, e).tasks[i].ticket == s.ids.issued + 1
  {
  }

  lemma NoBrowserWrite(c: Codec, s: State, e: Event)
    requires e.TaskRuns? && e.task < |s.tasks| ==> !s.tasks[e.task].stage.SendBrowser?
    ensures s.writes <= Step(c, s, e).writes
    ensures forall k :: |s.writes| <= k < |Step(c, s, e).writes| ==> !ForBrowser(Step(c, s, e).writes[k])
  {
  }

  lemma SendIsStep(c: Codec, s: State, e: Event)
    requires e.TaskRuns? && e.task < |s.tasks|
    ensures Step(c, s, e) == StepTask(c, s, e.task, e.ok, e.sdp)
  {
  }

  ghost predicate NeverTwoInFlight(c: Codec, events: seq<Event>) {
    forall m :: 0 <= m <= |events| ==> OneInFlight(Run(c, INITIAL, events[..m]))
  }

  lemma OrderAfterStep(c: Codec, s: State, e: Event)
    requires OrderInv(s) && OneInFlight(s) && OneInFlight(Step(c, s, e)) && TicketInv(Step(c, s, e))
    ensures OrderInv(Step(c, s, e))
  {
    hide TicketInv, OrderInv, Step, OneInFlight;
    if e.TaskRuns? && e.task < |s.tasks| && s.tasks[e.task].stage.SendBrowser? {
      SendIsStep(c, s, e);
      OrderAfterSend(c, s, e.task, e.ok, e.sdp);
    } else {
      OrderAfterOther(c, s, e);
    }
  }

  lemma OrderAtStart()
    ensures OrderInv(INITIAL)
  {
  }

  lemma {:induction false} OrderInvAlways(c: Codec, events: seq<Event>)
    requires NeverTwoInFlight(c, events)
    ensures OrderInv(Run(c, INITIAL, events))
  {
    hide TicketInv, OrderInv, Step, OneInFlight;
    OrderAtStart();
    if events != [] {
      var init := events[..|events| - 1];
      forall m | 0 <= m <= |init|
        ensures OneInFlight(Run(c, INITIAL, init[..m]))
      {
        assert init[..m] == events[..m];
      }
      OrderInvAlways(c, init);
      assert init[..|init|] == init && events[..|events|] == events;
      TicketInvAlways(c, events);
      OrderAfterStep(c, Run(c, INITIAL, init), events[|events| - 1]);
    }
  }

  /** While never two goroutines hold an ackid they have not written yet, ackids increase along the wire. */
  lemma InOrderWhenAlone(c: Codec, events: seq<Event>, j: nat, k: nat)
    requires NeverTwoInFlight(c, events)
    requires var s := Run(c, INITIAL, events);
             j < k < |s.writes| && ForBrowser(s.writes[j]) && ForBrowser(s.writes[k]) && s.ids.issued < 0x8000_0000 - ACK_BASE
    ensures var s := Run(c, INITIAL, events);
            && s.writes[j].origin.task < |s.tasks| && s.writes[k].origin.task < |s.tasks|
            && BuilderOf(s, s.writes[j]).ackid < BuilderOf(s, s.writes[k]).ackid
  {
    OrderInvAlways(c, events);
    AckidOrderIsTicketOrder(c, Run(c, INITIAL, events), j, k);
  }

  // ------------------------------------------------------------------ a witness

  /** The Kit pump takes an offer and starts the goroutine that answers it. */
  lemma OfferArrives(c: Codec, f: Frame) returns (s: State)
    requires IsOffer(c.kit(f.data))
    ensures Reachable(c, s) && |s.tasks| == 1 && s.tasks[0] == NewTask(AnswerKit(0), |s.writes|)
    ensures s.life == INITIAL.life && s.ids.ackCounter == ACK_BASE
  {
    hide Reachable, Run;
    var e := KitPumpRuns(true, f);
    StartIsReachable(c);
    StepIsReachable(c, INITIAL, e);
    var read := Step(c, INITIAL, e);
    assert read.kitPump == Deciding(f) && read.tasks == [] && read.life == INITIAL.life && read.kitRead == [f] && read.ids == INITIAL.ids;
    StepIsReachable(c, read, e);
    var learned := Step(c, read, e);
    assert learned.kitPump == Learned(f) && learned.tasks == [] && learned.life == INITIAL.life && learned.kitRead == [f]
        && learned.ids.ackCounter == ACK_BASE;
    StepIsReachable(c, learned, e);
    var settled := Step(c, learned, e);
    assert settled.kitPump == Settled(f) && settled.tasks == [] && settled.life == INITIAL.life && settled.kitRead == [f]
        && settled.ids.ackCounter == ACK_BASE;
    StepIsReachable(c, settled, e);
    s := Step(c, settled, e);
  }

  /** One step of a goroutine that neither takes an ackid nor starts another. */
  lemma GoOn(c: Codec, s: State, i: nat) returns (after: State)
    requires Reachable(c, s) && i < |s.tasks| && !s.tasks[i].stage.TakeAckid? && !s.tasks[i].stage.SpawnOffer?
    ensures Reachable(c, after) && after.life == s.life && after.ids == s.ids
    ensures after.tasks == s.tasks[i := TaskMove(s.ids, s.life, s.tasks[i], true, "")]
  {
    hide Reachable, Run;
    StepIsReachable(c, s, TaskRuns(i, true, ""));
    after := Step(c, s, TaskRuns(i, true, ""));
  }

  /** Kit has its answer, and the goroutine with the offer to the browser is about to take its ackid. */
  lemma OfferIsReady(c: Codec, f: Frame) returns (s: State)
    requires IsOffer(c.kit(f.data))
    ensures Reachable(c, s) && |s.tasks| == 2 && s.tasks[1].job == OfferBrowser(0) && s.tasks[1].stage.TakeAckid?
    ensures s.life == INITIAL.life && s.ids.ackCounter == ACK_BASE
  {
    hide Reachable, Run, Step;
    s := OfferArrives(c, f);
    s := GoOn(c, s, 0);
    s := GoOn(c, s, 0);
    s := GoOn(c, s, 0);
    s := GoOn(c, s, 0);
    assert s.tasks[0].stage.SpawnOffer?;
    s := SpawnsOffer(c, s);
    s := GoOn(c, s, 1);
    s := GoOn(c, s, 1);
  }

  lemma SpawnsOffer(c: Codec, s: State) returns (after: State)
    requires Reachable(c, s) && |s.tasks| == 1 && s.tasks[0].stage.SpawnOffer?
    ensures Reachable(c, after) && after.life == s.life && after.ids == s.ids
    ensures |after.tasks| == 2 && after.tasks[1] == NewTask(OfferBrowser(0), |s.writes|)
  {
    hide Reachable, Run;
    StepIsReachable(c, s, TaskRuns(0, true, ""));
    after := Step(c, s, TaskRuns(0, true, ""));
  }

  /** The downstream peer has made its offer and found its first candidate: the offer takes its ackid first and is written last. */
  lemma OutOfOrderRun(c: Codec, f: Frame) returns (s: State)
    requires IsOffer(c.kit(f.data))
    ensures Reachable(c, s) && |s.tasks| == 3 && s.tasks[1].job == OfferBrowser(0) && s.tasks[2].job.CandidateToBrowser?
    ensures s.tasks[1].ackid == ACK_BASE + 1 && s.tasks[2].ackid == ACK_BASE + 2 && |s.writes| >= 2
    ensures s.writes[|s.writes| - 2] == Write(ToClient, FrameToBrowser(c, s.tasks[2]), Built(2), true)
    ensures s.writes[|s.writes| - 1] == Write(ToClient, FrameToBrowser(c, s.tasks[1]), Built(1), true)
  {
    hide Reachable, Run, FrameToBrowser;
    s := OfferIsReady(c, f);
    s := TakeOne(c, s, 1);
    var candidate := DownstreamCandidate("candidate:1", "0", 0);
    StepIsReachable(c, s, candidate);
    s := Step(c, s, candidate);
    assert |s.tasks| == 3 && s.tasks[1].stage.LoadPeer? && s.tasks[2].stage.TakeAckid? && s.tasks[2].job.CandidateToBrowser?;
    hide Step;
    s := TakeOne(c, s, 2);
    s := FinishOne(c, s, 2);
    s := FinishOne(c, s, 1);
  }

  lemma TakeOne(c: Codec, s: State, i: nat) returns (after: State)
    requires Reachable(c, s) && i < |s.tasks| && s.tasks[i].stage.TakeAckid?
    ensures Reachable(c, after) && after == s.(ids := AddAck(s.ids), tasks := after.tasks) && |after.tasks| == |s.tasks|
    ensures after.tasks[i].stage.LoadPeer? && after.tasks[i].ackid == Next32(s.ids.ackCounter) && after.tasks[i].job == s.tasks[i].job
    ensures forall j :: 0 <= j < |s.tasks| && j != i ==> after.tasks[j] == s.tasks[j]
  {
    hide Reachable, Run;
    StepIsReachable(c, s, TaskRuns(i, true, ""));
    after := Step(c, s, TaskRuns(i, true, ""));
  }

  lemma FinishOne(c: Codec, s: State, i: nat) returns (after: State)
    requires Reachable(c, s) && i < |s.tasks| && s.tasks[i].stage.LoadPeer? && !s.life.clientClosed
    ensures Reachable(c, after) && after.life == s.life && |after.tasks| == |s.tasks|
    ensures after.tasks[i].ackid == s.tasks[i].ackid && after.tasks[i].job == s.tasks[i].job
    ensures after.writes == s.writes + [Write(ToClient, FrameToBrowser(c, after.tasks[i]), Built(i), true)]
    ensures forall j :: 0 <= j < |s.tasks| && j != i ==> after.tasks[j] == s.tasks[j]
  {
    hide Reachable, Run;
    var e := TaskRuns(i, true, "");
    StepIsReachable(c, s, e);
    var loaded := Step(c, s, e);
    StepIsReachable(c, loaded, e);
    after := Step(c, loaded, e);
  }
}
