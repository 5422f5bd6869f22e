/** Causal order and counts of the two offer/answer chains, over every schedule. */
module OfferTheorems {
  import opened Signals
  import opened Gateway
  import opened WireProofs
  import opened OfferProofs
  import opened RoutingProofs

  /** The k-th write is a message of the given kind of goroutine to the given side. */
  predicate Message(s: State, k: nat, side: Side, kind: Job -> bool) {
    && k < |s.writes| && s.writes[k].side == side
    && s.writes[k].origin.Built? && s.writes[k].origin.task < |s.tasks|
    && kind(s.tasks[s.writes[k].origin.task].job)
  }

  function JobAt(s: State, k: nat): Job
    requires k < |s.writes| && s.writes[k].origin.Built? && s.writes[k].origin.task < |s.tasks|
  {
    s.tasks[s.writes[k].origin.task].job
  }

  predicate IsAnswerKit(job: Job) { job.AnswerKit? }
  predicate IsOfferBrowser(job: Job) { job.OfferBrowser? }
  predicate IsBridge(job: Job) { job.BridgeOffer? }

  ghost predicate Invariants(c: Codec, s: State) { WireInv(c, s) && OfferInv(c, s) }

  lemma InvariantsHold(c: Codec, s: State)
    requires Reachable(c, s)
    ensures Invariants(c, s)
  {
    var events :| s == Run(c, INITIAL, events);
    WireInvAlways(c, events);
    OfferInvAlways(c, events);
  }

  /**
   An answer to Kit comes from a Kit offer that was consumed, is written after the
   ack of that offer was, and is the frame built from that goroutine's locals.
   */
  lemma AnswerFollowsAck(c: Codec, s: State, k: nat)
    requires Reachable(c, s) && Message(s, k, ToKit, IsAnswerKit)
    ensures var n := JobAt(s, k).kitIndex;
            && KitOffer(c, s.kitRead, n)
            && (c.OwedAck(s.kitRead[n].data).Some? ==> Tried(s.writes, k, ToKit, AutoAck(n)))
            && s.writes[k].frame == FrameToKit(c, s.tasks[s.writes[k].origin.task])
  {
    InvariantsHold(c, s);
    var i := s.writes[k].origin.task;
    assert JobOk(c, s, i) && WriteAfterCause(s, k);
    assert Rightful(c, s.kitRead, s.clientRead, s.tasks, s.writes[k]);
    TriedStays(s.writes, s.writes, s.tasks[i].bornAt, k, ToKit, AutoAck(s.tasks[i].job.kitIndex));
  }

  /** An offer to the browser is written only after its own answer has gone out to Kit. */
  lemma BrowserOfferFollowsAnswer(c: Codec, s: State, k: nat)
    requires Reachable(c, s) && Message(s, k, ToClient, IsOfferBrowser)
    ensures exists j :: 0 <= j < k && s.writes[j].ok && Message(s, j, ToKit, IsAnswerKit)
                        && s.writes[j].origin == Built(JobAt(s, k).parent)
  {
    InvariantsHold(c, s);
    var i := s.writes[k].origin.task;
    assert JobOk(c, s, i) && WriteAfterCause(s, k);
    var p := s.tasks[i].job.parent;
    var j :| 0 <= j < s.tasks[i].bornAt && j < |s.writes| && s.writes[j].side == ToKit
             && s.writes[j].origin == Built(p) && s.writes[j].ok;
    assert Message(s, j, ToKit, IsAnswerKit);
  }

  /** On the browser-initiated path the answer to the browser follows the same goroutine's offer to Kit. */
  lemma BridgeAnswerFollowsOffer(c: Codec, s: State, k: nat)
    requires Reachable(c, s) && Message(s, k, ToClient, IsBridge)
    ensures ClientOffer(c, s.clientRead, JobAt(s, k).clientIndex)
    ensures exists j :: 0 <= j < k && s.writes[j].ok && Message(s, j, ToKit, IsBridge)
                        && s.writes[j].origin == s.writes[k].origin
  {
    InvariantsHold(c, s);
    var i := s.writes[k].origin.task;
    assert JobOk(c, s, i) && WriteAfterCause(s, k);
    var j :| 0 <= j < k && j < |s.writes| && s.writes[j].side == ToKit
             && s.writes[j].origin == s.writes[k].origin && s.writes[j].ok;
    assert Message(s, j, ToKit, IsBridge);
  }

  // ------------------------------------------------------------------- counting

  ghost predicate Injects(a: set<nat>, b: set<nat>, f: nat -> nat) {
    && (forall x :: x in a ==> f(x) in b)
    && (forall x, y :: x in a && y in a && f(x) == f(y) ==> x == y)
  }

  lemma {:induction false} InjectionBound(a: set<nat>, b: set<nat>, f: nat -> nat)
    requires Injects(a, b, f)
    ensures |a| <= |b|
  {
    if a != {} {
      var x :| x in a;
      InjectionBound(a - {x}, b - {f(x)}, f);
    }
  }

  /** The writes of one kind that went out to one side. */
  ghost function Delivered(s: State, side: Side, kind: Job -> bool): set<nat> {
    set k: nat | k < |s.writes| && Message(s, k, side, kind) && s.writes[k].ok
  }

  /** The n-th frame read is not the one the pump still holds. */
  predicate LetGo(read: seq<Frame>, pump: Pump, n: nat) { n < |read| && (Holds(pump) ==> n < |read| - 1) }

  /** The Kit offers that the hook is through with. */
  ghost function KitOffers(c: Codec, s: State): set<nat> {
    set n: nat | n < |s.kitRead| && KitOffer(c, s.kitRead, n) && LetGo(s.kitRead, s.kitPump, n)
  }

  ghost function ClientOffers(c: Codec, s: State): set<nat> {
    set n: nat | n < |s.clientRead| && ClientOffer(c, s.clientRead, n) && LetGo(s.clientRead, s.clientPump, n)
  }

  /** A write to Kit with this origin that went out, if there is one. */
  ghost function KitWriteOf(s: State, origin: Origin): nat {
    if Sent(s.writes, |s.writes|, ToKit, origin) then
      var j :| 0 <= j < |s.writes| && s.writes[j].side == ToKit && s.writes[j].origin == origin && s.writes[j].ok;
      j
    else 0
  }

  /** Messages of two writes to one side by the same goroutine are one write, and goroutines of one job are one. */
  lemma SameCauseSameWrite(c: Codec, s: State, j: nat, k: nat, side: Side)
    requires Invariants(c, s)
    requires Message(s, j, side, _ => true) && Message(s, k, side, _ => true)
    requires JobAt(s, j) == JobAt(s, k) && (JobAt(s, j).AnswerKit? || JobAt(s, j).OfferBrowser? || JobAt(s, j).BridgeOffer?)
    ensures j == k
  {
    assert s.writes[j].origin.task == s.writes[k].origin.task;
  }

  // The functions that show the counts: a message's place is sent to the place of what caused it.

  ghost function AnswerFor(s: State): nat -> nat {
    (k: nat) => if Message(s, k, ToClient, IsOfferBrowser) then KitWriteOf(s, Built(JobAt(s, k).parent)) else 0
  }

  ghost function BridgeOfferFor(s: State): nat -> nat {
    (k: nat) => if Message(s, k, ToClient, IsBridge) then KitWriteOf(s, s.writes[k].origin) else 0
  }

  ghost function KitFrameFor(s: State): nat -> nat {
    (k: nat) => if Message(s, k, ToKit, IsAnswerKit) then JobAt(s, k).kitIndex else 0
  }

  ghost function ClientFrameFor(s: State): nat -> nat {
    (k: nat) => if Message(s, k, ToKit, IsBridge) then JobAt(s, k).clientIndex else 0
  }

  lemma AnswerForOffer(c: Codec, s: State, k: nat)
    requires Reachable(c, s) && k in Delivered(s, ToClient, IsOfferBrowser)
    ensures AnswerFor(s)(k) in Delivered(s, ToKit, IsAnswerKit)
    ensures s.writes[AnswerFor(s)(k)].origin == Built(JobAt(s, k).parent)
  {
    BrowserOfferFollowsAnswer(c, s, k);
    assert Sent(s.writes, |s.writes|, ToKit, Built(JobAt(s, k).parent));
    InvariantsHold(c, s);
    assert JobOk(c, s, s.writes[k].origin.task);
  }

  lemma OffersBoundedByAnswers(c: Codec, s: State)
    requires Reachable(c, s)
    ensures |Delivered(s, ToClient, IsOfferBrowser)| <= |Delivered(s, ToKit, IsAnswerKit)|
  {
    InvariantsHold(c, s);
    var offers := Delivered(s, ToClient, IsOfferBrowser);
    forall k | k in offers
      ensures AnswerFor(s)(k) in Delivered(s, ToKit, IsAnswerKit)
    {
      AnswerForOffer(c, s, k);
    }
    forall k, l | k in offers && l in offers && AnswerFor(s)(k) == AnswerFor(s)(l)
      ensures k == l
    {
      AnswerForOffer(c, s, k);
      AnswerForOffer(c, s, l);
      SameCauseSameWrite(c, s, k, l, ToClient);
    }
    InjectionBound(offers, Delivered(s, ToKit, IsAnswerKit), AnswerFor(s));
  }

  lemma AnswersBoundedByKitOffers(c: Codec, s: State)
    requires Reachable(c, s)
    ensures |Delivered(s, ToKit, IsAnswerKit)| <= |KitOffers(c, s)|
  {
    InvariantsHold(c, s);
    var answers := Delivered(s, ToKit, IsAnswerKit);
    forall k | k in answers
      ensures KitFrameFor(s)(k) in KitOffers(c, s)
    {
      AnswerFollowsAck(c, s, k);
    }
    forall k, l | k in answers && l in answers && KitFrameFor(s)(k) == KitFrameFor(s)(l)
      ensures k == l
    {
      SameCauseSameWrite(c, s, k, l, ToKit);
    }
    InjectionBound(answers, KitOffers(c, s), KitFrameFor(s));
  }

  /** Gateway offers to the browser <= gateway answers to Kit <= Kit offers consumed, in every state. */
  lemma KitInitiatedCounts(c: Codec, s: State)
    requires Reachable(c, s)
    ensures |Delivered(s, ToClient, IsOfferBrowser)| <= |Delivered(s, ToKit, IsAnswerKit)| <= |KitOffers(c, s)|
  {
    OffersBoundedByAnswers(c, s);
    AnswersBoundedByKitOffers(c, s);
  }

  lemma OfferForBridgeAnswer(c: Codec, s: State, k: nat)
    requires Reachable(c, s) && k in Delivered(s, ToClient, IsBridge)
    ensures BridgeOfferFor(s)(k) in Delivered(s, ToKit, IsBridge)
    ensures s.writes[BridgeOfferFor(s)(k)].origin == s.writes[k].origin
  {
    BridgeAnswerFollowsOffer(c, s, k);
    assert Sent(s.writes, |s.writes|, ToKit, s.writes[k].origin);
  }

  lemma BridgeAnswersBoundedByOffers(c: Codec, s: State)
    requires Reachable(c, s)
    ensures |Delivered(s, ToClient, IsBridge)| <= |Delivered(s, ToKit, IsBridge)|
  {
    InvariantsHold(c, s);
    var answers := Delivered(s, ToClient, IsBridge);
    forall k | k in answers
      ensures BridgeOfferFor(s)(k) in Delivered(s, ToKit, IsBridge)
    {
      OfferForBridgeAnswer(c, s, k);
    }
    forall k, l | k in answers && l in answers && BridgeOfferFor(s)(k) == BridgeOfferFor(s)(l)
      ensures k == l
    {
      OfferForBridgeAnswer(c, s, k);
      OfferForBridgeAnswer(c, s, l);
      SameCauseSameWrite(c, s, k, l, ToClient);
    }
    InjectionBound(answers, Delivered(s, ToKit, IsBridge), BridgeOfferFor(s));
  }

  lemma BridgeOffersBoundedByBrowserOffers(c: Codec, s: State)
    requires Reachable(c, s)
    ensures |Delivered(s, ToKit, IsBridge)| <= |ClientOffers(c, s)|
  {
    InvariantsHold(c, s);
    var offers := Delivered(s, ToKit, IsBridge);
    forall k | k in offers
      ensures ClientFrameFor(s)(k) in ClientOffers(c, s)
    {
      assert JobOk(c, s, s.writes[k].origin.task);
    }
    forall k, l | k in offers && l in offers && ClientFrameFor(s)(k) == ClientFrameFor(s)(l)
      ensures k == l
    {
      SameCauseSameWrite(c, s, k, l, ToKit);
    }
    InjectionBound(offers, ClientOffers(c, s), ClientFrameFor(s));
  }

  /** Gateway answers to the browser <= gateway offers to Kit <= browser offers consumed, in every state. */
  lemma BrowserInitiatedCounts(c: Codec, s: State)
    requires Reachable(c, s)
    ensures |Delivered(s, ToClient, IsBridge)| <= |Delivered(s, ToKit, IsBridge)| <= |ClientOffers(c, s)|
  {
    BridgeAnswersBoundedByOffers(c, s);
    BridgeOffersBoundedByBrowserOffers(c, s);
  }

  // ------------------------------------------------------- no offer is forgotten

  ghost predicate HasGoroutine(tasks: seq<Task>, job: Job) { exists i :: 0 <= i < |tasks| && tasks[i].job == job }

  /** Every Kit offer that the hook is through with has its goroutine. */
  ghost predicate AllStarted(c: Codec, s: State) {
    forall n :: n in KitOffers(c, s) ==> HasGoroutine(s.tasks, AnswerKit(n))
  }

  lemma GoroutinesStay(tasks: seq<Task>, after: seq<Task>, job: Job)
    requires |tasks| <= |after| && forall i :: 0 <= i < |tasks| ==> after[i].job == tasks[i].job
    ensures HasGoroutine(tasks, job) ==> HasGoroutine(after, job)
  {
    if HasGoroutine(tasks, job) {
      var i :| 0 <= i < |tasks| && tasks[i].job == job;
      assert after[i].job == job;
    }
  }

  lemma StartedStays(c: Codec, s: State, after: State)
    requires AllStarted(c, s) && after.kitRead == s.kitRead && after.kitPump == s.kitPump
    requires |s.tasks| <= |after.tasks| && forall i :: 0 <= i < |s.tasks| ==> after.tasks[i].job == s.tasks[i].job
    ensures AllStarted(c, after)
  {
    forall n | n in KitOffers(c, after)
      ensures HasGoroutine(after.tasks, AnswerKit(n))
    {
      assert n in KitOffers(c, s);
      GoroutinesStay(s.tasks, after.tasks, AnswerKit(n));
    }
  }

  /** A step of the Kit pump is through with one more offer only by starting its goroutine. */
  lemma KitLetsGo(c: Codec, s: State, ok: bool, frame: Frame, n: nat)
    requires KitHand(c, s.kitRead, s.kitPump, s.writes)
    requires n in KitOffers(c, StepKit(c, s, ok, frame)) && n !in KitOffers(c, s)
    ensures s.tasks < StepKit(c, s, ok, frame).tasks && StepKit(c, s, ok, frame).tasks[|s.tasks|].job == AnswerKit(n)
  {
  }

  lemma StartedAfterKit(c: Codec, s: State, ok: bool, frame: Frame)
    requires AllStarted(c, s) && KitHand(c, s.kitRead, s.kitPump, s.writes)
    ensures AllStarted(c, StepKit(c, s, ok, frame))
  {
    var after := StepKit(c, s, ok, frame);
    assert s.tasks <= after.tasks;
    forall n | n in KitOffers(c, after)
      ensures HasGoroutine(after.tasks, AnswerKit(n))
    {
      if n in KitOffers(c, s) {
        GoroutinesStay(s.tasks, after.tasks, AnswerKit(n));
      } else {
        KitLetsGo(c, s, ok, frame, n);
      }
    }
  }

  lemma JobsStay(c: Codec, s: State, e: Event)
    ensures |s.tasks| <= |Step(c, s, e).tasks|
    ensures forall i :: 0 <= i < |s.tasks| ==> Step(c, s, e).tasks[i].job == s.tasks[i].job
  {
  }

  lemma {:induction false} AllStartedAlways(c: Codec, events: seq<Event>)
    ensures AllStarted(c, Run(c, INITIAL, events))
  {
    if events != [] {
      var init, e := events[..|events| - 1], events[|events| - 1];
      AllStartedAlways(c, init);
      var s := Run(c, INITIAL, init);
      WireInvAlways(c, init);
      hide AllStarted, StepKit, StepClient, StepTask;
      JobsStay(c, s, e);
      match e
      case KitPumpRuns(ok, frame) => StartedAfterKit(c, s, ok, frame);
      case ClientPumpRuns(ok, frame) => PumpsAreApart(c, s, ok, frame); StartedStays(c, s, Step(c, s, e));
      case TaskRuns(i, ok, sdp) =>
        if i < |s.tasks| {
          TasksAreApart(c, s, i, ok, sdp);
          StartedStays(c, s, Step(c, s, e));
        }
      case _ => StartedStays(c, s, Step(c, s, e));
    }
  }

  /** In every state: a goroutine to answer the n-th Kit frame exists exactly when that is an offer the hook is through with, and then there is only one. */
  lemma OneGoroutinePerKitOffer(c: Codec, s: State, n: nat)
    requires Reachable(c, s)
    ensures n in KitOffers(c, s) <==> HasGoroutine(s.tasks, AnswerKit(n))
    ensures forall i, j :: 0 <= i < j < |s.tasks| ==> !(s.tasks[i].job == s.tasks[j].job == AnswerKit(n))
  {
    InvariantsHold(c, s);
    var events :| s == Run(c, INITIAL, events);
    AllStartedAlways(c, events);
    if HasGoroutine(s.tasks, AnswerKit(n)) {
      var i :| 0 <= i < |s.tasks| && s.tasks[i].job == AnswerKit(n);
      assert JobOk(c, s, i);
    }
  }

  // -------------------------------------------------------- every accepted offer is bridged

  /** The next step takes the client pump past its n-th frame, an offer, and the downstream peer accepts it. */
  predicate Accepts(c: Codec, s: State, e: Event, n: nat) {
    && e.ClientPumpRuns? && e.ok && s.clientPump.Settled? && |s.clientRead| == n + 1
    && c.client(s.clientRead[n].data).Signal? && c.client(s.clientRead[n].data).inner.kind == "offer"
  }

  ghost predicate AcceptedIn(c: Codec, events: seq<Event>, n: nat) {
    exists m :: 0 <= m < |events| && Accepts(c, Run(c, INITIAL, events[..m]), events[m], n)
  }

  lemma BridgesAfterClient(c: Codec, s: State, ok: bool, frame: Frame, n: nat)
    requires ClientHand(c, s.clientRead, s.clientPump, s.writes)
    ensures HasGoroutine(StepClient(c, s, ok, frame).tasks, BridgeOffer(n))
      <==> HasGoroutine(s.tasks, BridgeOffer(n)) || Accepts(c, s, ClientPumpRuns(ok, frame), n)
  {
    var after := StepClient(c, s, ok, frame).tasks;
    if s.clientPump.Settled? && IsOffer(c.client(s.clientPump.frame.data)) && ok {
      assert after == s.tasks + [NewTask(BridgeOffer(|s.clientRead| - 1), |s.writes|)];
      OneMoreGoroutine(s.tasks, NewTask(BridgeOffer(|s.clientRead| - 1), |s.writes|), BridgeOffer(n));
    } else {
      assert after == s.tasks;
    }
  }

  lemma OneMoreGoroutine(tasks: seq<Task>, t: Task, job: Job)
    ensures HasGoroutine(tasks + [t], job) <==> HasGoroutine(tasks, job) || t.job == job
  {
    GoroutinesStay(tasks, tasks + [t], job);
    assert (tasks + [t])[|tasks|] == t;
  }

  /** No other step starts a bridge. */
  lemma OnlyClientBridges(c: Codec, s: State, e: Event, n: nat)
    requires !e.ClientPumpRuns?
    ensures HasGoroutine(Step(c, s, e).tasks, BridgeOffer(n)) <==> HasGoroutine(s.tasks, BridgeOffer(n))
  {
    JobsStay(c, s, e);
    GoroutinesStay(s.tasks, Step(c, s, e).tasks, BridgeOffer(n));
    if HasGoroutine(Step(c, s, e).tasks, BridgeOffer(n)) {
      var i :| 0 <= i < |Step(c, s, e).tasks| && Step(c, s, e).tasks[i].job == BridgeOffer(n);
      if i < |s.tasks| {
        assert s.tasks[i].job == BridgeOffer(n);
      } else {
        NewJobs(c, s, e, i);
      }
    }
  }

  lemma NewJobs(c: Codec, s: State, e: Event, i: nat)
    requires |s.tasks| <= i < |Step(c, s, e).tasks| && !e.ClientPumpRuns?
    ensures !Step(c, s, e).tasks[i].job.BridgeOffer?
  {
  }

  /**
   A goroutine that bridges the n-th browser frame exists exactly when that is an
   offer that the downstream peer accepted; and there is only one.
   */
  lemma {:induction false} OneGoroutinePerAcceptedOffer(c: Codec, events: seq<Event>, n: nat)
    ensures HasGoroutine(Run(c, INITIAL, events).tasks, BridgeOffer(n)) <==> AcceptedIn(c, events, n)
    ensures var tasks := Run(c, INITIAL, events).tasks;
            forall i, j :: 0 <= i < j < |tasks| ==> !(tasks[i].job == tasks[j].job == BridgeOffer(n))
  {
    OfferInvAlways(c, events);
    BridgedExactly(c, events, n);
    hide HasGoroutine, AcceptedIn, Run;
  }

  lemma {:induction false} BridgedExactly(c: Codec, events: seq<Event>, n: nat)
    ensures HasGoroutine(Run(c, INITIAL, events).tasks, BridgeOffer(n)) <==> AcceptedIn(c, events, n)
  {
    if events != [] {
      hide HasGoroutine, AcceptedIn, Step, StepClient, Accepts, Run;
      var init, e := events[..|events| - 1], events[|events| - 1];
      assert events == init + [e];
      RunSnoc(c, INITIAL, init, e);
      BridgedExactly(c, init, n);
      BridgesAfter(c, init, e, n);
      AcceptedSnoc(c, init, e, n);
    }
  }

  lemma BridgesAfter(c: Codec, init: seq<Event>, e: Event, n: nat)
    ensures var s := Run(c, INITIAL, init);
            HasGoroutine(Step(c, s, e).tasks, BridgeOffer(n)) <==> HasGoroutine(s.tasks, BridgeOffer(n)) || Accepts(c, s, e, n)
  {
    hide HasGoroutine, StepClient;
    var s := Run(c, INITIAL, init);
    WireInvAlways(c, init);
    if e.ClientPumpRuns? {
      BridgesAfterClient(c, s, e.ok, e.frame, n);
    } else {
      OnlyClientBridges(c, s, e, n);
    }
  }

  lemma AcceptedSnoc(c: Codec, init: seq<Event>, e: Event, n: nat)
    ensures AcceptedIn(c, init + [e], n) <==> AcceptedIn(c, init, n) || Accepts(c, Run(c, INITIAL, init), e, n)
  {
    hide Accepts, Run;
    var events := init + [e];
    assert events[..|init|] == init && events[|init|] == e;
    if AcceptedIn(c, init, n) {
      var m :| 0 <= m < |init| && Accepts(c, Run(c, INITIAL, init[..m]), init[m], n);
      assert events[..m] == init[..m] && events[m] == init[m];
    }
    if AcceptedIn(c, events, n) {
      var m :| 0 <= m < |events| && Accepts(c, Run(c, INITIAL, events[..m]), events[m], n);
      if m < |init| {
        assert events[..m] == init[..m] && events[m] == init[m];
      }
    }
  }

  // ------------------------------------------------------------------- after cancelling

  /** The goroutine has written nothing to the browser and never will. */
  predicate WillNotOffer(s: State, i: nat) {
    && i < |s.tasks| && s.life.cancelled && s.tasks[i].job.OfferBrowser? && (s.tasks[i].stage.Gate? || s.tasks[i].stage.Finished?)
    && forall k :: 0 <= k < |s.writes| ==> s.writes[k].origin != Built(i)
  }

  lemma StillNoOffer(c: Codec, s: State, e: Event, i: nat)
    requires WillNotOffer(s, i)
    ensures WillNotOffer(Step(c, s, e), i)
  {
    hide GoesOut, TearMove;
  }

  /** A session that is cancelled makes no new offer: a goroutine still before its look at the context never writes one. */
  lemma {:induction false} CancelledMakesNoOffer(c: Codec, s: State, i: nat, more: seq<Event>)
    requires Reachable(c, s) && s.life.cancelled && i < |s.tasks| && s.tasks[i].job.OfferBrowser? && s.tasks[i].stage.Gate?
    ensures WillNotOffer(Run(c, s, more), i)
  {
    if more == [] {
      InvariantsHold(c, s);
      forall k | 0 <= k < |s.writes|
        ensures s.writes[k].origin != Built(i)
      {
        assert Rightful(c, s.kitRead, s.clientRead, s.tasks, s.writes[k]);
        if s.writes[k].origin == Built(i) && s.writes[k].side == ToKit {
          OfferWritesNothingToKit(c, s, i, k);
        }
      }
    } else {
      CancelledMakesNoOffer(c, s, i, more[..|more| - 1]);
      hide Reachable;
      StillNoOffer(c, Run(c, s, more[..|more| - 1]), more[|more| - 1], i);
    }
  }

  lemma OfferWritesNothingToKit(c: Codec, s: State, i: nat, k: nat)
    requires Reachable(c, s) && k < |s.writes| && s.writes[k].origin == Built(i) && s.writes[k].side == ToKit
    ensures i < |s.tasks| && !s.tasks[i].job.OfferBrowser?
  {
    var events :| s == Run(c, INITIAL, events);
    BuiltForKit(c, events, k);
  }
}
