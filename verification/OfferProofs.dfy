/** The offer pipeline: what must already be on the wires before an offer or an answer goes out. */
module OfferProofs {
  import opened Signals
  import opened Gateway
  import opened WireProofs

  /** Among the first `n` writes there is one of this side and origin. */
  ghost predicate Tried(writes: seq<Write>, n: nat, side: Side, origin: Origin) {
    exists j :: 0 <= j < n && j < |writes| && writes[j].side == side && writes[j].origin == origin
  }

  /** And it went out. */
  ghost predicate Sent(writes: seq<Write>, n: nat, side: Side, origin: Origin) {
    exists j :: 0 <= j < n && j < |writes| && writes[j].side == side && writes[j].origin == origin && writes[j].ok
  }

  predicate KitOffer(c: Codec, kitRead: seq<Frame>, n: nat) { n < |kitRead| && IsOffer(c.kit(kitRead[n].data)) }

  predicate ClientOffer(c: Codec, clientRead: seq<Frame>, n: nat) { n < |clientRead| && IsOffer(c.client(clientRead[n].data)) }

  ghost predicate AckTriedFirst(c: Codec, kitRead: seq<Frame>, writes: seq<Write>, upTo: nat, n: nat)
    requires n < |kitRead|
  {
    c.OwedAck(kitRead[n].data).Some? ==> Tried(writes, upTo, ToKit, AutoAck(n))
  }

  predicate AnswerStage(stage: Stage) { BeforeKit(stage) || stage.SpawnOffer? || stage.Finished? }

  predicate BrowserStage(stage: Stage) {
    stage.Gate? || stage.PrepareBrowser? || stage.TakeAckid? || stage.LoadPeer? || stage.SendBrowser? || stage.Finished?
  }

  /** What holds of a goroutine by its job: where it came from and what preceded it. */
  ghost predicate JobOk(c: Codec, s: State, i: nat)
    requires i < |s.tasks|
  {
    var t := s.tasks[i];
    && t.bornAt <= |s.writes|
    && match t.job
       case AnswerKit(n) =>
         && KitOffer(c, s.kitRead, n) && AckTriedFirst(c, s.kitRead, s.writes, t.bornAt, n)
         && AnswerStage(t.stage)
         && (t.stage.SpawnOffer? ==> Sent(s.writes, |s.writes|, ToKit, Built(i)))
       case OfferBrowser(p) =>
         && p < i && s.tasks[p].job.AnswerKit? && s.tasks[p].stage.Finished?
         && Sent(s.writes, t.bornAt, ToKit, Built(p))
         && BrowserStage(t.stage)
       case BridgeOffer(m) =>
         && ClientOffer(c, s.clientRead, m)
         && !t.stage.SpawnOffer?
         && (BrowserStage(t.stage) && !t.stage.Finished? ==> Sent(s.writes, |s.writes|, ToKit, Built(i)))
       case CandidateToKit(_) => BeforeKit(t.stage) || t.stage.Finished?
       case CandidateToBrowser(_) => BrowserStage(t.stage)
  }

  /** One goroutine per offer, and one browser offer per answered Kit offer. */
  predicate JobsDiffer(tasks: seq<Task>) {
    forall i, j :: 0 <= i < j < |tasks| && (tasks[i].job.AnswerKit? || tasks[i].job.OfferBrowser? || tasks[i].job.BridgeOffer?) ==>
      tasks[i].job != tasks[j].job
  }

  predicate NoJob(tasks: seq<Task>, job: Job) { forall i :: 0 <= i < |tasks| ==> tasks[i].job != job }

  /** The frame in a pump's hands has no goroutine yet, and at Settled its ack has been tried. */
  ghost predicate HandsOk(c: Codec, s: State) {
    && (Holds(s.kitPump) ==>
          && s.kitRead != [] && s.kitRead[|s.kitRead| - 1] == s.kitPump.frame
          && NoJob(s.tasks, AnswerKit(|s.kitRead| - 1))
          && (s.kitPump.Settled? ==> AckTriedFirst(c, s.kitRead, s.writes, |s.writes|, |s.kitRead| - 1)))
    && (Holds(s.clientPump) ==>
          && s.clientRead != [] && s.clientRead[|s.clientRead| - 1] == s.clientPump.frame
          && NoJob(s.tasks, BridgeOffer(|s.clientRead| - 1)))
  }

  /** What precedes a write: a goroutine writes after its start, and a bridge answers after its offer is out. */
  ghost predicate WriteAfterCause(s: State, k: nat)
    requires k < |s.writes|
  {
    var w := s.writes[k];
    w.origin.Built? ==>
      && w.origin.task < |s.tasks|
      && s.tasks[w.origin.task].bornAt <= k
      && (w.side == ToClient && s.tasks[w.origin.task].job.BridgeOffer? ==> Sent(s.writes, k, ToKit, w.origin))
  }

  ghost predicate OfferInv(c: Codec, s: State) {
    && (forall i :: 0 <= i < |s.tasks| ==> JobOk(c, s, i))
    && JobsDiffer(s.tasks)
    && HandsOk(c, s)
    && (forall k :: 0 <= k < |s.writes| ==> WriteAfterCause(s, k))
  }

  lemma TriedStays(writes: seq<Write>, more: seq<Write>, n: nat, m: nat, side: Side, origin: Origin)
    requires writes <= more && n <= m
    ensures Tried(writes, n, side, origin) ==> Tried(more, m, side, origin)
    ensures Sent(writes, n, side, origin) ==> Sent(more, m, side, origin)
  {
    if Tried(writes, n, side, origin) {
      var j :| 0 <= j < n && j < |writes| && writes[j].side == side && writes[j].origin == origin;
      assert more[j] == writes[j];
    }
    if Sent(writes, n, side, origin) {
      var j :| 0 <= j < n && j < |writes| && writes[j].side == side && writes[j].origin == origin && writes[j].ok;
      assert more[j] == writes[j];
    }
  }

  /** Facts about old goroutines and old writes survive any growth that leaves the goroutines' jobs and ends alone. */
  ghost predicate Grows(s: State, after: State) {
    && s.kitRead <= after.kitRead && s.clientRead <= after.clientRead && s.writes <= after.writes
    && |s.tasks| <= |after.tasks|
    && forall i :: 0 <= i < |s.tasks| ==>
         after.tasks[i].job == s.tasks[i].job && after.tasks[i].bornAt == s.tasks[i].bornAt
         && (s.tasks[i].stage.Finished? ==> after.tasks[i].stage.Finished?)
  }

  lemma JobStaysOk(c: Codec, s: State, after: State, i: nat)
    requires i < |s.tasks| && JobOk(c, s, i) && Grows(s, after) && after.tasks[i] == s.tasks[i]
    ensures JobOk(c, after, i)
  {
    var t := s.tasks[i];
    match t.job
    case AnswerKit(n) =>
      TriedStays(s.writes, after.writes, t.bornAt, t.bornAt, ToKit, AutoAck(n));
      TriedStays(s.writes, after.writes, |s.writes|, |after.writes|, ToKit, Built(i));
    case OfferBrowser(p) => TriedStays(s.writes, after.writes, t.bornAt, t.bornAt, ToKit, Built(p));
    case BridgeOffer(m) => TriedStays(s.writes, after.writes, |s.writes|, |after.writes|, ToKit, Built(i));
    case _ =>
  }

  lemma WriteStaysAfterCause(s: State, after: State, k: nat)
    requires k < |s.writes| && WriteAfterCause(s, k) && Grows(s, after)
    ensures WriteAfterCause(after, k)
  {
    assert after.writes[k] == s.writes[k];
    TriedStays(s.writes, after.writes, k, k, ToKit, s.writes[k].origin);
  }

  lemma OldStaysOk(c: Codec, s: State, after: State)
    requires OfferInv(c, s) && Grows(s, after)
    ensures forall i :: 0 <= i < |s.tasks| && after.tasks[i] == s.tasks[i] ==> JobOk(c, after, i)
    ensures forall k :: 0 <= k < |s.writes| ==> WriteAfterCause(after, k)
  {
    forall i | 0 <= i < |s.tasks| && after.tasks[i] == s.tasks[i]
      ensures JobOk(c, after, i)
    {
      JobStaysOk(c, s, after, i);
    }
    forall k | 0 <= k < |s.writes|
      ensures WriteAfterCause(after, k)
    {
      WriteStaysAfterCause(s, after, k);
    }
  }

  lemma KitJobsOk(c: Codec, s: State, ok: bool, frame: Frame)
    requires OfferInv(c, s)
    ensures var after := StepKit(c, s, ok, frame);
            && (forall i :: 0 <= i < |after.tasks| ==> JobOk(c, after, i))
            && (forall k :: 0 <= k < |after.writes| ==> WriteAfterCause(after, k))
  {
    var after := StepKit(c, s, ok, frame);
    assert Grows(s, after);
    OldStaysOk(c, s, after);
    if |after.tasks| > |s.tasks| {
      TriedStays(s.writes, after.writes, |s.writes|, |s.writes|, ToKit, AutoAck(|s.kitRead| - 1));
    }
  }

  /** No goroutine for a frame that has not been read, and no browser offer for an unfinished answer. */
  lemma NoFutureJobs(c: Codec, s: State)
    requires forall i :: 0 <= i < |s.tasks| ==> JobOk(c, s, i)
    ensures NoJob(s.tasks, AnswerKit(|s.kitRead|)) && NoJob(s.tasks, BridgeOffer(|s.clientRead|))
    ensures forall p :: 0 <= p < |s.tasks| && !s.tasks[p].stage.Finished? ==> NoJob(s.tasks, OfferBrowser(p))
  {
    forall i | 0 <= i < |s.tasks|
      ensures s.tasks[i].job != AnswerKit(|s.kitRead|) && s.tasks[i].job != BridgeOffer(|s.clientRead|)
      ensures s.tasks[i].job.OfferBrowser? ==>
        s.tasks[i].job.parent < |s.tasks| && s.tasks[s.tasks[i].job.parent].stage.Finished?
    {
      assert JobOk(c, s, i);
    }
  }

  lemma KitHandsOk(c: Codec, s: State, ok: bool, frame: Frame)
    requires OfferInv(c, s)
    ensures JobsDiffer(StepKit(c, s, ok, frame).tasks) && HandsOk(c, StepKit(c, s, ok, frame))
  {
    hide JobOk, WriteAfterCause;
    var after := StepKit(c, s, ok, frame);
    NoFutureJobs(c, s);
    if s.kitPump.Learned? && c.OwedAck(s.kitPump.frame.data).Some? {
      assert after.writes[|s.writes|].origin == AutoAck(|s.kitRead| - 1);
    }
  }

  lemma ClientJobsOk(c: Codec, s: State, ok: bool, frame: Frame)
    requires OfferInv(c, s)
    ensures var after := StepClient(c, s, ok, frame);
            && (forall i :: 0 <= i < |after.tasks| ==> JobOk(c, after, i))
            && (forall k :: 0 <= k < |after.writes| ==> WriteAfterCause(after, k))
  {
    var after := StepClient(c, s, ok, frame);
    assert Grows(s, after);
    OldStaysOk(c, s, after);
  }

  lemma ClientHandsOk(c: Codec, s: State, ok: bool, frame: Frame)
    requires OfferInv(c, s)
    ensures JobsDiffer(StepClient(c, s, ok, frame).tasks) && HandsOk(c, StepClient(c, s, ok, frame))
  {
    var after := StepClient(c, s, ok, frame);
    NoFutureJobs(c, s);
    hide JobOk, WriteAfterCause;
    if s.kitRead != [] {
      TriedStays(s.writes, after.writes, |s.writes|, |after.writes|, ToKit, AutoAck(|s.kitRead| - 1));
    }
  }

  lemma TaskSelfOk(c: Codec, s: State, i: nat, ok: bool, sdp: string)
    requires OfferInv(c, s) && i < |s.tasks|
    ensures JobOk(c, StepTask(c, s, i, ok, sdp), i)
  {
    hide HandsOk, JobsDiffer, WriteAfterCause;
    var after := StepTask(c, s, i, ok, sdp);
    assert JobOk(c, s, i);
    var t := s.tasks[i];
    if t.stage.SendKit? && GoesOut(s.life, ToKit, ok) {
      assert after.writes[|s.writes|] == Write(ToKit, FrameToKit(c, t), Built(i), true);
    }
    TriedStays(s.writes, after.writes, |s.writes|, |after.writes|, ToKit, Built(i));
    match t.job
    case AnswerKit(n) => TriedStays(s.writes, after.writes, t.bornAt, t.bornAt, ToKit, AutoAck(n));
    case OfferBrowser(p) => TriedStays(s.writes, after.writes, t.bornAt, t.bornAt, ToKit, Built(p));
    case _ =>
  }

  lemma TaskJobsOk(c: Codec, s: State, i: nat, ok: bool, sdp: string)
    requires OfferInv(c, s) && i < |s.tasks|
    ensures var after := StepTask(c, s, i, ok, sdp);
            && (forall j :: 0 <= j < |after.tasks| ==> JobOk(c, after, j))
            && (forall k :: 0 <= k < |after.writes| ==> WriteAfterCause(after, k))
  {
    var after := StepTask(c, s, i, ok, sdp);
    assert Grows(s, after);
    OldStaysOk(c, s, after);
    TaskSelfOk(c, s, i, ok, sdp);
    assert JobOk(c, s, i);
    if |after.writes| > |s.writes| {
      TriedStays(s.writes, after.writes, |s.writes|, |s.writes|, ToKit, Built(i));
    }
  }

  lemma TaskJobsDiffer(c: Codec, s: State, i: nat, ok: bool, sdp: string)
    requires OfferInv(c, s) && i < |s.tasks|
    ensures JobsDiffer(StepTask(c, s, i, ok, sdp).tasks)
  {
    hide JobOk, WriteAfterCause, HandsOk;
    NoFutureJobs(c, s);
  }

  lemma TaskHandsOk(c: Codec, s: State, i: nat, ok: bool, sdp: string)
    requires OfferInv(c, s) && i < |s.tasks|
    ensures HandsOk(c, StepTask(c, s, i, ok, sdp))
  {
    var after := StepTask(c, s, i, ok, sdp);
    TasksAreApart(c, s, i, ok, sdp);
    if s.kitRead != [] {
      TriedStays(s.writes, after.writes, |s.writes|, |after.writes|, ToKit, AutoAck(|s.kitRead| - 1));
    }
  }

  lemma CandidateOk(c: Codec, s: State, job: Job)
    requires OfferInv(c, s) && (job.CandidateToKit? || job.CandidateToBrowser?)
    ensures OfferInv(c, Apply(s, Start(job), true))
  {
    var after := Apply(s, Start(job), true);
    assert Grows(s, after);
    OldStaysOk(c, s, after);
    if s.kitRead != [] {
      TriedStays(s.writes, after.writes, |s.writes|, |after.writes|, ToKit, AutoAck(|s.kitRead| - 1));
    }
  }

  lemma {:induction false} OfferInvAlways(c: Codec, events: seq<Event>)
    ensures OfferInv(c, Run(c, INITIAL, events))
  {
    if events != [] {
      var init := events[..|events| - 1];
      OfferInvAlways(c, init);
      var s := Run(c, INITIAL, init);
      match events[|events| - 1]
      case KitPumpRuns(ok, frame) => KitJobsOk(c, s, ok, frame); KitHandsOk(c, s, ok, frame);
      case ClientPumpRuns(ok, frame) => ClientJobsOk(c, s, ok, frame); ClientHandsOk(c, s, ok, frame);
      case TaskRuns(i, ok, sdp) =>
        if i < |s.tasks| {
          TaskJobsOk(c, s, i, ok, sdp);
          TaskJobsDiffer(c, s, i, ok, sdp);
          TaskHandsOk(c, s, i, ok, sdp);
        }
      case UpstreamCandidate(text, mid, index) => CandidateOk(c, s, CandidateToKit(Inner("candidate", "", text, mid, index)));
      case DownstreamCandidate(text, mid, index) => CandidateOk(c, s, CandidateToBrowser(Inner("candidate", "", text, mid, index)));
    }
  }
}
