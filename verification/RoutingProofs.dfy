/** Which goroutines write to which side, and where the content of what they write comes from. */
module RoutingProofs {
  import opened Signals
  import opened Gateway
  import opened PeerIdProofs

  predicate IsCandidate(job: Job) { job.CandidateToKit? || job.CandidateToBrowser? }

  /** The stages a goroutine of this job goes through. */
  predicate Fits(job: Job, stage: Stage) {
    match stage
    case PrepareKit => job.AnswerKit? || job.BridgeOffer?
    case SpawnOffer => job.AnswerKit?
    case Gate => job.OfferBrowser? || job.BridgeOffer?
    case PrepareBrowser => job.OfferBrowser? || job.BridgeOffer?
    case Finished => true
    case _ => if PreparedForKit(stage) then WritesToKit(job) else WritesToBrowser(job)
  }

  predicate WritesToKit(job: Job) { job.AnswerKit? || job.BridgeOffer? || job.CandidateToKit? }

  predicate WritesToBrowser(job: Job) { job.OfferBrowser? || job.BridgeOffer? || job.CandidateToBrowser? }

  predicate PreparedForKit(stage: Stage) { stage.LoadFrom? || stage.LoadTo? || stage.SendKit? }

  predicate PreparedForBrowser(stage: Stage) { stage.TakeAckid? || stage.LoadPeer? || stage.SendBrowser? }

  /** A candidate goroutine was started by a candidate of its own peer, and carries that candidate. */
  predicate Caused(events: seq<Event>, job: Job) {
    match job
    case CandidateToKit(inner) =>
      && inner.kind == "candidate" && inner.sdp == ""
      && UpstreamCandidate(inner.candidate, inner.sdpMid, inner.sdpMLineIndex) in events
    case CandidateToBrowser(inner) =>
      && inner.kind == "candidate" && inner.sdp == ""
      && DownstreamCandidate(inner.candidate, inner.sdpMid, inner.sdpMLineIndex) in events
    case _ => true
  }

  /** The media stack gave this description to the i-th goroutine; a candidate carries none. */
  predicate Given(events: seq<Event>, i: nat, job: Job, sdp: string) {
    IsCandidate(job) || TaskRuns(i, true, sdp) in events
  }

  /** At some moment this was Kit's id. */
  ghost predicate WasKitId(log: seq<IdStore>, id: int) { exists n: nat :: n <= |log| && IdAfter(log[..n], KitId) == id }

  ghost predicate TaskOk(events: seq<Event>, log: seq<IdStore>, i: nat, t: Task) {
    && Caused(events, t.job) && Fits(t.job, t.stage)
    && (PreparedForKit(t.stage) ==> Given(events, i, t.job, t.kitSdp))
    && (PreparedForBrowser(t.stage) ==> Given(events, i, t.job, t.browserSdp))
    && (t.stage.SendBrowser? ==> WasKitId(log, t.peer))
  }

  predicate PastKit(stage: Stage) { !stage.PrepareKit? && !PreparedForKit(stage) }

  ghost predicate WriteOk(events: seq<Event>, log: seq<IdStore>, tasks: seq<Task>, w: Write) {
    w.origin.Built? ==>
      && w.origin.task < |tasks|
      && var t := tasks[w.origin.task];
         if w.side == ToKit then WritesToKit(t.job) && PastKit(t.stage) && Given(events, w.origin.task, t.job, t.kitSdp)
         else WritesToBrowser(t.job) && t.stage.Finished? && Given(events, w.origin.task, t.job, t.browserSdp) && WasKitId(log, t.peer)
  }

  ghost predicate RouteInv(events: seq<Event>, s: State) {
    && s.ids.kitPeerID == IdAfter(s.ids.log, KitId)
    && (forall i :: 0 <= i < |s.tasks| ==> TaskOk(events, s.ids.log, i, s.tasks[i]))
    && (forall k :: 0 <= k < |s.writes| ==> WriteOk(events, s.ids.log, s.tasks, s.writes[k]))
  }

  lemma WasKitIdStays(log: seq<IdStore>, more: seq<IdStore>, id: int)
    requires log <= more
    ensures WasKitId(log, id) ==> WasKitId(more, id)
  {
    if WasKitId(log, id) {
      var n: nat :| n <= |log| && IdAfter(log[..n], KitId) == id;
      assert more[..n] == log[..n];
    }
  }

  lemma TaskStaysOk(events: seq<Event>, more: seq<Event>, log: seq<IdStore>, longer: seq<IdStore>, i: nat, t: Task)
    requires TaskOk(events, log, i, t) && events <= more && log <= longer
    ensures TaskOk(more, longer, i, t)
  {
    WasKitIdStays(log, longer, t.peer);
    hide WasKitId;
    assert forall e :: e in events ==> e in more;
  }

  lemma WriteStaysOk(events: seq<Event>, more: seq<Event>, log: seq<IdStore>, longer: seq<IdStore>, tasks: seq<Task>, after: seq<Task>, w: Write)
    requires WriteOk(events, log, tasks, w) && events <= more && log <= longer && |tasks| <= |after|
    requires w.origin.Built? ==> SameMessages(w.side, tasks[w.origin.task], after[w.origin.task])
    ensures WriteOk(more, longer, after, w)
  {
    if w.origin.Built? {
      WasKitIdStays(log, longer, tasks[w.origin.task].peer);
      hide WasKitId;
      assert forall e :: e in events ==> e in more;
    }
  }

  /** Past a write to this side, a goroutine keeps what it wrote. */
  predicate SameMessages(side: Side, t: Task, after: Task) {
    && after.job == t.job
    && if side == ToKit then PastKit(after.stage) && after.kitSdp == t.kitSdp
       else after == t
  }

  /** Every step that is not a goroutine's. */
  lemma RouteStays(events: seq<Event>, e: Event, s: State, after: State)
    requires RouteInv(events, s)
    requires s.ids.log <= after.ids.log && s.writes <= after.writes && s.tasks <= after.tasks
    requires after.ids.kitPeerID == IdAfter(after.ids.log, KitId)
    requires forall i :: |s.tasks| <= i < |after.tasks| ==> TaskOk(events + [e], after.ids.log, i, after.tasks[i])
    requires forall k :: |s.writes| <= k < |after.writes| ==> !after.writes[k].origin.Built?
    ensures RouteInv(events + [e], after)
  {
    forall i | 0 <= i < |after.tasks|
      ensures TaskOk(events + [e], after.ids.log, i, after.tasks[i])
    {
      if i < |s.tasks| {
        TaskStaysOk(events, events + [e], s.ids.log, after.ids.log, i, s.tasks[i]);
      }
    }
    forall k | 0 <= k < |after.writes|
      ensures WriteOk(events + [e], after.ids.log, after.tasks, after.writes[k])
    {
      if k < |s.writes| {
        assert WriteOk(events, s.ids.log, s.tasks, s.writes[k]);
        WriteStaysOk(events, events + [e], s.ids.log, after.ids.log, s.tasks, after.tasks, s.writes[k]);
      }
    }
  }

  lemma MovedTaskOk(events: seq<Event>, s: State, i: nat, ok: bool, sdp: string)
    requires RouteInv(events, s) && i < |s.tasks|
    ensures TaskOk(events + [TaskRuns(i, ok, sdp)], s.ids.log, i, TaskMove(s.ids, s.life, s.tasks[i], ok, sdp))
  {
    var more := events + [TaskRuns(i, ok, sdp)];
    var t := s.tasks[i];
    TaskStaysOk(events, more, s.ids.log, s.ids.log, i, t);
    assert TaskRuns(i, ok, sdp) in more;
    if t.stage.LoadPeer? {
      assert s.ids.log[..|s.ids.log|] == s.ids.log;
    }
    hide IdAfter;
  }

  /** A goroutine's step appends to the goroutines and the writes at most one each, and changes only itself. */
  lemma TaskStepShape(c: Codec, s: State, i: nat, ok: bool, sdp: string)
    requires i < |s.tasks|
    ensures var after, t := StepTask(c, s, i, ok, sdp), s.tasks[i];
            && after.ids.log == s.ids.log && after.ids.kitPeerID == s.ids.kitPeerID
            && after.tasks == s.tasks[i := TaskMove(s.ids, s.life, t, ok, sdp)]
                              + (if t.stage.SpawnOffer? then [NewTask(OfferBrowser(i), |s.writes|)] else [])
            && (if t.stage.SendKit? || t.stage.SendBrowser?
                then |after.writes| == |s.writes| + 1 && s.writes <= after.writes
                     && after.writes[|s.writes|].origin == Built(i)
                     && after.writes[|s.writes|].side == (if t.stage.SendKit? then ToKit else ToClient)
                else after.writes == s.writes)
  {
    if s.tasks[i].stage.SpawnOffer? {
      assert (s.tasks + [NewTask(OfferBrowser(i), |s.writes|)])[i := TaskMove(s.ids, s.life, s.tasks[i], ok, sdp)]
          == s.tasks[i := TaskMove(s.ids, s.life, s.tasks[i], ok, sdp)] + [NewTask(OfferBrowser(i), |s.writes|)];
    } else {
      assert forall ts: seq<Task> :: ts + [] == ts;
    }
  }

  lemma OldWriteOk(c: Codec, events: seq<Event>, s: State, i: nat, ok: bool, sdp: string, k: nat)
    requires RouteInv(events, s) && i < |s.tasks| && k < |s.writes|
    ensures WriteOk(events + [TaskRuns(i, ok, sdp)], s.ids.log, StepTask(c, s, i, ok, sdp).tasks, s.writes[k])
  {
    TaskStepShape(c, s, i, ok, sdp);
    hide StepTask, IdAfter, TaskOk;
    var w, after := s.writes[k], StepTask(c, s, i, ok, sdp).tasks;
    assert WriteOk(events, s.ids.log, s.tasks, w);
    if w.origin.Built? && w.origin.task == i {
      assert SameMessages(w.side, s.tasks[i], TaskMove(s.ids, s.life, s.tasks[i], ok, sdp));
    }
    WriteStaysOk(events, events + [TaskRuns(i, ok, sdp)], s.ids.log, s.ids.log, s.tasks, after, w);
  }

  lemma NewWriteOk(c: Codec, events: seq<Event>, s: State, i: nat, ok: bool, sdp: string)
    requires RouteInv(events, s) && i < |s.tasks|
    ensures var after := StepTask(c, s, i, ok, sdp);
            |after.writes| > |s.writes| ==> WriteOk(events + [TaskRuns(i, ok, sdp)], s.ids.log, after.tasks, after.writes[|s.writes|])
  {
    TaskStepShape(c, s, i, ok, sdp);
    hide StepTask, IdAfter, WasKitId;
    assert TaskOk(events, s.ids.log, i, s.tasks[i]);
    assert forall e :: e in events ==> e in events + [TaskRuns(i, ok, sdp)];
  }

  lemma RouteAfterTask(c: Codec, events: seq<Event>, s: State, i: nat, ok: bool, sdp: string)
    requires RouteInv(events, s) && i < |s.tasks|
    ensures RouteInv(events + [TaskRuns(i, ok, sdp)], StepTask(c, s, i, ok, sdp))
  {
    var more, after := events + [TaskRuns(i, ok, sdp)], StepTask(c, s, i, ok, sdp);
    TaskStepShape(c, s, i, ok, sdp);
    forall j | 0 <= j < |after.tasks|
      ensures TaskOk(more, after.ids.log, j, after.tasks[j])
    {
      if j == i {
        MovedTaskOk(events, s, i, ok, sdp);
      } else if j < |s.tasks| {
        TaskStaysOk(events, more, s.ids.log, s.ids.log, j, s.tasks[j]);
      }
    }
    hide StepTask, TaskOk, IdAfter;
    forall k | 0 <= k < |after.writes|
      ensures WriteOk(more, after.ids.log, after.tasks, after.writes[k])
    {
      if k < |s.writes| {
        OldWriteOk(c, events, s, i, ok, sdp, k);
      } else {
        NewWriteOk(c, events, s, i, ok, sdp);
      }
    }
  }

  lemma RouteAfterKit(c: Codec, events: seq<Event>, s: State, ok: bool, frame: Frame)
    requires RouteInv(events, s)
    ensures RouteInv(events + [KitPumpRuns(ok, frame)], StepKit(c, s, ok, frame))
  {
    var after := StepKit(c, s, ok, frame);
    assert after.ids.log != s.ids.log ==> after.ids.log[..|s.ids.log|] == s.ids.log;
    RouteStays(events, KitPumpRuns(ok, frame), s, after);
  }

  lemma RouteAfterClient(c: Codec, events: seq<Event>, s: State, ok: bool, frame: Frame)
    requires RouteInv(events, s)
    ensures RouteInv(events + [ClientPumpRuns(ok, frame)], StepClient(c, s, ok, frame))
  {
    var after := StepClient(c, s, ok, frame);
    assert after.ids.log != s.ids.log ==> after.ids.log[..|s.ids.log|] == s.ids.log;
    RouteStays(events, ClientPumpRuns(ok, frame), s, after);
  }

  lemma {:induction false} RouteInvAlways(c: Codec, events: seq<Event>)
    ensures RouteInv(events, Run(c, INITIAL, events))
  {
    if events != [] {
      var init, e := events[..|events| - 1], events[|events| - 1];
      RouteInvAlways(c, init);
      assert init + [e] == events;
      var s := Run(c, INITIAL, init);
      match e
      case KitPumpRuns(ok, frame) => RouteAfterKit(c, init, s, ok, frame);
      case ClientPumpRuns(ok, frame) => RouteAfterClient(c, init, s, ok, frame);
      case TaskRuns(i, ok, sdp) =>
        if i < |s.tasks| {
          RouteAfterTask(c, init, s, i, ok, sdp);
        } else {
          RouteStays(init, e, s, s);
        }
      case _ =>
        assert e in events;
        RouteStays(init, e, s, Step(c, s, e));
    }
  }

  /**
   What goes to Kit is an answer or an offer with the description the upstream
   peer gave that goroutine, or a candidate of the upstream peer, never one of the
   downstream peer.
   */
  lemma BuiltForKit(c: Codec, events: seq<Event>, k: nat)
    requires var s := Run(c, INITIAL, events); k < |s.writes| && s.writes[k].side == ToKit && s.writes[k].origin.Built?
    ensures var s := Run(c, INITIAL, events);
            && s.writes[k].origin.task < |s.tasks|
            && var i, t := s.writes[k].origin.task, s.tasks[s.writes[k].origin.task];
               match t.job
               case AnswerKit(_) => PayloadToKit(t) == Inner("answer", t.kitSdp, "", "", 0) && TaskRuns(i, true, t.kitSdp) in events
               case BridgeOffer(_) => PayloadToKit(t) == Inner("offer", t.kitSdp, "", "", 0) && TaskRuns(i, true, t.kitSdp) in events
               case CandidateToKit(inner) =>
                 && PayloadToKit(t) == inner == Inner("candidate", "", inner.candidate, inner.sdpMid, inner.sdpMLineIndex)
                 && UpstreamCandidate(inner.candidate, inner.sdpMid, inner.sdpMLineIndex) in events
               case _ => false
  {
    RouteInvAlways(c, events);
    var s := Run(c, INITIAL, events);
    hide Run;
    assert WriteOk(events, s.ids.log, s.tasks, s.writes[k]);
    assert TaskOk(events, s.ids.log, s.writes[k].origin.task, s.tasks[s.writes[k].origin.task]);
  }

  /** Likewise to the browser, from an id that was Kit's at some moment. */
  lemma BuiltForBrowser(c: Codec, events: seq<Event>, k: nat)
    requires var s := Run(c, INITIAL, events); k < |s.writes| && s.writes[k].side == ToClient && s.writes[k].origin.Built?
    ensures var s := Run(c, INITIAL, events);
            && s.writes[k].origin.task < |s.tasks|
            && var i, t := s.writes[k].origin.task, s.tasks[s.writes[k].origin.task];
               && WasKitId(s.ids.log, t.peer)
               && match t.job
                  case OfferBrowser(_) => PayloadToBrowser(t) == Inner("offer", t.browserSdp, "", "", 0) && TaskRuns(i, true, t.browserSdp) in events
                  case BridgeOffer(_) => PayloadToBrowser(t) == Inner("answer", t.browserSdp, "", "", 0) && TaskRuns(i, true, t.browserSdp) in events
                  case CandidateToBrowser(inner) =>
                    && PayloadToBrowser(t) == inner == Inner("candidate", "", inner.candidate, inner.sdpMid, inner.sdpMLineIndex)
                    && DownstreamCandidate(inner.candidate, inner.sdpMid, inner.sdpMLineIndex) in events
                  case _ => false
  {
    RouteInvAlways(c, events);
    var s := Run(c, INITIAL, events);
    hide Run;
    assert WriteOk(events, s.ids.log, s.tasks, s.writes[k]);
    assert TaskOk(events, s.ids.log, s.writes[k].origin.task, s.tasks[s.writes[k].origin.task]);
  }
}
