/** The ackids of frames the gateway builds for the browser: unique, and above every small number Kit uses. */
module AckidProofs {
  import opened Wrappers
  import opened Signals
  import opened Gateway
  import opened WireProofs

  /** The ackid the n-th add to the counter returns. */
  function NthAckid(n: nat): int { if n == 0 then ACK_BASE else Next32(NthAckid(n - 1)) }

  predicate HasTicket(stage: Stage) { stage.LoadPeer? || stage.SendBrowser? || stage.Finished? }

  predicate TicketOk(t: Task, issued: nat) {
    && t.ticket <= issued
    && (t.stage.LoadPeer? || t.stage.SendBrowser? ==> t.ticket > 0)
    && (t.ticket > 0 ==> HasTicket(t.stage) && t.ackid == NthAckid(t.ticket))
  }

  predicate TicketsDiffer(tasks: seq<Task>) {
    forall i, j :: 0 <= i < j < |tasks| && tasks[i].ticket > 0 ==> tasks[i].ticket != tasks[j].ticket
  }

  predicate SentHaveTickets(tasks: seq<Task>, writes: seq<Write>) {
    forall k :: 0 <= k < |writes| && writes[k].side == ToClient && writes[k].origin.Built? ==>
      writes[k].origin.task < |tasks| && tasks[writes[k].origin.task].ticket > 0
  }

  predicate TicketInv(s: State) {
    && s.ids.ackCounter == NthAckid(s.ids.issued)
    && (forall i :: 0 <= i < |s.tasks| ==> TicketOk(s.tasks[i], s.ids.issued))
    && TicketsDiffer(s.tasks)
    && SentHaveTickets(s.tasks, s.writes)
  }

  /** Steps that take no ackid and write nothing of a goroutine. */
  lemma TicketsStay(s: State, after: State)
    requires TicketInv(s) && after.ids.issued == s.ids.issued && after.ids.ackCounter == s.ids.ackCounter
    requires s.tasks <= after.tasks && s.writes <= after.writes
    requires forall i :: |s.tasks| <= i < |after.tasks| ==> after.tasks[i].ticket == 0 && TicketOk(after.tasks[i], s.ids.issued)
    requires forall k :: |s.writes| <= k < |after.writes| ==> !after.writes[k].origin.Built?
    ensures TicketInv(after)
  {
    hide NthAckid;
    assert forall i :: 0 <= i < |s.tasks| ==> after.tasks[i] == s.tasks[i];
    assert forall k :: 0 <= k < |s.writes| ==> after.writes[k] == s.writes[k];
  }

  lemma TicketsAfterKit(c: Codec, s: State, ok: bool, frame: Frame)
    requires TicketInv(s)
    ensures TicketInv(StepKit(c, s, ok, frame))
  {
    hide TicketInv;
    TicketsStay(s, StepKit(c, s, ok, frame));
  }

  lemma TicketsAfterClient(c: Codec, s: State, ok: bool, frame: Frame)
    requires TicketInv(s)
    ensures TicketInv(StepClient(c, s, ok, frame))
  {
    hide TicketInv;
    TicketsStay(s, StepClient(c, s, ok, frame));
  }

  lemma TicketAfterMove(s: State, i: nat, ok: bool, sdp: string)
    requires TicketInv(s) && i < |s.tasks|
    ensures var t := TaskMove(s.ids, s.life, s.tasks[i], ok, sdp);
            var issued := if s.tasks[i].stage.TakeAckid? then s.ids.issued + 1 else s.ids.issued;
            && TicketOk(t, issued)
            && (if s.tasks[i].stage.TakeAckid? then t.ticket == issued else t.ticket == s.tasks[i].ticket)
  {
    assert TicketOk(s.tasks[i], s.ids.issued);
  }

  lemma TicketsAfterTask(c: Codec, s: State, i: nat, ok: bool, sdp: string)
    requires TicketInv(s) && i < |s.tasks|
    ensures TicketInv(StepTask(c, s, i, ok, sdp))
  {
    hide GoesOut;
    var after := StepTask(c, s, i, ok, sdp);
    TicketAfterMove(s, i, ok, sdp);
    assert after.ids.issued == if s.tasks[i].stage.TakeAckid? then s.ids.issued + 1 else s.ids.issued;
    forall j | 0 <= j < |after.tasks|
      ensures TicketOk(after.tasks[j], after.ids.issued)
    {
      if j < |s.tasks| {
        assert TicketOk(s.tasks[j], s.ids.issued);
      }
    }
    assert TicketOk(s.tasks[i], s.ids.issued);
    assert SentHaveTickets(after.tasks, after.writes);
  }

  lemma TicketsAfterCandidate(s: State, job: Job)
    requires TicketInv(s)
    ensures TicketInv(Apply(s, Start(job), true))
  {
    hide TicketInv;
    TicketsStay(s, Apply(s, Start(job), true));
  }

  lemma TicketsAtStart()
    ensures TicketInv(INITIAL)
  {
  }

  lemma {:induction false} TicketInvAlways(c: Codec, events: seq<Event>)
    ensures TicketInv(Run(c, INITIAL, events))
  {
    hide TicketInv, Apply, StepKit, StepClient, StepTask;
    if events == [] {
      TicketsAtStart();
    } else {
      var init := events[..|events| - 1];
      TicketInvAlways(c, init);
      var s := Run(c, INITIAL, init);
      match events[|events| - 1]
      case KitPumpRuns(ok, frame) => TicketsAfterKit(c, s, ok, frame);
      case ClientPumpRuns(ok, frame) => TicketsAfterClient(c, s, ok, frame);
      case TaskRuns(i, ok, sdp) => if i < |s.tasks| { TicketsAfterTask(c, s, i, ok, sdp); }
      case UpstreamCandidate(text, mid, index) =>
        TicketsAfterCandidate(s, CandidateToKit(Inner("candidate", "", text, mid, index)));
      case DownstreamCandidate(text, mid, index) =>
        TicketsAfterCandidate(s, CandidateToBrowser(Inner("candidate", "", text, mid, index)));
    }
  }

  /** AddInt32 n times is one addition modulo 2^32. */
  lemma {:induction false} NthAckidIsSum(n: nat)
    ensures NthAckid(n) == Wrap32(ACK_BASE + n)
  {
    if n > 0 {
      NthAckidIsSum(n - 1);
      var m := ACK_BASE + n - 1 + 0x8000_0000;
      assert (m + 1) % 0x1_0000_0000 == if m % 0x1_0000_0000 == 0xFFFF_FFFF then 0 else m % 0x1_0000_0000 + 1;
    }
  }

  /** Up to a full turn of the 32-bit counter, an ackid is above the base exactly while it has not wrapped. */
  lemma AboveBaseUntilWrap(n: nat)
    requires 0 < n < 0x1_0000_0000
    ensures NthAckid(n) > ACK_BASE <==> n < 0x8000_0000 - ACK_BASE
  {
    NthAckidIsSum(n);
  }

  lemma AckidsDiffer(m: nat, n: nat)
    requires 0 < m < n < 0x1_0000_0000
    ensures NthAckid(m) != NthAckid(n)
  {
    NthAckidIsSum(m);
    NthAckidIsSum(n);
  }

  predicate ForBrowser(w: Write) { w.side == ToClient && w.origin.Built? }

  function BuilderOf(s: State, w: Write): (t: Task)
    requires w.origin.Built? && w.origin.task < |s.tasks|
  {
    s.tasks[w.origin.task]
  }

  /**
   Any two frames the gateway built for the browser carry different ackids, in
   whatever order the three kinds of producers took them and wrote them.
   */
  lemma BuiltAckidsAreUnique(c: Codec, s: State, j: nat, k: nat)
    requires Reachable(c, s) && s.ids.issued < 0x1_0000_0000
    requires j < k < |s.writes| && ForBrowser(s.writes[j]) && ForBrowser(s.writes[k])
    ensures s.writes[j].origin.task < |s.tasks| && s.writes[k].origin.task < |s.tasks|
    ensures s.writes[j].frame == FrameToBrowser(c, BuilderOf(s, s.writes[j]))
    ensures s.writes[k].frame == FrameToBrowser(c, BuilderOf(s, s.writes[k]))
    ensures BuilderOf(s, s.writes[j]).ackid != BuilderOf(s, s.writes[k]).ackid
  {
    var events :| s == Run(c, INITIAL, events);
    TicketInvAlways(c, events);
    WireInvAlways(c, events);
    assert Rightful(c, s.kitRead, s.clientRead, s.tasks, s.writes[j]);
    assert Rightful(c, s.kitRead, s.clientRead, s.tasks, s.writes[k]);
    var t, u := BuilderOf(s, s.writes[j]), BuilderOf(s, s.writes[k]);
    assert TicketOk(t, s.ids.issued) && TicketOk(u, s.ids.issued);
    assert t.ticket != u.ticket;
    if t.ticket < u.ticket {
      AckidsDiffer(t.ticket, u.ticket);
    } else {
      AckidsDiffer(u.ticket, t.ticket);
    }
  }

  /** As long as the counter has not wrapped, every such ackid is above the base. */
  lemma BuiltAckidsAreHigh(c: Codec, s: State, k: nat)
    requires Reachable(c, s) && s.ids.issued < 0x8000_0000 - ACK_BASE
    requires k < |s.writes| && ForBrowser(s.writes[k])
    ensures s.writes[k].origin.task < |s.tasks| && BuilderOf(s, s.writes[k]).ackid > ACK_BASE
  {
    var events :| s == Run(c, INITIAL, events);
    TicketInvAlways(c, events);
    assert TicketOk(BuilderOf(s, s.writes[k]), s.ids.issued);
    AboveBaseUntilWrap(BuilderOf(s, s.writes[k]).ticket);
  }
}
