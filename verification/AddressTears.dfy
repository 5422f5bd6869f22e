/** When the two addresses of a frame to Kit were ever the peer ids together: they come from two loads. */
module AddressTears {
  import opened Wrappers
  import opened Signals
  import opened Gateway
  import opened PeerIdProofs

  /** Nobody stored to this register between the two moments. */
  predicate Untouched(log: seq<IdStore>, n: nat, m: nat, register: Register)
    requires n <= m <= |log|
  {
    forall p :: n <= p < m ==> log[p].register != register
  }

  lemma {:induction false} UntouchedIds(log: seq<IdStore>, n: nat, m: nat, register: Register)
    requires n <= m <= |log| && Untouched(log, n, m, register)
    ensures IdAfter(log[..n], register) == IdAfter(log[..m], register)
    decreases m
  {
    if n < m {
      UntouchedIds(log, n, m - 1, register);
      assert log[..m][..m - 1] == log[..m - 1] && log[..m][m - 1] == log[m - 1];
    }
  }

  predicate BothAt(log: seq<IdStore>, n: nat, from: int, to: int)
    requires n <= |log|
  {
    IdAfter(log[..n], BrowserId) == from && IdAfter(log[..n], KitId) == to
  }

  /** Some moment between the loads had both ids. */
  ghost predicate HeldTogether(log: seq<IdStore>, a: nat, b: nat, from: int, to: int)
    requires b <= |log|
  {
    exists n :: a <= n <= b && BothAt(log, n, from, to)
  }

  /** Between the loads the browser's id is stored, and Kit's id after it. */
  ghost predicate Torn(log: seq<IdStore>, a: nat, b: nat)
    requires b <= |log|
  {
    exists p, q :: a <= p < q < b && log[p].register == BrowserId && log[q].register == KitId
  }

  /** Between the loads no id comes back to a value it had before a store. */
  predicate NoIdReturns(log: seq<IdStore>, a: nat, b: nat)
    requires b <= |log|
  {
    forall n, m, register :: a <= n < m <= b && !Untouched(log, n, m, register) ==>
      IdAfter(log[..n], register) != IdAfter(log[..m], register)
  }

  /** The first store of the browser's id between the loads, or the second load. */
  function FirstBrowserStore(log: seq<IdStore>, a: nat, b: nat): (n: nat)
    requires a <= b <= |log|
    ensures a <= n <= b && Untouched(log, a, n, BrowserId)
    ensures n < b ==> log[n].register == BrowserId
    decreases b - a
  {
    if a == b || log[a].register == BrowserId then a else FirstBrowserStore(log, a + 1, b)
  }

  lemma TearsAreTheReason(log: seq<IdStore>, a: nat, b: nat)
    requires a <= b <= |log|
    ensures var from, to := IdAfter(log[..a], BrowserId), IdAfter(log[..b], KitId);
            && (!Torn(log, a, b) ==> HeldTogether(log, a, b, from, to))
            && (NoIdReturns(log, a, b) ==> (HeldTogether(log, a, b, from, to) <==> !Torn(log, a, b)))
  {
    var from, to := IdAfter(log[..a], BrowserId), IdAfter(log[..b], KitId);
    if !Torn(log, a, b) {
      var n := FirstBrowserStore(log, a, b);
      UntouchedIds(log, a, n, BrowserId);
      assert Untouched(log, n, b, KitId);
      UntouchedIds(log, n, b, KitId);
      assert BothAt(log, n, from, to);
    } else if NoIdReturns(log, a, b) {
      var p, q :| a <= p < q < b && log[p].register == BrowserId && log[q].register == KitId;
      forall n | a <= n <= b
        ensures !BothAt(log, n, from, to)
      {
        TornMoment(log, a, b, n, p, q);
      }
    }
  }

  lemma TornMoment(log: seq<IdStore>, a: nat, b: nat, n: nat, p: nat, q: nat)
    requires a <= p < q < b <= |log| && a <= n <= b && NoIdReturns(log, a, b)
    requires log[p].register == BrowserId && log[q].register == KitId
    ensures !BothAt(log, n, IdAfter(log[..a], BrowserId), IdAfter(log[..b], KitId))
  {
    if p < n {
      assert !Untouched(log, a, n, BrowserId);
    } else {
      assert !Untouched(log, n, b, KitId);
    }
  }

  /**
   The two addresses of a frame built for Kit were the ids at one moment between
   the two loads, unless a store of the browser's id and then one of Kit's id came
   between; and if no id returns to an old value there, exactly unless.
   */
  lemma AddressesHeldTogether(c: Codec, s: State, k: nat)
    requires Reachable(c, s) && k < |s.writes| && s.writes[k].side == ToKit && s.writes[k].origin.Built?
    ensures s.writes[k].origin.task < |s.tasks|
    ensures var t := s.tasks[s.writes[k].origin.task];
            && t.fromAt <= t.toAt <= |s.ids.log|
            && (!Torn(s.ids.log, t.fromAt, t.toAt) ==> HeldTogether(s.ids.log, t.fromAt, t.toAt, t.from, t.to))
            && (NoIdReturns(s.ids.log, t.fromAt, t.toAt) ==>
                 (HeldTogether(s.ids.log, t.fromAt, t.toAt, t.from, t.to) <==> !Torn(s.ids.log, t.fromAt, t.toAt)))
  {
    AddressesAreLoaded(c, s, k);
    var t := s.tasks[s.writes[k].origin.task];
    hide Reachable, Torn, HeldTogether, NoIdReturns;
    TearsAreTheReason(s.ids.log, t.fromAt, t.toAt);
  }

  // ------------------------------------------------------------------ a witness

  /** Between the two loads of a candidate goroutine the browser announces itself as 7 and addresses Kit as 9. */
  lemma TornRun(c: Codec, f: Frame) returns (s: State)
    requires c.client(f.data).Signal? && c.client(f.data).from == 7 && c.client(f.data).to == Some(9)
    ensures Reachable(c, s) && |s.tasks| == 1 && s.tasks[0].from == 0 && s.tasks[0].to == 9
    ensures PayloadToKit(s.tasks[0]).kind == "candidate"
    ensures s.writes == [Write(ToKit, FrameToKit(c, s.tasks[0]), Built(0), true)]
    ensures s.ids.log == [IdStore(ToKit, BrowserId, 7), IdStore(ToKit, KitId, 9)]
  {
    hide Reachable, Run, FrameToKit;
    var candidate, load, read := UpstreamCandidate("candidate:1", "0", 0), TaskRuns(0, true, ""), ClientPumpRuns(true, f);
    StartIsReachable(c);
    StepIsReachable(c, INITIAL, candidate);
    s := Step(c, INITIAL, candidate);
    StepIsReachable(c, s, load);
    s := Step(c, s, load);
    assert |s.tasks| == 1 && s.tasks[0].stage.LoadTo? && s.tasks[0].from == 0 && s.writes == [] && s.ids.log == [];
    assert !s.life.kitClosed && !s.life.clientClosed && s.clientPump.Reading?;
    s := ClientAnnounces(c, s, f);
    s := LoadAndSend(c, s, 0);
  }

  lemma LoadAndSend(c: Codec, s: State, i: nat) returns (after: State)
    requires Reachable(c, s) && i < |s.tasks| && s.tasks[i].stage.LoadTo? && !s.life.kitClosed
    ensures Reachable(c, after) && |after.tasks| == |s.tasks| && after.ids.log == s.ids.log
    ensures after.tasks[i].from == s.tasks[i].from && after.tasks[i].to == s.ids.kitPeerID && after.tasks[i].job == s.tasks[i].job
    ensures after.writes == s.writes + [Write(ToKit, FrameToKit(c, after.tasks[i]), Built(i), true)]
  {
    hide Reachable, Run;
    var e := TaskRuns(i, true, "");
    StepIsReachable(c, s, e);
    var loaded := Step(c, s, e);
    StepIsReachable(c, loaded, e);
    after := Step(c, loaded, e);
  }

  lemma ClientAnnounces(c: Codec, s: State, f: Frame) returns (after: State)
    requires Reachable(c, s) && s.clientPump.Reading? && !s.life.clientClosed
    requires c.client(f.data).Signal? && c.client(f.data).to.Some?
    ensures Reachable(c, after) && after.tasks == s.tasks && after.writes == s.writes && after.life == s.life
    ensures after.ids.log == s.ids.log + [IdStore(ToKit, BrowserId, c.client(f.data).from), IdStore(ToKit, KitId, c.client(f.data).to.value)]
    ensures after.ids.kitPeerID == c.client(f.data).to.value
  {
    hide Reachable, Run;
    var e := ClientPumpRuns(true, f);
    StepIsReachable(c, s, e);
    var read := Step(c, s, e);
    assert read.clientPump == Deciding(f) && read.tasks == s.tasks && read.writes == s.writes && read.life == s.life;
    StepIsReachable(c, read, e);
    var stored := Step(c, read, e);
    assert stored.clientPump == Learned(f) && stored.tasks == s.tasks && stored.writes == s.writes && stored.life == s.life;
    assert stored.ids.log == s.ids.log + [IdStore(ToKit, BrowserId, c.client(f.data).from)];
    StepIsReachable(c, stored, e);
    after := Step(c, stored, e);
  }

  /** Then no moment of the run ever had the two ids of that frame together. */
  lemma NeverZeroAndNine(log: seq<IdStore>)
    requires log == [IdStore(ToKit, BrowserId, 7), IdStore(ToKit, KitId, 9)]
    ensures forall n :: 0 <= n <= |log| ==> !BothAt(log, n, 0, 9)
  {
    assert log[..0] == [] && log[..2] == log && log[..2][..1] == log[..1];
    assert IdAfter(log[..1], BrowserId) == 7;
    assert IdAfter(log[..2], BrowserId) == IdAfter(log[..1], BrowserId);
  }
}
