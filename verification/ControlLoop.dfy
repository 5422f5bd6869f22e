/**
 The replay loop: the policy decides every few simulation steps, its last action
 is applied until it decides again, and fallen robots are reset every 30 steps.
 */
module ControlLoop {
  import Grid
  import opened Camera

  /** A task adapter with its robots: what it observes, how the world answers, and how it recycles. */
  datatype Adapter<!R, !O, !A> = Adapter(
    observe: (R, A) -> O,
    policy: O -> A,
    simulate: (R, A) -> R,        // apply_action, then one step of the simulation
    reset: (R, A) -> (R, A),      // maybe_reset: the robots, and the last actions zeroed for those reset
    centroid: R -> Vec,
    zeros: A,
    decimation: nat)
  {
    function Decide(m: Moment<R, A>): A { policy(observe(m.robot, m.lastActions)) }
  }

  /** The world between two iterations. */
  datatype Moment<R, A> = Moment(robot: R, lastActions: A)

  const RESET_EVERY := 30

  /** Every so many iterations. */
  predicate Due(i: nat, every: nat)
    requires every > 0
  {
    i % every == 0
  }

  /** The iteration in which the action applied in iteration `i` was computed. */
  function DecidedAt(i: nat, decimation: nat): (t: nat)
    requires decimation > 0
    ensures t <= i
  {
    i - i % decimation
  }

  /** The last reset before iteration `i`, 0 when there was none. */
  function ResetAt(i: nat): (t: nat)
    ensures t <= i
  {
    i - i % RESET_EVERY
  }

  /** A history of the loop: every applied action is the decision taken at the last decision time. */
  ghost predicate IsReplay<R(!new), O(!new), A(!new)>(env: Adapter<R, O, A>, start: R, run: seq<Moment<R, A>>, applied: seq<A>) {
    && env.decimation > 0
    && |run| == |applied| + 1
    && run[0] == Moment(start, env.zeros)
    && (forall i :: 0 <= i < |applied| ==> applied[i] == env.Decide(run[DecidedAt(i, env.decimation)]))
    && (forall i :: 0 <= i < |applied| ==> run[i + 1] == After(env, run[i], applied[i], i))
  }

  function After<R, O, A>(env: Adapter<R, O, A>, m: Moment<R, A>, action: A, i: nat): Moment<R, A>
    requires env.decimation > 0
  {
    var robot := env.simulate(m.robot, action);
    var last := if DecidedAt(i, env.decimation) == i then action else m.lastActions;
    if Due(i + 1, RESET_EVERY) then Moment(env.reset(robot, last).0, env.reset(robot, last).1) else Moment(robot, last)
  }

  lemma NextDecision(i: nat, d: nat)
    requires d > 0
    ensures (i + 1) % d == if i % d + 1 == d then 0 else i % d + 1
  {
    Grid.PlaceIs(i, d);
    var q, m := i / d, i % d;
    if m + 1 == d {
      assert (q + 1) * d == q * d + d;
      Grid.PlaceOf(i + 1, d, q + 1, 0);
    } else {
      Grid.PlaceOf(i + 1, d, q, m + 1);
    }
  }

  /** Until the next decision time the decision stays the same. */
  lemma DecisionIsKept(i: nat, d: nat)
    requires d > 0
    ensures DecidedAt(i, d) == i <==> Due(i, d)
    ensures i > 0 && !Due(i, d) ==> DecidedAt(i, d) == DecidedAt(i - 1, d)
  {
    if i > 0 {
      NextDecision(i - 1, d);
    }
  }

  lemma CeilDivNext(i: nat, d: nat)
    requires d > 0
    ensures Grid.CeilDiv(0, d) == 0
    ensures Grid.CeilDiv(i + 1, d) == Grid.CeilDiv(i, d) + (if Due(i, d) then 1 else 0)
  {
    Grid.PlaceIs(i, d);
    var q, m := i / d, i % d;
    Grid.PlaceOf(i + d, d, q + 1, m);
    if m == 0 {
      Grid.PlaceOf(i + d - 1, d, q, d - 1);
    } else {
      Grid.PlaceOf(i + d - 1, d, q + 1, m - 1);
    }
    Grid.PlaceOf(d - 1, d, 0, d - 1);
  }

  lemma AfterIs<R, O, A>(env: Adapter<R, O, A>, m: Moment<R, A>, action: A, i: nat)
    requires env.decimation > 0
    ensures After(env, m, action, i)
         == var robot, last := env.simulate(m.robot, action), if Due(i, env.decimation) then action else m.lastActions;
            if Due(i + 1, RESET_EVERY) then Moment(env.reset(robot, last).0, env.reset(robot, last).1) else Moment(robot, last)
  {
    DecisionIsKept(i, env.decimation);
    hide Due, DecidedAt;
  }

  /** What the camera is shown: the fleet after every iteration, reset or not. */
  function Centroids<R, O, A>(env: Adapter<R, O, A>, run: seq<Moment<R, A>>): seq<Vec>
    requires run != []
  {
    seq(|run| - 1, i requires 0 <= i < |run| - 1 => env.centroid(run[i + 1].robot))
  }

  lemma CentroidsExtend<R, O, A>(env: Adapter<R, O, A>, run: seq<Moment<R, A>>, m: Moment<R, A>)
    requires run != []
    ensures Centroids(env, run + [m]) == Centroids(env, run) + [env.centroid(m.robot)]
  {
  }

  /** What one iteration applies: a new decision when one is due, the old one otherwise. */
  function Applied<R, O, A>(env: Adapter<R, O, A>, m: Moment<R, A>, action: A, i: nat): A
    requires env.decimation > 0
  {
    if Due(i, env.decimation) then env.Decide(m) else action
  }

  lemma Extends<R(!new), O(!new), A(!new)>(env: Adapter<R, O, A>, start: R, run: seq<Moment<R, A>>, applied: seq<A>, action: A)
    requires IsReplay(env, start, run, applied)
    requires action == env.Decide(run[DecidedAt(|applied|, env.decimation)])
    ensures IsReplay(env, start, run + [After(env, run[|applied|], action, |applied|)], applied + [action])
  {
    hide After, DecidedAt;
  }

  /** Where the loop is after so many iterations: the history so far, and in the variables its end and the decision in force. */
  ghost predicate Reached<R(!new), O(!new), A(!new)>(env: Adapter<R, O, A>, start: R, run: seq<Moment<R, A>>, applied: seq<A>,
                                                    now: Moment<R, A>, action: A, policyRuns: nat)
  {
    var n, d := |applied|, env.decimation;
    && IsReplay(env, start, run, applied) && run[n] == now
    && (Due(n, d) || action == env.Decide(run[DecidedAt(n, d)]))
    && policyRuns == Grid.CeilDiv(n, d)
  }

  lemma Starts<R(!new), O(!new), A(!new)>(env: Adapter<R, O, A>, start: R)
    requires env.decimation > 0
    ensures Reached(env, start, [Moment(start, env.zeros)], [], Moment(start, env.zeros), env.zeros, 0)
    ensures Centroids(env, [Moment(start, env.zeros)]) == []
  {
    CeilDivNext(0, env.decimation);
  }

  /** One more iteration, and the decision in force after it. */
  lemma Continues<R(!new), O(!new), A(!new)>(env: Adapter<R, O, A>, start: R, run: seq<Moment<R, A>>, applied: seq<A>,
                                            now: Moment<R, A>, action: A, policyRuns: nat)
    requires Reached(env, start, run, applied, now, action, policyRuns)
    ensures env.decimation > 0 && |run| == |applied| + 1
    ensures var n := |applied|;
            var next := Applied(env, now, action, n);
            var after := After(env, now, next, n);
            && Reached(env, start, run + [after], applied + [next], after, next, policyRuns + if Due(n, env.decimation) then 1 else 0)
            && Centroids(env, run + [after]) == Centroids(env, run) + [env.centroid(after.robot)]
  {
    hide After;
    var n, d := |applied|, env.decimation;
    DecisionIsKept(n, d);
    DecisionIsKept(n + 1, d);
    CeilDivNext(n, d);
    hide Due, DecidedAt, Grid.CeilDiv;
    var next := Applied(env, now, action, n);
    Extends(env, start, run, applied, next);
    CentroidsExtend(env, run, After(env, now, next, n));
  }

  /** One iteration, up to the camera. */
  method Iterate<R, O, A>(env: Adapter<R, O, A>, stepCount: nat, robot: R, lastActions: A, action: A)
    returns (robot': R, lastActions': A, action': A)
    requires env.decimation > 0
    ensures action' == Applied(env, Moment(robot, lastActions), action, stepCount)
    ensures Moment(robot', lastActions') == After(env, Moment(robot, lastActions), action', stepCount)
  {
    robot', lastActions', action' := robot, lastActions, action;
    if Due(stepCount, env.decimation) {
      var obs := env.observe(robot, lastActions);
      action' := env.policy(obs);
      lastActions' := action';
    }
    robot' := env.simulate(robot', action');
    AfterIs(env, Moment(robot, lastActions), action', stepCount);
    hide After, Due;
    if Due(stepCount + 1, RESET_EVERY) {
      var (r, l) := env.reset(robot', lastActions');
      robot', lastActions' := r, l;
    }
  }

  /** The loop for as many iterations as the application keeps running. */
  method RunReplay<R(!new), O(!new), A(!new)>(env: Adapter<R, O, A>, start: R, iterations: nat, cam: CameraFollower)
    returns (applied: seq<A>, policyRuns: nat, ghost run: seq<Moment<R, A>>)
    requires env.decimation > 0 && cam.Valid()
    modifies cam
    ensures IsReplay(env, start, run, applied) && |applied| == iterations && |run| == iterations + 1
    ensures run[0] == Moment(start, env.zeros)
    ensures forall i :: 0 <= i < iterations ==>
      var t := i - i % env.decimation; applied[i] == env.policy(env.observe(run[t].robot, run[t].lastActions))
    ensures forall i :: 0 <= i < iterations ==>
      var robot, last := env.simulate(run[i].robot, applied[i]), if i % env.decimation == 0 then applied[i] else run[i].lastActions;
      (run[i + 1].robot, run[i + 1].lastActions) == if (i + 1) % 30 == 0 then env.reset(robot, last) else (robot, last)
    ensures policyRuns == Grid.CeilDiv(iterations, env.decimation)
    ensures cam.Valid()
    ensures cam.seen == old(cam.seen) + Centroids(env, run)
  {
    var robot, lastActions, action := start, env.zeros, env.zeros;
    var stepCount := 0;
    applied, policyRuns, run := [], 0, [Moment(start, env.zeros)];
    Starts(env, start);
    hide Due, Reached, Centroids, After, Applied, CameraFollower.Valid;
    while stepCount < iterations
      invariant stepCount == |applied| <= iterations && |run| == stepCount + 1
      invariant Reached(env, start, run, applied, Moment(robot, lastActions), action, policyRuns)
      invariant cam.Valid() && cam.seen == old(cam.seen) + Centroids(env, run)
    {
      Continues(env, start, run, applied, Moment(robot, lastActions), action, policyRuns);
      if Due(stepCount, env.decimation) {
        policyRuns := policyRuns + 1;
      }
      robot, lastActions, action := Iterate(env, stepCount, robot, lastActions, action);
      run, applied := run + [Moment(robot, lastActions)], applied + [action];
      stepCount := stepCount + 1;
      var eye, look := cam.Tick(env.centroid(robot));
    }
    IsReached(env, start, run, applied, Moment(robot, lastActions), action, policyRuns);
    ReplaySays(env, start, run, applied);
    hide *;
  }

  /** A replay in plain terms. */
  lemma ReplaySays<R(!new), O(!new), A(!new)>(env: Adapter<R, O, A>, start: R, run: seq<Moment<R, A>>, applied: seq<A>)
    requires IsReplay(env, start, run, applied)
    ensures |run| == |applied| + 1 && run[0] == Moment(start, env.zeros)
    ensures forall i :: 0 <= i < |applied| ==>
      var t := i - i % env.decimation; applied[i] == env.policy(env.observe(run[t].robot, run[t].lastActions))
    ensures forall i :: 0 <= i < |applied| ==>
      var robot, last := env.simulate(run[i].robot, applied[i]), if i % env.decimation == 0 then applied[i] else run[i].lastActions;
      (run[i + 1].robot, run[i + 1].lastActions) == if (i + 1) % 30 == 0 then env.reset(robot, last) else (robot, last)
  {
    forall i | 0 <= i < |applied|
      ensures var t := i - i % env.decimation; applied[i] == env.policy(env.observe(run[t].robot, run[t].lastActions))
    {
      assert applied[i] == env.Decide(run[DecidedAt(i, env.decimation)]);
    }
    forall i | 0 <= i < |applied|
      ensures var robot, last := env.simulate(run[i].robot, applied[i]), if i % env.decimation == 0 then applied[i] else run[i].lastActions;
              (run[i + 1].robot, run[i + 1].lastActions) == if (i + 1) % 30 == 0 then env.reset(robot, last) else (robot, last)
    {
      AfterIs(env, run[i], applied[i], i);
      assert run[i + 1] == After(env, run[i], applied[i], i);
      hide After, IsReplay;
    }
  }

  lemma CentroidsSay<R, O, A>(env: Adapter<R, O, A>, run: seq<Moment<R, A>>)
    requires run != []
    ensures |Centroids(env, run)| == |run| - 1
    ensures forall i :: 0 <= i < |run| - 1 ==> Centroids(env, run)[i] == env.centroid(run[i + 1].robot)
  {
  }

  lemma IsReached<R(!new), O(!new), A(!new)>(env: Adapter<R, O, A>, start: R, run: seq<Moment<R, A>>, applied: seq<A>,
                                            now: Moment<R, A>, action: A, policyRuns: nat)
    requires Reached(env, start, run, applied, now, action, policyRuns)
    ensures IsReplay(env, start, run, applied) && policyRuns == Grid.CeilDiv(|applied|, env.decimation)
  {
  }

  /** The history is settled by the adapter, the start and the length: the loop has one outcome. */
  lemma {:induction false} OneHistory<R(!new), O(!new), A(!new)>(env: Adapter<R, O, A>, start: R, run: seq<Moment<R, A>>, applied: seq<A>,
                                                run': seq<Moment<R, A>>, applied': seq<A>)
    requires IsReplay(env, start, run, applied) && IsReplay(env, start, run', applied') && |applied| == |applied'|
    ensures run == run' && applied == applied'
  {
    if applied != [] {
      var n := |applied| - 1;
      Prefix(env, start, run, applied);
      Prefix(env, start, run', applied');
      OneHistory(env, start, run[..n + 1], applied[..n], run'[..n + 1], applied'[..n]);
      var t := DecidedAt(n, env.decimation);
      assert run[t] == run[..n + 1][t] && run'[t] == run'[..n + 1][t];
      assert run[n] == run[..n + 1][n] && run'[n] == run'[..n + 1][n];
      assert applied == applied[..n] + [applied[n]] && applied' == applied'[..n] + [applied'[n]];
      assert run == run[..n + 1] + [run[n + 1]] && run' == run'[..n + 1] + [run'[n + 1]];
    }
  }

  lemma Prefix<R(!new), O(!new), A(!new)>(env: Adapter<R, O, A>, start: R, run: seq<Moment<R, A>>, applied: seq<A>)
    requires IsReplay(env, start, run, applied) && applied != []
    ensures IsReplay(env, start, run[..|applied|], applied[..|applied| - 1])
  {
  }

  // ------------------------------------------------------------ resets and decisions

  lemma DecidedBeforeReset(i: nat, d: nat)
    requires d > 0
    ensures DecidedAt(i, d) < ResetAt(i) <==> i % d > i % RESET_EVERY
  {
  }

  lemma DivisorOf30(i: nat, d: nat)
    requires d > 0 && RESET_EVERY % d == 0
    ensures i % d == i % RESET_EVERY % d
  {
    var k, q, m := RESET_EVERY / d, i / RESET_EVERY, i % RESET_EVERY;
    Grid.PlaceIs(RESET_EVERY, d);
    Grid.PlaceIs(m, d);
    assert i == q * RESET_EVERY + m == q * (k * d) + (m / d * d + m % d);
    assert q * (k * d) == (q * k) * d;
    assert (q * k) * d + m / d * d == (q * k + m / d) * d;
    Grid.PlaceOf(i, d, q * k + m / d, m % d);
  }

  lemma NoResetBetween(i: nat, d: nat)
    requires d > 0 && RESET_EVERY % d == 0 && !Due(i, d)
    ensures i > 0 && !Due(i, RESET_EVERY)
  {
    DivisorOf30(i, d);
  }

  /** No action computed before a reset is applied after it, exactly when the decimation divides 30. */
  lemma ActionsAreFresh(d: nat)
    requires d > 0
    ensures (forall i: nat :: DecidedAt(i, d) >= ResetAt(i)) <==> RESET_EVERY % d == 0
  {
    if RESET_EVERY % d == 0 {
      forall i: nat
        ensures DecidedAt(i, d) >= ResetAt(i)
      {
        DivisorOf30(i, d);
        var m := i % RESET_EVERY;
        Grid.PlaceIs(m, d);
        assert m % d <= m;
        DecidedBeforeReset(i, d);
      }
    } else {
      assert DecidedAt(RESET_EVERY, d) < ResetAt(RESET_EVERY);
    }
  }

  /** With the default decimation of 4 the first actions after the reset at 30 were decided at 28, before it. */
  lemma StaleAfterReset<R(!new), O(!new), A(!new)>(env: Adapter<R, O, A>, start: R, run: seq<Moment<R, A>>, applied: seq<A>)
    requires IsReplay(env, start, run, applied) && env.decimation == 4 && |applied| > 31
    ensures run[30] == Moment(env.reset(env.simulate(run[29].robot, applied[29]), run[29].lastActions).0,
                              env.reset(env.simulate(run[29].robot, applied[29]), run[29].lastActions).1)
    ensures applied[30] == applied[31] == env.policy(env.observe(run[28].robot, run[28].lastActions))
  {
    assert run[30] == After(env, run[29], applied[29], 29);
    assert DecidedAt(29, 4) == DecidedAt(30, 4) == DecidedAt(31, 4) == 28;
  }

  /**
   With such a decimation a decision sees the action applied last, as the reset
   just before it left it when there was one.
   */
  lemma {:induction false} DecisionSees<R(!new), O(!new), A(!new)>(env: Adapter<R, O, A>, start: R, run: seq<Moment<R, A>>, applied: seq<A>, t: nat)
    requires IsReplay(env, start, run, applied) && RESET_EVERY % env.decimation == 0
    requires 0 < t < |run| && Due(t, env.decimation)
    ensures var robot := env.simulate(run[t - 1].robot, applied[t - 1]);
            run[t] == if Due(t, RESET_EVERY) then Moment(env.reset(robot, applied[t - 1]).0, env.reset(robot, applied[t - 1]).1)
                      else Moment(robot, applied[t - 1])
  {
    LastActionsHeld(env, start, run, applied, t - 1);
  }

  /** So the policy sees the world after the last action, and that action, both as the reset left them when there was one. */
  lemma DecisionUses<R(!new), O(!new), A(!new)>(env: Adapter<R, O, A>, start: R, run: seq<Moment<R, A>>, applied: seq<A>, t: nat)
    requires IsReplay(env, start, run, applied) && 30 % env.decimation == 0
    requires 0 < t < |applied| && t % env.decimation == 0
    ensures var robot := env.simulate(run[t - 1].robot, applied[t - 1]);
            applied[t] == if t % 30 == 0 then env.policy(env.observe(env.reset(robot, applied[t - 1]).0, env.reset(robot, applied[t - 1]).1))
                          else env.policy(env.observe(robot, applied[t - 1]))
  {
    DecisionSees(env, start, run, applied, t);
    DecisionIsKept(t, env.decimation);
    assert applied[t] == env.Decide(run[DecidedAt(t, env.decimation)]);
  }

  lemma {:induction false} LastActionsHeld<R(!new), O(!new), A(!new)>(env: Adapter<R, O, A>, start: R, run: seq<Moment<R, A>>, applied: seq<A>, i: nat)
    requires IsReplay(env, start, run, applied) && RESET_EVERY % env.decimation == 0
    requires i < |applied|
    ensures Due(i, env.decimation) || run[i].lastActions == applied[i]
  {
    var d := env.decimation;
    if !Due(i, d) {
      NoResetBetween(i, d);
      hide Due, DecidedAt;
      LastActionsHeld(env, start, run, applied, i - 1);
      DecisionIsKept(i, d);
      DecisionIsKept(i - 1, d);
      assert run[i] == After(env, run[i - 1], applied[i - 1], i - 1);
    }
  }

  /** An adapter whose resets leave the last actions alone needs no such decimation. */
  lemma {:induction false} DecisionSeesLastAction<R(!new), O(!new), A(!new)>(env: Adapter<R, O, A>, start: R, run: seq<Moment<R, A>>, applied: seq<A>, i: nat)
    requires IsReplay(env, start, run, applied)
    requires forall robot, last :: env.reset(robot, last).1 == last
    requires 0 < i < |run|
    ensures run[i].lastActions == applied[i - 1]
  {
    var d := env.decimation;
    assert run[i] == After(env, run[i - 1], applied[i - 1], i - 1);
    hide Due, DecidedAt;
    DecisionIsKept(i - 1, d);
    if !Due(i - 1, d) {
      DecisionSeesLastAction(env, start, run, applied, i - 1);
    }
  }
}
