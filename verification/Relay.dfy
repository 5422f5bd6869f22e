/** The RTP relay loop: packets from a source to a sink until one of them, or the context, ends it. */
module Relay {
  import opened Wrappers

  type Packet = seq<bv8>

  datatype SinkResult = Written | ClosedPipe | Failed

  datatype End = NilSource | NilSink | Cancelled | SourceEnded | SinkClosed | SinkFailed

  /** What the loop meets: whether the n-th poll finds the context cancelled, and how the sink takes the n-th packet. */
  datatype Environment = Environment(cancelled: nat -> bool, sink: nat -> SinkResult)

  /** The n-th round is the last one. */
  predicate LastRound(env: Environment, packets: seq<Packet>, n: nat) {
    env.cancelled(n) || n >= |packets| || !env.sink(n).Written?
  }

  /** How the n-th round ends the loop, in the order the loop looks. */
  function EndOf(env: Environment, packets: seq<Packet>, n: nat): End {
    if env.cancelled(n) then Cancelled
    else if n >= |packets| then SourceEnded
    else if env.sink(n).ClosedPipe? then SinkClosed
    else SinkFailed
  }

  /**
   `source` is everything the source would deliver before its error; `sunk` is
   what the sink took and `taken` how many packets were taken from the source.
   */
  method Forward(env: Environment, source: Option<seq<Packet>>, hasSink: bool)
    returns (count: nat, end: End, sunk: seq<Packet>, taken: nat)
    ensures source.None? ==> end == NilSource && count == 0 && sunk == [] && taken == 0
    ensures source.Some? && !hasSink ==> end == NilSink && count == 0 && sunk == [] && taken == 0
    ensures source.Some? && hasSink ==>
      && count <= |source.value| && sunk == source.value[..count]
      && LastRound(env, source.value, count)
      && (forall n :: 0 <= n < count ==> !LastRound(env, source.value, n))
      && end == EndOf(env, source.value, count)
      && (end.Cancelled? <==> env.cancelled(count))
      && (end.SourceEnded? <==> !env.cancelled(count) && count == |source.value|)
      && (end.SinkClosed? <==> !env.cancelled(count) && count < |source.value| && env.sink(count).ClosedPipe?)
      && (end.SinkFailed? <==> !env.cancelled(count) && count < |source.value| && env.sink(count).Failed?)
      && taken == (if end.SinkClosed? || end.SinkFailed? then count + 1 else count)
  {
    count, sunk, taken := 0, [], 0;
    if source.None? {
      return 0, NilSource, [], 0;
    }
    if !hasSink {
      return 0, NilSink, [], 0;
    }
    var packets := source.value;
    while true
      invariant count <= |packets| && sunk == packets[..count] && taken == count
      invariant forall n :: 0 <= n < count ==> !LastRound(env, packets, n)
      decreases |packets| - count
    {
      if env.cancelled(count) {
        return count, Cancelled, sunk, taken;
      }
      if taken == |packets| {
        return count, SourceEnded, sunk, taken;
      }
      var packet := packets[taken];
      taken := taken + 1;
      match env.sink(count) {
        case ClosedPipe => return count, SinkClosed, sunk, taken;
        case Failed => return count, SinkFailed, sunk, taken;
        case Written =>
      }
      sunk := sunk + [packet];
      count := count + 1;
    }
  }
}
