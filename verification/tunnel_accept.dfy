/** The forwarding task a successful open spawns: it waits on the tunnel's
    shutdown receiver and on the loopback listener at once, and the model sees the
    order in which those waits resolved as a trace of events.  The task leaves the
    loop on the shutdown signal, spawns one relay per accepted connection, and logs
    an accept error without leaving the loop. */
module TunnelAcceptLoop {

  /** One resolution of the task's wait: the shutdown receiver fired, or the
      listener accepted a connection (named by `conn`), or accepting failed. */
  datatype ListenerEvent = ShutdownSignal | Accepted(conn: nat) | AcceptFailed

  /** The relays spawned (one per accepted connection, in order), the number of
      accept errors logged, and whether the loop has exited. */
  datatype LoopRun = LoopRun(spawned: seq<nat>, errorsLogged: nat, stopped: bool)

  /** The events the loop acts on: everything before the first shutdown signal. */
  function UntilShutdown(events: seq<ListenerEvent>): (pre: seq<ListenerEvent>)
    ensures ShutdownSignal !in pre
    ensures |pre| <= |events| && pre == events[..|pre|]
    ensures |pre| < |events| <==> ShutdownSignal in events
    ensures |pre| < |events| ==> events[|pre|] == ShutdownSignal
    decreases |events|
  {
    if |events| == 0 || events[0] == ShutdownSignal then []
    else [events[0]] + UntilShutdown(events[1..])
  }

  /** The connections accepted in a stretch of events, in order. */
  function AcceptedConns(events: seq<ListenerEvent>): seq<nat>
    decreases |events|
  {
    if |events| == 0 then []
    else (if events[0].Accepted? then [events[0].conn] else []) + AcceptedConns(events[1..])
  }

  /** The accept errors in a stretch of events. */
  function AcceptFailures(events: seq<ListenerEvent>): nat
    decreases |events|
  {
    if |events| == 0 then 0
    else (if events[0] == AcceptFailed then 1 else 0) + AcceptFailures(events[1..])
  }

  lemma {:induction false} AcceptedConnsAppend(a: seq<ListenerEvent>, b: seq<ListenerEvent>)
    ensures AcceptedConns(a + b) == AcceptedConns(a) + AcceptedConns(b)
    ensures AcceptFailures(a + b) == AcceptFailures(a) + AcceptFailures(b)
    decreases |a|
  {
    if |a| > 0 {
      assert (a + b)[1..] == a[1..] + b;
      AcceptedConnsAppend(a[1..], b);
    } else {
      assert a + b == b;
    }
  }

  /** The accept loop, event by event. */
  method RunAcceptLoop(events: seq<ListenerEvent>) returns (r: LoopRun)
    ensures r.stopped <==> ShutdownSignal in events
    ensures r.spawned == AcceptedConns(UntilShutdown(events))
    ensures r.errorsLogged == AcceptFailures(UntilShutdown(events))
    ensures |r.spawned| + r.errorsLogged == |UntilShutdown(events)|
  {
    var spawned: seq<nat> := [];
    var errors: nat := 0;
    var i := 0;
    ghost var pre := UntilShutdown(events);
    while i < |events| && events[i] != ShutdownSignal
      invariant i <= |pre|
      invariant spawned == AcceptedConns(pre[..i])
      invariant errors == AcceptFailures(pre[..i])
      invariant |spawned| + errors == i
      decreases |events| - i
    {
      assert events[i] == pre[i];
      AcceptedConnsAppend(pre[..i], [pre[i]]);
      assert pre[..i + 1] == pre[..i] + [pre[i]];
      match events[i] {
        case Accepted(conn) =>
          spawned := spawned + [conn];
        case AcceptFailed =>
          errors := errors + 1;
      }
      i := i + 1;
    }
    assert pre[..i] == pre;
    r := LoopRun(spawned, errors, i < |events|);
  }

  /** Nothing after the shutdown signal is acted on: the loop's run is the same
      whatever follows the signal. */
  lemma {:induction false} ShutdownEndsLoop(pre: seq<ListenerEvent>, post: seq<ListenerEvent>)
    requires ShutdownSignal !in pre
    ensures UntilShutdown(pre + [ShutdownSignal] + post) == pre
    decreases |pre|
  {
    if |pre| > 0 {
      assert (pre + [ShutdownSignal] + post)[1..] == pre[1..] + [ShutdownSignal] + post;
      ShutdownEndsLoop(pre[1..], post);
    }
  }
}
