/** The relay spawned for one accepted local connection: it opens a direct-tcpip
    channel on the tunnel's session and then copies in both directions until one
    side ends.  The two directions are raced against each other; the model sees
    the order in which the races resolved as a trace of events. */
module TunnelRelay {
  import opened Primitives

  /** The size of the buffer local reads land in. */
  const BufferSize := 32768

  /** What one read of the local socket returns when `ready` bytes are waiting: as
      many as fit in the buffer, the rest being left for later reads. */
  function ReadInto(ready: Bytes): (got: Bytes)
    ensures |got| <= BufferSize
    ensures |got| == 0 <==> |ready| == 0
    ensures |got| <= |ready| && got == ready[..|got|]
    ensures |ready| <= BufferSize ==> got == ready
  {
    if |ready| <= BufferSize then ready else ready[..BufferSize]
  }

  /** One resolution of the relay's wait.
      - `LocalRead`: the local socket had `ready` bytes waiting (possibly none,
        which is end of stream) and was read into the buffer; `forwarded` says
        whether sending what was read as a channel data frame then succeeded.
      - `LocalReadFailed`: reading the local socket failed.
      - `ChannelData`: the channel delivered `data`; `written` says whether writing
        all of it to the local socket then succeeded.
      - `ChannelEof`, `ChannelClosed`: the channel reported end of stream, or the
        wait found no more messages.
      - `ChannelOther`: any other channel message (window changes, exit status, and
        the like). */
  datatype RelayEvent =
    | LocalRead(ready: Bytes, forwarded: bool)
    | LocalReadFailed
    | ChannelData(data: Bytes, written: bool)
    | ChannelEof
    | ChannelClosed
    | ChannelOther

  /** Why a relay stopped.  `OpenFailed`, `ForwardFailed` and `WriteFailed` are the
      cases in which the relay task returns an error (which its spawner logs);
      the others end it normally; `Running` means the trace ran out first. */
  datatype RelayEnd =
    | OpenFailed
    | LocalEof
    | LocalReadError
    | ChannelFinished
    | ForwardFailed
    | WriteFailed
    | Running

  /** The frames sent on the channel and the chunks written to the local socket,
      each in order, and how the relay stopped. */
  datatype RelayRun = RelayRun(toChannel: seq<Bytes>, toLocal: seq<Bytes>, end: RelayEnd)

  /** True iff handling `e` ends the relay. */
  predicate Ends(e: RelayEvent) {
    match e
    case LocalRead(ready, forwarded) => |ready| == 0 || !forwarded
    case LocalReadFailed => true
    case ChannelData(_, written) => !written
    case ChannelEof => true
    case ChannelClosed => true
    case ChannelOther => false
  }

  /** How an ending event ends the relay. */
  function EndOf(e: RelayEvent): RelayEnd
    requires Ends(e)
  {
    match e
    case LocalRead(ready, _) => if |ready| == 0 then LocalEof else ForwardFailed
    case LocalReadFailed => LocalReadError
    case ChannelData(_, _) => WriteFailed
    case ChannelEof => ChannelFinished
    case ChannelClosed => ChannelFinished
  }

  /** The index of the first ending event, or the length of the trace if none
      ends the relay. */
  function FirstEnd(events: seq<RelayEvent>): (k: nat)
    ensures k <= |events|
    ensures forall i | 0 <= i < k :: !Ends(events[i])
    ensures k < |events| ==> Ends(events[k])
    decreases |events|
  {
    if |events| == 0 then 0
    else if Ends(events[0]) then 0
    else 1 + FirstEnd(events[1..])
  }

  /** What the non-empty local reads in a stretch of events returned, in order. */
  function LocalChunks(events: seq<RelayEvent>): seq<Bytes>
    decreases |events|
  {
    if |events| == 0 then []
    else
      (if events[0].LocalRead? && |events[0].ready| > 0 then [ReadInto(events[0].ready)] else [])
      + LocalChunks(events[1..])
  }

  /** The payloads of the channel's data messages in a stretch of events, in order. */
  function ChannelChunks(events: seq<RelayEvent>): seq<Bytes>
    decreases |events|
  {
    if |events| == 0 then []
    else (if events[0].ChannelData? then [events[0].data] else []) + ChannelChunks(events[1..])
  }

  lemma {:induction false} ChunksAppend(a: seq<RelayEvent>, b: seq<RelayEvent>)
    ensures LocalChunks(a + b) == LocalChunks(a) + LocalChunks(b)
    ensures ChannelChunks(a + b) == ChannelChunks(a) + ChannelChunks(b)
    decreases |a|
  {
    if |a| > 0 {
      assert (a + b)[1..] == a[1..] + b;
      ChunksAppend(a[1..], b);
    } else {
      assert a + b == b;
    }
  }

  /** The relay of one connection.  Everything read locally before the relay ends
      goes out on the channel, frame by frame and in order, and everything the
      channel delivers is written locally verbatim; the first ending event decides
      how the relay stops. */
  method HandleConnection(channelOpens: bool, events: seq<RelayEvent>) returns (r: RelayRun)
    ensures !channelOpens ==> r == RelayRun([], [], OpenFailed)
    ensures channelOpens ==> r.toChannel == LocalChunks(events[..FirstEnd(events)])
    ensures channelOpens ==> r.toLocal == ChannelChunks(events[..FirstEnd(events)])
    ensures channelOpens ==>
              r.end == if FirstEnd(events) < |events| then EndOf(events[FirstEnd(events)]) else Running
    ensures forall i | 0 <= i < |r.toChannel| :: |r.toChannel[i]| > 0
  {
    if !channelOpens {
      return RelayRun([], [], OpenFailed);
    }
    var toChannel: seq<Bytes> := [];
    var toLocal: seq<Bytes> := [];
    var end := Running;
    var i := 0;
    ghost var k := FirstEnd(events);
    while i < |events| && end == Running
      invariant end == Running ==> i <= k
      invariant end != Running ==> 0 < i && i - 1 == k < |events| && Ends(events[k]) && end == EndOf(events[k])
      invariant toChannel == LocalChunks(events[..if end == Running then i else i - 1])
      invariant toLocal == ChannelChunks(events[..if end == Running then i else i - 1])
      invariant forall j | 0 <= j < |toChannel| :: |toChannel[j]| > 0
      decreases |events| - i, if end == Running then 1 else 0
    {
      var e := events[i];
      if Ends(e) {
        end := EndOf(e);
      } else {
        ChunksAppend(events[..i], [e]);
        assert events[..i + 1] == events[..i] + [e];
        match e {
          case LocalRead(ready, _) =>
            toChannel := toChannel + [ReadInto(ready)];
          case ChannelData(data, _) =>
            toLocal := toLocal + [data];
          case ChannelOther =>
        }
      }
      i := i + 1;
    }
    r := RelayRun(toChannel, toLocal, end);
  }

  /** Every frame sent on the channel is what one read returned: non-empty, no
      longer than the read buffer, and the start of the bytes that were waiting. */
  lemma {:induction false} FramesCarryLocalBytes(events: seq<RelayEvent>)
    ensures forall c | c in LocalChunks(events) :: 0 < |c| <= BufferSize
    ensures forall c | c in LocalChunks(events) ::
              exists i | 0 <= i < |events| :: events[i].LocalRead? && |c| <= |events[i].ready| && c == events[i].ready[..|c|]
    decreases |events|
  {
    if |events| > 0 {
      FramesCarryLocalBytes(events[1..]);
      forall c | c in LocalChunks(events)
        ensures exists i | 0 <= i < |events| :: events[i].LocalRead? && |c| <= |events[i].ready| && c == events[i].ready[..|c|]
      {
        if c in LocalChunks(events[1..]) {
          var i :| 0 <= i < |events[1..]| && events[1..][i].LocalRead? && |c| <= |events[1..][i].ready| && c == events[1..][i].ready[..|c|];
          assert events[i + 1] == events[1..][i];
        } else {
          assert events[0].LocalRead? && c == ReadInto(events[0].ready);
        }
      }
    }
  }
}
