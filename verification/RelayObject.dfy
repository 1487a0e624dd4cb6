// The relay's own code, sequentially: `handle` with its hand-off flag, the body generators
// and their `finally` blocks.  Awaited outcomes (lookup, upstream, disconnect) are parameters.
// The functions these methods compute are tied to runs of the relay in RelayScript.

module RelayObject {
  import opened Common
  import opened Capture
  import opened Stages
  import opened Relay
  import opened RelayScript
  import Store

  /** The client was to leave at or before the wait after n chunks. */
  predicate StreamedUntilBy(leaving: Leaving, n: nat) {
    match leaving
    case Stays => false
    case AtYield(m) => m < n
    case Awaiting(m) => m <= n
  }

  class RelayServer {
    const maxConcurrent: nat
    const maxRequestBytes: nat
    const maxCaptureBytes: nat
    var inflight: int

    constructor (maxConcurrent: nat, maxRequestBytes: nat, maxCaptureBytes: nat)
      ensures inflight == 0
      ensures this.maxConcurrent == maxConcurrent && this.maxRequestBytes == maxRequestBytes
      ensures this.maxCaptureBytes == maxCaptureBytes
    {
      this.maxConcurrent := maxConcurrent;
      this.maxRequestBytes := maxRequestBytes;
      this.maxCaptureBytes := maxCaptureBytes;
      inflight := 0;
    }

    method AcquirePermit() returns (ok: bool)
      modifies this
      ensures ok <==> old(inflight) < maxConcurrent
      ensures inflight == old(inflight) + if ok then 1 else 0
    {
      if inflight >= maxConcurrent {
        return false;
      }
      inflight := inflight + 1;
      return true;
    }

    method ReleasePermit()
      modifies this
      ensures inflight == old(inflight) - 1
    {
      inflight := inflight - 1;
    }

    /**
     * The whole body; a 413 exactly when the declared or the received length exceeds the limit; or
     * nobody left to answer.
     */
    method ReadBody(request: Request, cancel: Cancel) returns (body: BodyRead)
      ensures body == BodyOf(maxRequestBytes, request, cancel)
      ensures var declared := request.declared.Some? && request.declared.value > maxRequestBytes;
        var gone := cancel.InBody? && cancel.n <= |request.chunks|
                    && |Concat(request.chunks[..cancel.n])| <= maxRequestBytes;
        && (body.TooLarge? <==> declared || (!gone && |Concat(request.chunks)| > maxRequestBytes))
        && (body.Disconnected? <==> !declared && gone)
        && (body.Whole? ==> body.body == Concat(request.chunks) && |body.body| <= maxRequestBytes)
    {
      if request.declared.Some? && request.declared.value > maxRequestBytes {
        return TooLarge;
      }
      var chunks := request.chunks;
      var parts: seq<Bytes> := [];
      var total := 0;
      var next := 0;
      while next < |chunks|
        invariant next <= |chunks|
        invariant parts == chunks[..next]
        invariant total == |Concat(chunks[..next])| <= maxRequestBytes
        invariant cancel.InBody? ==> cancel.n >= next
      {
        if cancel == InBody(next) {
          return Disconnected;
        }
        ConcatUpTo(chunks, next);
        total := total + |chunks[next]|;
        if total > maxRequestBytes {
          if cancel.InBody? && cancel.n <= |chunks| {
            ConcatShorter(chunks, next + 1, cancel.n);
          }
          return TooLarge;
        }
        parts := parts + [chunks[next]];
        next := next + 1;
      }
      assert chunks[..next] == chunks;
      if cancel == InBody(next) {
        return Disconnected;
      }
      return Whole(Concat(parts));
    }

    /**
     * `handle`, given what it awaits.  The permit it takes stays out exactly when a response is
     * handed off; a rejection, an error or a disconnect leaves the count as it was.
     */
    method Handle(request: Request, identity: Option<CacheIdentity>, hit: Option<Store.CacheDoc>, sent: Sent,
                  cancel: Cancel)
      returns (reply: Reply)
      modifies this
      ensures reply == if old(inflight) >= maxConcurrent then Raised(503)
                       else ReplyTo(maxRequestBytes, request, identity, hit, sent, cancel)
      ensures inflight == old(inflight) + if reply.Replay? || reply.Live? then 1 else 0
      ensures var free, found := old(inflight) < maxConcurrent, identity.Some? && hit.Some?;
        var declared := request.declared.Some? && request.declared.value > maxRequestBytes;
        var gone := cancel.InBody? && cancel.n <= |request.chunks|
                    && |Concat(request.chunks[..cancel.n])| <= maxRequestBytes;
        var tooLarge := declared || (!gone && |Concat(request.chunks)| > maxRequestBytes);
        var left := gone || (identity.Some? && cancel.InLookup?) || (!found && cancel.InSend?);
        && (reply == Raised(503) <==> !free)
        && (reply == Raised(413) <==> free && tooLarge)
        && (reply == Aborted <==> free && !tooLarge && left)
        && (reply == Raised(504) <==> free && !tooLarge && !left && !found && sent.TimedOut?)
        && (reply == Raised(502) <==> free && !tooLarge && !left && !found && sent.Unreachable?)
        && (reply.Replay? <==> free && !tooLarge && !left && found)
        && (reply.Live? <==> free && !tooLarge && !left && !found && sent.Response?)
      ensures reply.Replay? ==> hit == Some(reply.doc)
      ensures reply.Live? ==> sent == Response(reply.answer) && reply.cache == if identity.Some? then Miss else Off
    {
      var ok := AcquirePermit();
      if !ok {
        return Raised(503);
      }
      var handedOff := false;
      var body := ReadBody(request, cancel);
      if body.TooLarge? {
        reply := Raised(413);
      } else if body.Disconnected? || (identity.Some? && cancel.InLookup?) {
        reply := Aborted;
      } else if identity.Some? && hit.Some? {
        reply := Replay(hit.value);
        handedOff := true;
      } else if cancel.InSend? {
        reply := Aborted;
      } else {
        match sent {
          case TimedOut => reply := Raised(504);
          case Unreachable => reply := Raised(502);
          case Response(answer) =>
            reply := Live(answer, if identity.Some? then Miss else Off);
            handedOff := true;
        }
      }
      if !handedOff {
        ReleasePermit();
      }
    }

    /**
     * The live body generator: the client leaves where `leaving` says, if it does.  Chunks are
     * observed before they are yielded; the `finally` releases the permit once.
     */
    method StreamAndCapture(answer: Answer, buffer: CaptureBuffer, leaving: Leaving)
      returns (delivered: seq<Bytes>, status: CaptureStatus)
      requires buffer.Valid() && buffer.observed == []
      modifies this, buffer
      ensures inflight == old(inflight) - 1
      ensures buffer.Valid()
      ensures var s := StreamedUntil(answer, leaving);
        delivered == answer.chunks[..s.delivered] && buffer.observed == answer.chunks[..s.observed]
      ensures leaving.AtYield? && leaving.n < |answer.chunks| ==>
        delivered == answer.chunks[..leaving.n] && buffer.observed == answer.chunks[..leaving.n + 1]
      ensures leaving.Awaiting? && leaving.n <= |answer.chunks| ==>
          delivered == buffer.observed == answer.chunks[..leaving.n]
      ensures var early := (leaving.AtYield? && leaving.n < |answer.chunks|)
                           || (leaving.Awaiting? && leaving.n <= |answer.chunks|);
        && (!early ==> delivered == buffer.observed == answer.chunks)
        && (status == UpstreamError <==> answer.status >= 400 || (!early && answer.breaks))
        && (status == ClientDisconnect <==> answer.status < 400 && early)
        && (status == OK <==> answer.status < 400 && !early && !answer.breaks)
    {
      status := if answer.status < 400 then OK else UpstreamError;
      delivered := [];
      var completed := false;
      var next := 0;
      var left := leaving == Awaiting(0);
      while next < |answer.chunks| && !left
        invariant next <= |answer.chunks| && buffer.Valid() && inflight == old(inflight)
        invariant delivered == answer.chunks[..next]
        invariant !left ==> buffer.observed == answer.chunks[..next] && !StreamedUntilBy(leaving, next)
        invariant left && leaving.Awaiting? ==> leaving.n == next && buffer.observed == answer.chunks[..next]
        invariant left && !leaving.Awaiting? ==>
          leaving == AtYield(next) && next < |answer.chunks| && buffer.observed == answer.chunks[..next + 1]
        decreases |answer.chunks| - next, !left
      {
        buffer.Observe(answer.chunks[next]);
        if leaving == AtYield(next) {
          left := true;
        } else {
          delivered := delivered + [answer.chunks[next]];
          next := next + 1;
          left := leaving == Awaiting(next);
        }
      }
      if !left {
        if answer.breaks {
          status := UpstreamError;
        } else {
          completed := true;
        }
      }
      if !completed && status == OK {
        status := ClientDisconnect;
      }
      ReleasePermit();
    }

    /** The replay generator: the stored body in one chunk; its capture is OK even when the client leaves. */
    method ReplayAndCapture(doc: Store.CacheDoc, buffer: CaptureBuffer, leaves: bool)
      returns (delivered: seq<Bytes>, status: CaptureStatus)
      requires buffer.Valid() && buffer.observed == []
      modifies this, buffer
      ensures inflight == old(inflight) - 1
      ensures buffer.Valid() && buffer.observed == [doc.body]
      ensures delivered == (if leaves then [] else [doc.body]) && status == OK
    {
      buffer.Observe(doc.body);
      delivered := if leaves then [] else [doc.body];
      status := OK;
      ReleasePermit();
    }
  }
}
