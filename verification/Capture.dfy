// The capture buffer (telemetry/capture.py), the tee (proxy/tee.py) and the raw capture it freezes into.

module Capture {
  import opened Common

  datatype CaptureStatus = OK | UpstreamError | ClientDisconnect

  datatype RawCapture = RawCapture(
    requestId: nat,
    provider: string,
    verb: string,
    endpoint: string,
    responseBody: Bytes,
    contentType: Option<string>,
    httpStatus: Option<int>,
    streamed: bool,
    status: CaptureStatus,
    truncated: bool,
    cacheKey: Option<string>,
    cacheRequested: bool,
    servedFromCache: bool)

  /** The mutable part of a capture buffer, as a value. */
  datatype Buffer = Buffer(response: Bytes, truncated: bool)

  const EMPTY_BUFFER := Buffer([], false)

  function Observe(cap: nat, b: Buffer, chunk: Bytes): Buffer {
    var remaining := cap - |b.response|;
    if remaining <= 0 then b.(truncated := true)
    else if |chunk| > remaining then Buffer(b.response + chunk[..remaining], true)
    else b.(response := b.response + chunk)
  }

  function ObserveAll(cap: nat, chunks: seq<Bytes>): Buffer {
    if chunks == [] then EMPTY_BUFFER
    else Observe(cap, ObserveAll(cap, chunks[..|chunks| - 1]), chunks[|chunks| - 1])
  }

  /** The cap is reached by an earlier chunk, so the chunk at `i` meets a full buffer. */
  ghost predicate MeetsFullBuffer(cap: nat, chunks: seq<Bytes>) {
    exists i :: 0 <= i < |chunks| && |Concat(chunks[..i])| >= cap
  }

  /**
   * The buffer holds the first min(total, cap) bytes whatever the chunk boundaries, and
   * the truncation flag is up exactly when bytes were lost or a chunk met a full buffer.
   */
  lemma {:induction false} BufferIsPrefix(cap: nat, chunks: seq<Bytes>)
    ensures ObserveAll(cap, chunks).response == Concat(chunks)[..Min(|Concat(chunks)|, cap)]
    ensures ObserveAll(cap, chunks).truncated <==> |Concat(chunks)| > cap || MeetsFullBuffer(cap, chunks)
  {
    if chunks != [] {
      var n := |chunks| - 1;
      BufferIsPrefix(cap, chunks[..n]);
      assert Concat(chunks) == Concat(chunks[..n]) + chunks[n];
      forall i | 0 <= i < n ensures chunks[..n][..i] == chunks[..i] {
      }
      if |Concat(chunks[..n])| >= cap {
        assert MeetsFullBuffer(cap, chunks);
      } else if MeetsFullBuffer(cap, chunks) {
        var i :| 0 <= i < |chunks| && |Concat(chunks[..i])| >= cap;
        assert i < n && chunks[..n][..i] == chunks[..i];
      }
    }
  }

  lemma UntruncatedIsWhole(cap: nat, chunks: seq<Bytes>)
    requires !ObserveAll(cap, chunks).truncated
    ensures ObserveAll(cap, chunks).response == Concat(chunks)
  {
    BufferIsPrefix(cap, chunks);
  }

  lemma ConcatGrows(chunks: seq<Bytes>, i: nat)
    requires i < |chunks|
    ensures |Concat(chunks)| >= |Concat(chunks[..i])| + |chunks[i]|
  {
    assert chunks == chunks[..i + 1] + chunks[i + 1..];
    ConcatSplits(chunks[..i + 1], chunks[i + 1..]);
    assert chunks[..i + 1][..i] == chunks[..i];
  }

  /** With no empty chunk, the flag is up exactly when bytes were lost. */
  lemma FlagIsLossForNonEmptyChunks(cap: nat, chunks: seq<Bytes>)
    requires forall c :: c in chunks ==> c != []
    ensures ObserveAll(cap, chunks).truncated <==> ObserveAll(cap, chunks).response != Concat(chunks)
  {
    BufferIsPrefix(cap, chunks);
    if MeetsFullBuffer(cap, chunks) {
      var i :| 0 <= i < |chunks| && |Concat(chunks[..i])| >= cap;
      ConcatGrows(chunks, i);
      assert chunks[i] in chunks;
    }
  }

  /** Exactly when the flag is a false alarm: every byte was kept, and a chunk arrived after the cap was reached. */
  lemma FalseAlarmExactly(cap: nat, chunks: seq<Bytes>)
    ensures ObserveAll(cap, chunks).truncated && ObserveAll(cap, chunks).response == Concat(chunks)
       <==> |Concat(chunks)| <= cap && MeetsFullBuffer(cap, chunks)
  {
    BufferIsPrefix(cap, chunks);
  }

  /** It does happen: one byte fills the buffer, then an empty chunk arrives. */
  lemma EmptyChunkRaisesFlag()
    ensures var chunks: seq<Bytes> := [[7], []];
      ObserveAll(1, chunks).truncated && ObserveAll(1, chunks).response == Concat(chunks)
  {
    var chunks: seq<Bytes> := [[7], []];
    assert chunks[..1] == [[7]] && chunks[..1][..0] == [];
    assert ObserveAll(1, chunks[..1]) == Buffer([7], false);
    BufferIsPrefix(1, chunks);
    assert Concat(chunks[..1]) == [7];
    assert Concat(chunks) == [7];
  }

  class CaptureBuffer {
    const maxCaptureBytes: nat
    var response: Bytes
    var truncated: bool
    ghost var observed: seq<Bytes>

    ghost predicate Valid()
      reads this
    {
      Buffer(response, truncated) == ObserveAll(maxCaptureBytes, observed)
    }

    constructor (maxBytes: nat)
      ensures Valid() && observed == [] && maxCaptureBytes == maxBytes
    {
      maxCaptureBytes := maxBytes;
      response := [];
      truncated := false;
      observed := [];
    }

    method Observe(chunk: Bytes)
      requires Valid()
      modifies this
      ensures Valid() && observed == old(observed) + [chunk]
    {
      observed := observed + [chunk];
      assert observed[..|observed| - 1] == old(observed);
      var remaining := maxCaptureBytes - |response|;
      if remaining <= 0 {
        truncated := true;
        return;
      }
      if |chunk| > remaining {
        response := response + chunk[..remaining];
        truncated := true;
      } else {
        response := response + chunk;
      }
    }
  }
}
