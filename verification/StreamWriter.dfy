/**
 The event-stream writer: every frame goes through `Emit`, which refuses once the stream is closed,
 counts the bytes handed to the client and keeps the last frames for the inspector.  The four ways a
 stream ends (finish, error event, broken chunk, disconnect) are all built from it.
 */
module StreamWriter {
  import opened Text

  const RING := 200

  /** A retained frame: its number in the stream and its text without trailing newlines. */
  datatype Captured = Captured(num: nat, data: string)

  /** What one write to the client does: how much of the payload goes out, and whether it errs. */
  datatype Attempt = Attempt(n: nat, failed: bool)

  /** The contract of an `io.Writer`: a short write is an error. */
  predicate Possible(payload: string, a: Attempt) {
    a.n <= |payload| && (a.n < |payload| ==> a.failed)
  }

  /** What the outside sees of a stream: closed or not, the bytes sent, the frames sent whole. */
  datatype Stream = Stream(closed: bool, wire: string, frames: seq<string>)

  /** One frame offered to a stream. */
  function Offered(s: Stream, payload: string, a: Attempt): Stream
    requires Possible(payload, a)
  {
    if s.closed then s
    else if a.failed then Stream(true, s.wire + payload[..a.n], s.frames)
    else Stream(false, s.wire + payload, s.frames + [payload])
  }

  predicate Accepted(s: Stream, a: Attempt) {
    !s.closed && !a.failed
  }

  /** The inspector's view, defined from the whole history: its last frames with their numbers. */
  function LastFrames(frames: seq<string>, most: nat): (ring: seq<Captured>)
    ensures |ring| == if |frames| <= most then |frames| else most
    ensures forall k :: 0 <= k < |ring| ==>
              ring[k] == Captured(|frames| - |ring| + k + 1, TrimNewlines(frames[|frames| - |ring| + k]))
  {
    var drop := if |frames| <= most then 0 else |frames| - most;
    seq(|frames| - drop, k requires 0 <= k < |frames| - drop => Captured(drop + k + 1, TrimNewlines(frames[drop + k])))
  }

  /** Appending the newest frame and cutting the front keeps the last frames. */
  lemma RingGrows(frames: seq<string>, payload: string)
    ensures var longer := LastFrames(frames, RING) + [Captured(|frames| + 1, TrimNewlines(payload))];
            LastFrames(frames + [payload], RING) == if |longer| > RING then longer[|longer| - RING..] else longer
  {
    var longer := LastFrames(frames, RING) + [Captured(|frames| + 1, TrimNewlines(payload))];
    var ring := if |longer| > RING then longer[|longer| - RING..] else longer;
    var next := LastFrames(frames + [payload], RING);
    assert |ring| == |next|;
    forall k | 0 <= k < |ring| ensures ring[k] == next[k] {
      var i := |frames| + 1 - |ring| + k;
      assert (frames + [payload])[i] == if i < |frames| then frames[i] else payload;
    }
  }

  datatype Mode = Close | HttpError | Malformed | SseError

  function Joined(frames: seq<string>): string {
    if frames == [] then "" else Joined(frames[..|frames| - 1]) + frames[|frames| - 1]
  }

  /** The bytes on the wire are the whole frames, then at most one torn frame, after which it is closed. */
  ghost predicate Framed(s: Stream) {
    Joined(s.frames) <= s.wire && (!s.closed ==> s.wire == Joined(s.frames))
  }

  lemma OfferedFramed(s: Stream, payload: string, a: Attempt)
    requires Possible(payload, a) && Framed(s)
    ensures Framed(Offered(s, payload, a))
  {
    var t := Offered(s, payload, a);
    if !s.closed && !a.failed {
      assert t.frames[..|t.frames| - 1] == s.frames;
    }
  }

  class Writer {
    var closed: bool
    var bytesOut: nat
    var capture: seq<Captured>
    var capSeq: nat
    const doneFrame: string
    ghost var wire: string
    ghost var frames: seq<string>

    ghost predicate Valid()
      reads this
    {
      bytesOut == |wire| && capSeq == |frames| && capture == LastFrames(frames, RING) && Framed(View())
    }

    ghost function View(): Stream
      reads this
    {
      Stream(closed, wire, frames)
    }

    constructor (doneFrame: string)
      ensures Valid() && View() == Stream(false, "", []) && this.doneFrame == doneFrame
    {
      closed, bytesOut, capture, capSeq := false, 0, [], 0;
      this.doneFrame := doneFrame;
      wire, frames := "", [];
    }

    method CaptureFrame(payload: string)
      requires capSeq == |frames| && capture == LastFrames(frames, RING)
      modifies this`capSeq, this`capture, this`frames
      ensures frames == old(frames) + [payload]
      ensures capSeq == |frames| && capture == LastFrames(frames, 200)
    {
      RingGrows(frames, payload);
      capSeq := capSeq + 1;
      capture := capture + [Captured(capSeq, TrimNewlines(payload))];
      if |capture| > RING {
        capture := capture[|capture| - RING..];
      }
      frames := frames + [payload];
    }

    method Emit(payload: string, a: Attempt) returns (ok: bool)
      requires Valid() && Possible(payload, a)
      modifies this
      ensures Valid() && View() == Offered(old(View()), payload, a)
      ensures ok == Accepted(old(View()), a)
    {
      OfferedFramed(View(), payload, a);
      if closed {
        return false;
      }
      if a.n > 0 {
        bytesOut := bytesOut + a.n;
      }
      wire := wire + payload[..a.n];
      if a.failed {
        closed := true;
        return false;
      }
      CaptureFrame(payload);
      return true;
    }

    /** A clean end: the final chunk, then the done frame when the protocol has one. */
    method Finish(final: string, a: Attempt, b: Attempt) returns (ok: bool)
      requires Valid() && Possible(final, a) && Possible(doneFrame, b)
      modifies this
      ensures Valid() && closed
      ensures ok == Accepted(old(View()), a)
      ensures ok ==>
                frames == old(frames) + [final] + (if doneFrame != "" && !b.failed then [doneFrame] else [])
      ensures !ok ==> frames == old(frames)
      ensures old(closed) ==> wire == old(wire)
    {
      ok := Emit(final, a);
      if !ok {
        return;
      }
      if doneFrame != "" {
        var _ := Emit(doneFrame, b);
      }
      closed := true;
    }

    method Disconnect()
      requires Valid()
      modifies this`closed
      ensures Valid() && closed
    {
      closed := true;
    }

    /** The stream's error modes.  `event` is the error event (or the broken chunk when malformed). */
    method Fail(mode: Mode, event: string, a: Attempt, b: Attempt)
      requires Valid() && Possible(event, a) && Possible(doneFrame, b)
      modifies this
      ensures Valid() && closed
      ensures mode.Close? || old(closed) || a.failed ==> frames == old(frames)
      ensures mode.Close? || old(closed) ==> wire == old(wire)
      ensures !mode.Close? && Accepted(old(View()), a) ==>
                frames == old(frames) + [event]
                  + (if mode.HttpError? && doneFrame != "" && !b.failed then [doneFrame] else [])
    {
      match mode {
        case Close => Disconnect();
        case HttpError =>
          var _ := Emit(event, a);
          if doneFrame != "" {
            var _ := Emit(doneFrame, b);
          }
          closed := true;
        case Malformed =>
          var _ := Emit(event, a);
          Disconnect();
        case SseError =>
          var _ := Emit(event, a);
          closed := true;
      }
    }
  }

  // ----- whole streams -----

  datatype Offer = Offer(payload: string, a: Attempt)

  predicate AllPossible(run: seq<Offer>) {
    forall k :: 0 <= k < |run| ==> Possible(run[k].payload, run[k].a)
  }

  function Run(s: Stream, run: seq<Offer>): Stream
    requires AllPossible(run)
    decreases |run|
  {
    if run == [] then s else Run(Offered(s, run[0].payload, run[0].a), run[1..])
  }

  /** A client that reads whole frames loses nothing: the wire is the frames in order plus one torn tail. */
  lemma {:induction false} WireIsFrames(s: Stream, run: seq<Offer>)
    requires AllPossible(run) && Framed(s)
    ensures Framed(Run(s, run))
    decreases |run|
  {
    if run != [] {
      OfferedFramed(s, run[0].payload, run[0].a);
      WireIsFrames(Offered(s, run[0].payload, run[0].a), run[1..]);
    }
  }

  /** How far a stream gets: up to the first offer whose write errs. */
  function FirstFailure(run: seq<Offer>): (k: nat)
    ensures k <= |run|
    ensures forall i :: 0 <= i < k ==> !run[i].a.failed
    ensures k < |run| ==> run[k].a.failed
  {
    if run == [] || run[0].a.failed then 0 else 1 + FirstFailure(run[1..])
  }

  function Payloads(run: seq<Offer>): (r: seq<string>)
    ensures |r| == |run| && forall k :: 0 <= k < |run| ==> r[k] == run[k].payload
  {
    seq(|run|, k requires 0 <= k < |run| => run[k].payload)
  }

  lemma PayloadsCons(run: seq<Offer>, k: nat)
    requires run != [] && k < |run|
    ensures Payloads(run)[..1 + k] == [run[0].payload] + Payloads(run[1..])[..k]
  {
  }

  /** From an open stream the frames are exactly the offers before the first failing write; it closes there. */
  lemma {:induction false} FramesAreTheOffersBeforeFailure(s: Stream, run: seq<Offer>)
    requires AllPossible(run) && !s.closed
    ensures Run(s, run).frames == s.frames + Payloads(run)[..FirstFailure(run)]
    ensures Run(s, run).closed <==> FirstFailure(run) < |run|
    decreases |run|
  {
    if run == [] {
    } else if run[0].a.failed {
      ClosedIsFinal(Offered(s, run[0].payload, run[0].a), run[1..]);
    } else {
      var p, rest, k := run[0].payload, Payloads(run[1..]), FirstFailure(run[1..]);
      FramesAreTheOffersBeforeFailure(Offered(s, p, run[0].a), run[1..]);
      PayloadsCons(run, k);
      assert (s.frames + [p]) + rest[..k] == s.frames + ([p] + rest[..k]);
    }
  }

  lemma {:induction false} ClosedIsFinal(s: Stream, run: seq<Offer>)
    requires AllPossible(run) && s.closed
    ensures Run(s, run) == s
    decreases |run|
  {
    if run != [] {
      ClosedIsFinal(s, run[1..]);
    }
  }
}
