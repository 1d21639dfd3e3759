/**
 * Newline framing of the local IPC connection: the frames dispatched, and whether the connection
 * is aborted, do not depend on how the bytes are fragmented.
 */
module IpcFraming {
  import opened Common

  newtype Byte = b: int | 0 <= b < 256
  type Bytes = seq<Byte>

  const NEWLINE: Byte := 10

  /** QByteArray::indexOf('\n'). */
  function NewlineIn(input: Bytes): (r: Option<nat>)
    ensures r.Some? ==> r.value < |input| && input[r.value] == NEWLINE
  {
    if input == [] then None
    else if input[0] == NEWLINE then Some(0)
    else match NewlineIn(input[1..])
         case None => None
         case Some(n) => Some(n + 1)
  }

  lemma {:induction false} NewlineIsFirst(input: Bytes)
    ensures NEWLINE !in (match NewlineIn(input) case None => input case Some(n) => input[..n])
  {
    if input != [] && input[0] != NEWLINE {
      NewlineIsFirst(input[1..]);
      var n := NewlineIn(input);
      assert n.Some? ==> input[..n.value] == [input[0]] + input[1..][..n.value - 1];
      assert input == [input[0]] + input[1..];
    }
  }

  datatype Framing = Framing(frames: seq<Bytes>, rest: Bytes, aborted: bool)

  /** One-shot reading of a whole byte stream under a frame size limit. */
  function Read(limit: nat, stream: Bytes): Framing
    decreases |stream|
  {
    match NewlineIn(stream)
    case None => Framing([], stream, |stream| > limit)
    case Some(n) =>
      if n > limit then Framing([], stream, true)
      else
        var tail := Read(limit, stream[n + 1..]);
        Framing([stream[..n]] + tail.frames, tail.rest, tail.aborted)
  }

  class FrameReader {
    const limit: nat
    var input: Bytes
    var aborted: bool

    constructor (limit: nat)
      ensures this.limit == limit && input == [] && !aborted
    {
      this.limit := limit;
      input := [];
      aborted := false;
    }

    /** One readyRead: append what arrived, dispatch every complete frame in order. */
    method OnReadyRead(arrived: Bytes) returns (frames: seq<Bytes>)
      requires !aborted
      modifies this
      ensures var all := Read(limit, old(input) + arrived);
              && frames == all.frames && aborted == all.aborted
              && (!aborted ==> input == all.rest)
    {
      input := input + arrived;
      frames := [];
      var newline := NewlineIn(input);
      ghost var all := Read(limit, input);
      while newline.Some?
        invariant newline == NewlineIn(input) && !aborted
        invariant all == After(Framing(frames, [], false), Read(limit, input))
        decreases |input|
      {
        if newline.value > limit {
          aborted := true;
          return;
        }
        ghost var head, tail := Framing([input[..newline.value]], [], false), input[newline.value + 1..];
        AfterAssociates(Framing(frames, [], false), head, Read(limit, tail));
        assert Read(limit, input) == After(head, Read(limit, tail));
        frames := frames + [input[..newline.value]];
        input := input[newline.value + 1..];
        newline := NewlineIn(input);
      }
      if |input| > limit {
        aborted := true;
      }
    }
  }

  lemma {:induction false} NewlineInLonger(stream: Bytes, more: Bytes)
    ensures NewlineIn(stream).Some? ==> NewlineIn(stream + more) == NewlineIn(stream)
    ensures NewlineIn(stream).None? && NewlineIn(stream + more).Some? ==> NewlineIn(stream + more).value >= |stream|
  {
    if stream != [] {
      assert (stream + more)[1..] == stream[1..] + more;
      NewlineInLonger(stream[1..], more);
    }
  }

  function After(first: Framing, next: Framing): Framing {
    Framing(first.frames + next.frames, next.rest, next.aborted)
  }

  lemma AfterAssociates(a: Framing, b: Framing, c: Framing)
    ensures After(After(a, b), c) == After(a, After(b, c))
  {
    assert (a.frames + b.frames) + c.frames == a.frames + (b.frames + c.frames);
  }

  /** Reading resumes where it stopped, and an abort is final. */
  lemma {:induction false} ReadContinues(limit: nat, stream: Bytes, more: Bytes)
    ensures var first, all := Read(limit, stream), Read(limit, stream + more);
            if first.aborted then all.aborted && all.frames == first.frames
            else all == After(first, Read(limit, first.rest + more))
    decreases |stream|
  {
    NewlineInLonger(stream, more);
    match NewlineIn(stream)
    case None =>
      var all := Read(limit, stream + more);
      assert After(Framing([], stream, false), all).frames == all.frames;
    case Some(n) =>
      if n <= limit {
        var head, tail := Framing([stream[..n]], [], false), stream[n + 1..];
        assert (stream + more)[..n] == stream[..n] && (stream + more)[n + 1..] == tail + more;
        assert Read(limit, stream) == After(head, Read(limit, tail));
        assert Read(limit, stream + more) == After(head, Read(limit, tail + more));
        ReadContinues(limit, tail, more);
        AfterAssociates(head, Read(limit, tail), Read(limit, Read(limit, tail).rest + more));
      }
  }

  function Joined(fragments: seq<Bytes>): Bytes {
    if fragments == [] then [] else Joined(fragments[..|fragments| - 1]) + fragments[|fragments| - 1]
  }

  /** The connection's life: every fragmentation of a byte stream dispatches the same frames. */
  method ReadConnection(limit: nat, fragments: seq<Bytes>) returns (frames: seq<Bytes>, aborted: bool)
    ensures frames == Read(limit, Joined(fragments)).frames
    ensures aborted == Read(limit, Joined(fragments)).aborted
  {
    var reader := new FrameReader(limit);
    frames := [];
    for k := 0 to |fragments|
      invariant fresh(reader) && reader.limit == limit
      invariant var all := Read(limit, Joined(fragments[..k]));
                && frames == all.frames && reader.aborted == all.aborted
                && (!reader.aborted ==> reader.input == all.rest)
    {
      assert fragments[..k + 1][..k] == fragments[..k];
      ReadContinues(limit, Joined(fragments[..k]), fragments[k]);
      if !reader.aborted {
        var more := reader.OnReadyRead(fragments[k]);
        frames := frames + more;
      }
    }
    assert fragments[..|fragments|] == fragments;
    aborted := reader.aborted;
  }

  function Unframe(frames: seq<Bytes>): Bytes {
    if frames == [] then [] else frames[0] + [NEWLINE] + Unframe(frames[1..])
  }

  lemma ReadLine(limit: nat, stream: Bytes)
    requires NewlineIn(stream).Some? && NewlineIn(stream).value <= limit
    ensures var n := NewlineIn(stream).value;
            && Read(limit, stream) == After(Framing([stream[..n]], [], false), Read(limit, stream[n + 1..]))
            && stream == stream[..n] + [NEWLINE] + stream[n + 1..]
  {
  }

  lemma UnframeHead(line: Bytes, frames: seq<Bytes>)
    ensures Unframe([line] + frames) == line + [NEWLINE] + Unframe(frames)
  {
  }

  /** Frames are the lines of the stream, in order; nothing is lost or invented. */
  lemma {:induction false} FramesAreLines(limit: nat, stream: Bytes)
    ensures stream == Unframe(Read(limit, stream).frames) + Read(limit, stream).rest
    decreases |stream|
  {
    var n := NewlineIn(stream);
    if n.Some? && n.value <= limit {
      var line, tail := stream[..n.value], stream[n.value + 1..];
      ReadLine(limit, stream);
      FramesAreLines(limit, tail);
      UnframeHead(line, Read(limit, tail).frames);
    }
  }

  ghost predicate IsLine(limit: nat, frame: Bytes) { |frame| <= limit && NEWLINE !in frame }

  ghost predicate AllLines(limit: nat, frames: seq<Bytes>) {
    forall k :: 0 <= k < |frames| ==> IsLine(limit, frames[k])
  }

  lemma OneMoreLine(limit: nat, line: Bytes, frames: seq<Bytes>)
    requires IsLine(limit, line) && AllLines(limit, frames)
    ensures AllLines(limit, [line] + frames)
  {
  }

  /** Every frame respects the limit; the connection is aborted exactly when the next line cannot. */
  lemma {:induction false} LimitsAreKept(limit: nat, stream: Bytes)
    ensures var r := Read(limit, stream);
            && AllLines(limit, r.frames)
            && (r.aborted <==> match NewlineIn(r.rest) case None => |r.rest| > limit case Some(n) => n > limit)
    decreases |stream|
  {
    var n := NewlineIn(stream);
    if n.Some? && n.value <= limit {
      NewlineIsFirst(stream);
      ReadLine(limit, stream);
      LimitsAreKept(limit, stream[n.value + 1..]);
      OneMoreLine(limit, stream[..n.value], Read(limit, stream[n.value + 1..]).frames);
    }
  }
}
