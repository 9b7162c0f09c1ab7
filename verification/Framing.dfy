/**
 How the bridge cuts its standard input into frames (`read_input_frame` and the
 reader thread in crates/dsh-norm-bridge/src/server.rs). The reader sees the
 input in pieces of any size; what it delivers depends on the bytes alone.
 */
module Framing {
  import opened Common
  import opened Utf8
  import Text

  const MAX_FRAME_BYTES := 1024 * 1024
  const NEWLINE: byte := 10
  const RETURN: byte := 13

  /** What comes after the last byte: the end of the input, or a read failure. */
  datatype Tail = Eof | Failure

  datatype FrameError = Unreadable | NotTerminated | TooLong | NotUtf8

  datatype FrameResult = NoMore | Line(text: string) | Refused(error: FrameError)

  datatype InputEvent = LineEvent(text: string) | EndEvent | FailedEvent(error: FrameError)

  function Flatten(chunks: seq<seq<byte>>): seq<byte> {
    if chunks == [] then [] else chunks[0] + Flatten(chunks[1..])
  }

  /** A buffered reader: what is left of it, piece by piece. */
  class BufRead {
    var chunks: seq<seq<byte>>
    const tail: Tail

    ghost predicate Valid()
      reads this
    {
      forall i :: 0 <= i < |chunks| ==> chunks[i] != []
    }

    function Stream(): seq<byte>
      reads this
    {
      Flatten(chunks)
    }

    constructor (chunks: seq<seq<byte>>, tail: Tail)
      requires forall i :: 0 <= i < |chunks| ==> chunks[i] != []
      ensures Valid() && this.chunks == chunks && this.tail == tail
    {
      this.chunks := chunks;
      this.tail := tail;
    }

    /** The buffered bytes; nothing at the end of the input; no value when reading fails. */
    method FillBuf() returns (available: Option<seq<byte>>)
      requires Valid()
      ensures available == if chunks != [] then Some(chunks[0]) else if tail.Eof? then Some([]) else None
    {
      if chunks != [] {
        available := Some(chunks[0]);
      } else {
        available := if tail.Eof? then Some([]) else None;
      }
    }

    method Consume(amount: nat)
      requires Valid() && chunks != [] && amount <= |chunks[0]|
      modifies this
      ensures Valid() && Stream() == old(Stream())[amount..] && |old(Stream())| >= amount
    {
      ghost var rest := Flatten(chunks[1..]);
      if amount == |chunks[0]| {
        chunks := chunks[1..];
      } else {
        assert (chunks[0] + rest)[amount..] == chunks[0][amount..] + rest;
        chunks := [chunks[0][amount..]] + chunks[1..];
      }
    }
  }

  /** The position of the first newline, or the length if there is none. */
  function Position(s: seq<byte>): (k: nat)
    ensures k <= |s| && (k < |s| ==> s[k] == NEWLINE) && NEWLINE !in s[..k]
  {
    if s == [] || s[0] == NEWLINE then 0
    else
      var k := Position(s[1..]);
      assert s[..k + 1] == [s[0]] + s[1..][..k];
      k + 1
  }

  function StripReturn(frame: seq<byte>): seq<byte> {
    if frame != [] && frame[|frame| - 1] == RETURN then frame[..|frame| - 1] else frame
  }

  function Text8(frame: seq<byte>): FrameResult {
    match Decode(StripReturn(frame))
    case None => Refused(NotUtf8)
    case Some(text) => Line(text)
  }

  /** The first frame of a whole byte stream. */
  function ReadFrame(s: seq<byte>, tail: Tail): FrameResult {
    var k := Position(s);
    if k == |s| then
      if k > MAX_FRAME_BYTES then Refused(TooLong)
      else if tail.Failure? then Refused(Unreadable)
      else if s == [] then NoMore
      else Refused(NotTerminated)
    else if k + 1 > MAX_FRAME_BYTES then Refused(TooLong)
    else Text8(s[..k])
  }

  /** What the stream holds after its first frame. */
  function AfterFrame(s: seq<byte>): seq<byte> {
    if Position(s) < |s| then s[Position(s) + 1..] else []
  }

  lemma {:induction false} PositionConcat(a: seq<byte>, b: seq<byte>)
    requires NEWLINE !in a
    ensures Position(a + b) == |a| + Position(b)
  {
    if a == [] {
      assert a + b == b;
    } else {
      PositionConcat(a[1..], b);
      assert (a + b)[1..] == a[1..] + b;
      assert a[0] in a;
    }
  }

  lemma {:induction false} PositionInPrefix(a: seq<byte>, b: seq<byte>)
    requires Position(a) < |a|
    ensures Position(a + b) == Position(a)
  {
    if a[0] != NEWLINE {
      PositionInPrefix(a[1..], b);
      assert (a + b)[1..] == a[1..] + b;
    }
  }

  lemma PositionFound(s: seq<byte>)
    ensures Position(s) < |s| <==> NEWLINE in s
  {
    assert s[..|s|] == s;
  }

  lemma NewlineInPiece(frame: seq<byte>, piece: seq<byte>, rest: seq<byte>)
    requires NEWLINE !in frame && Position(piece) < |piece|
    ensures Position(frame + (piece + rest)) == |frame| + Position(piece) < |frame + (piece + rest)|
    ensures (frame + (piece + rest))[..|frame| + Position(piece)] == frame + piece[..Position(piece)]
    ensures (frame + (piece + rest))[|frame| + (Position(piece) + 1)..] == (piece + rest)[Position(piece) + 1..]
  {
    PositionInPrefix(piece, rest);
    PositionConcat(frame, piece + rest);
    TakeAppended(frame, piece, rest, Position(piece));
    DropAppended(frame, piece + rest, Position(piece) + 1);
  }

  /** A newline in the next piece settles the frame. */
  lemma PieceEndsFrame(whole: seq<byte>, frame: seq<byte>, piece: seq<byte>, rest: seq<byte>, tail: Tail)
    requires whole == frame + (piece + rest) && NEWLINE !in frame && Position(piece) < |piece|
    ensures ReadFrame(whole, tail)
         == if |frame| + (Position(piece) + 1) > MAX_FRAME_BYTES then Refused(TooLong)
            else Text8(frame + piece[..Position(piece)])
    ensures AfterFrame(whole) == (piece + rest)[Position(piece) + 1..]
  {
    NewlineInPiece(frame, piece, rest);
    FrameEndsAt(whole, |frame| + Position(piece), tail);
  }

  lemma FrameEndsAt(s: seq<byte>, k: nat, tail: Tail)
    requires Position(s) == k < |s|
    ensures ReadFrame(s, tail) == if k + 1 > MAX_FRAME_BYTES then Refused(TooLong) else Text8(s[..k])
    ensures AfterFrame(s) == s[k + 1..]
  {
  }

  /** A piece without newline that does not fit settles it as well. */
  lemma PieceOverflows(whole: seq<byte>, frame: seq<byte>, piece: seq<byte>, rest: seq<byte>, tail: Tail)
    requires whole == frame + (piece + rest)
    requires NEWLINE !in frame && NEWLINE !in piece && |frame| + |piece| > MAX_FRAME_BYTES
    ensures ReadFrame(whole, tail) == Refused(TooLong)
  {
    PositionConcat(piece, rest);
    PositionConcat(frame, piece + rest);
  }

  method ReadInputFrame(input: BufRead) returns (r: FrameResult)
    requires input.Valid()
    modifies input
    ensures input.Valid()
    ensures r == ReadFrame(old(input.Stream()), input.tail)
    ensures r.Line? ==> input.Stream() == AfterFrame(old(input.Stream())) && |input.Stream()| < |old(input.Stream())|
  {
    ghost var whole := input.Stream();
    var frame: seq<byte> := [];
    while true
      invariant input.Valid()
      invariant whole == frame + input.Stream() && NEWLINE !in frame && |frame| <= MAX_FRAME_BYTES
      decreases |input.Stream()|
    {
      var available := input.FillBuf();
      if available == None || available == Some([]) {
        PositionFound(frame);
        assert whole == frame;
        if available.None? {
          return Refused(Unreadable);
        }
        return if frame == [] then NoMore else Refused(NotTerminated);
      }
      var piece := available.value;
      ghost var rest := Flatten(input.chunks[1..]);
      var newline := Position(piece);
      if newline < |piece| {
        PieceEndsFrame(whole, frame, piece, rest, input.tail);
        var consumed := newline + 1;
        if |frame| + consumed > MAX_FRAME_BYTES {
          return Refused(TooLong);
        }
        frame := frame + piece[..newline];
        input.Consume(consumed);
        return Text8(frame);
      }
      var consumed := |piece|;
      PositionFound(piece);
      if |frame| + consumed > MAX_FRAME_BYTES {
        PieceOverflows(whole, frame, piece, rest, input.tail);
        return Refused(TooLong);
      }
      AppendAssociates(frame, piece, rest);
      frame := frame + piece;
      input.Consume(consumed);
    }
  }

  /** Everything the reader thread sends for a stream: its lines, then how it ended. */
  function Events(s: seq<byte>, tail: Tail): seq<InputEvent>
    decreases |s|
  {
    match ReadFrame(s, tail)
    case NoMore => [EndEvent]
    case Refused(error) => [FailedEvent(error)]
    case Line(text) => [LineEvent(text)] + Events(AfterFrame(s), tail)
  }

  /** The reader thread, as long as the event loop listens: the same events for every way the input is cut. */
  method RunInputReader(input: BufRead) returns (events: seq<InputEvent>)
    requires input.Valid()
    modifies input
    ensures events == Events(old(input.Stream()), input.tail)
  {
    events := [];
    ghost var whole := Events(input.Stream(), input.tail);
    while true
      invariant input.Valid()
      invariant whole == events + Events(input.Stream(), input.tail)
      decreases |input.Stream()|
    {
      var frame := ReadInputFrame(input);
      match frame {
        case NoMore => return events + [EndEvent];
        case Refused(error) => return events + [FailedEvent(error)];
        case Line(text) => events := events + [LineEvent(text)];
      }
    }
  }

  /**
   A frame is accepted exactly when it is newline terminated, takes at most
   1 MiB with its newline, and is valid UTF-8 once a carriage return is cut.
   */
  lemma AcceptedIff(s: seq<byte>, tail: Tail, text: string)
    ensures ReadFrame(s, tail) == Line(text) <==>
      && NEWLINE in s && Position(s) + 1 <= MAX_FRAME_BYTES
      && StripReturn(s[..Position(s)]) == Encode(text)
  {
    PositionFound(s);
    if Position(s) < |s| {
      DecodesExactly(StripReturn(s[..Position(s)]), text);
    }
  }

  /** The bytes of lines written one after the other. */
  function Written(lines: seq<string>): seq<byte> {
    if lines == [] then [] else Encode(lines[0]) + [NEWLINE] + Written(lines[1..])
  }

  /** A line that can be carried: no newline inside, and short enough with its own. */
  predicate Carried(line: string) {
    '\n' !in line && Text.Utf8Bytes(line) + 1 <= MAX_FRAME_BYTES
  }

  predicate EndsInReturn(line: string) {
    line != "" && line[|line| - 1] == '\r'
  }

  lemma WrittenLineIsFirst(line: string, rest: seq<byte>)
    requires Carried(line)
    ensures Position(Encode(line) + [NEWLINE] + rest) == |Encode(line)| < MAX_FRAME_BYTES
    ensures AfterFrame(Encode(line) + [NEWLINE] + rest) == rest
    ensures (Encode(line) + [NEWLINE] + rest)[..|Encode(line)|] == Encode(line)
  {
    var b, whole := Encode(line), Encode(line) + [NEWLINE] + rest;
    AsciiStaysAscii(line, '\n');
    EncodedLength(line);
    PositionConcat(b, [NEWLINE] + rest);
    assert whole == b + ([NEWLINE] + rest);
    assert whole[|b| + 1..] == rest;
  }

  /** One line comes back as written, except that a final carriage return is lost. */
  lemma {:induction false} LineReadsBack(line: string, rest: seq<byte>, tail: Tail)
    requires Carried(line)
    ensures var r := ReadFrame(Encode(line) + [NEWLINE] + rest, tail);
            r == Line(if EndsInReturn(line) then line[..|line| - 1] else line)
  {
    WrittenLineIsFirst(line, rest);
    CutReturnDecodes(line);
  }

  lemma CutReturnDecodes(line: string)
    ensures Decode(StripReturn(Encode(line))) == Some(if EndsInReturn(line) then line[..|line| - 1] else line)
  {
    if EndsInReturn(line) {
      LastIsCut(line);
      DecodeEncoded(line[..|line| - 1]);
    } else {
      KeptWhole(line);
      DecodeEncoded(line);
    }
  }

  lemma LastIsCut(line: string)
    requires EndsInReturn(line)
    ensures StripReturn(Encode(line)) == Encode(line[..|line| - 1])
  {
    SplitsLast(line);
    EncodedReturn(line[..|line| - 1]);
  }

  lemma KeptWhole(line: string)
    requires !EndsInReturn(line)
    ensures StripReturn(Encode(line)) == Encode(line)
  {
    if line != "" { LastByte(line, '\r'); }
  }

  lemma EncodedReturn(init: string)
    ensures StripReturn(Encode(init + ['\r'])) == Encode(init)
  {
    EncodeConcat(init, ['\r']);
    ReturnIsCut(Encode(init));
  }

  lemma ReturnIsCut(b: seq<byte>)
    ensures Encode(['\r']) == [RETURN] && StripReturn(b + [RETURN]) == b
  {
    assert EncodeChar('\r') + [] == [RETURN];
  }

  function LineEvents(lines: seq<string>): seq<InputEvent> {
    if lines == [] then [] else [LineEvent(lines[0])] + LineEvents(lines[1..])
  }

  predicate CleanLines(lines: seq<string>) {
    forall i :: 0 <= i < |lines| ==> Carried(lines[i]) && !EndsInReturn(lines[i])
  }

  lemma FirstLineReadsBack(line: string, more: seq<byte>, tail: Tail)
    requires Carried(line) && !EndsInReturn(line)
    ensures Events(Encode(line) + [NEWLINE] + more, tail) == [LineEvent(line)] + Events(more, tail)
  {
    LineReadsBack(line, more, tail);
    WrittenLineIsFirst(line, more);
  }

  /** Lines written back to back are read back one by one, and then whatever follows them. */
  lemma {:induction false} LinesReadBack(lines: seq<string>, rest: seq<byte>, tail: Tail)
    requires CleanLines(lines)
    ensures Events(Written(lines) + rest, tail) == LineEvents(lines) + Events(rest, tail)
  {
    if lines == [] {
      assert Written(lines) + rest == rest;
    } else {
      var more := Written(lines[1..]) + rest;
      LinesReadBack(lines[1..], rest, tail);
      FirstLineReadsBack(lines[0], more, tail);
      AppendAssociates(Encode(lines[0]) + [NEWLINE], Written(lines[1..]), rest);
      AppendAssociates([LineEvent(lines[0])], LineEvents(lines[1..]), Events(rest, tail));
    }
  }

  /** The event loop gets exactly the frames the peer wrote, and then the end of the input. */
  lemma WrittenFramesArrive(lines: seq<string>)
    requires CleanLines(lines)
    ensures Events(Written(lines), Eof) == LineEvents(lines) + [EndEvent]
  {
    LinesReadBack(lines, [], Eof);
    assert Written(lines) + [] == Written(lines);
  }

  /** An input cut short inside a frame ends in a failure, after every complete frame has arrived. */
  lemma {:induction false} TruncationIsReported(lines: seq<string>, cut: seq<byte>)
    requires CleanLines(lines) && cut != [] && NEWLINE !in cut
    ensures Events(Written(lines) + cut, Eof)
         == LineEvents(lines) + [FailedEvent(if |cut| > MAX_FRAME_BYTES then TooLong else NotTerminated)]
  {
    LinesReadBack(lines, cut, Eof);
    PositionFound(cut);
  }
}
