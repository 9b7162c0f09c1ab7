/**
 The two pipes as bytes and text. `Composition` moves whole frames; here the
 frames are written as lines, cut into pieces anywhere, and read back by the
 bridge's reader and the client's line splitter.
 */
module ByteStreams {
  import opened Common
  import opened Protocol
  import opened Composition
  import Text
  import Server
  import Framing
  import C = Client
  import CP = ClientProperties

  /** The JSON codecs of the two sides. */
  datatype Codec = Codec(
    encodeRequest: Request -> string,
    decodeLine: string -> Line,
    encodeFrame: OutFrame -> string,
    decodeFrame: string -> C.InFrame)

  /** An encoded frame is one line: no raw newline in it, and no carriage return at its end. */
  predicate OneLine(s: string) {
    '\n' !in s && !Framing.EndsInReturn(s)
  }

  ghost predicate Faithful(codec: Codec) {
    && (forall r :: OneLine(codec.encodeRequest(r)) && codec.decodeLine(codec.encodeRequest(r)) == Frame(r))
    && (forall f :: OneLine(codec.encodeFrame(f)) && codec.decodeFrame(codec.encodeFrame(f)) == Wire(f))
  }

  // ----- requests

  function EncodedRequests(codec: Codec, requests: seq<Request>): (lines: seq<string>)
    ensures |lines| == |requests|
  {
    if requests == [] then [] else [codec.encodeRequest(requests[0])] + EncodedRequests(codec, requests[1..])
  }

  /** What the reader thread sends, as the event loop receives it. */
  function Received(codec: Codec, events: seq<Framing.InputEvent>): seq<Server.InputEvent> {
    if events == [] then []
    else
      var first := match events[0]
        case LineEvent(text) => Server.InputLine(codec.decodeLine(text))
        case EndEvent => Server.InputEnd
        case FailedEvent(_) => Server.InputFailed;
      [first] + Received(codec, events[1..])
  }

  function InputLines(requests: seq<Request>): (events: seq<Server.InputEvent>)
    ensures |events| == |requests|
    ensures forall i :: 0 <= i < |requests| ==> events[i] == Server.InputLine(Frame(requests[i]))
  {
    if requests == [] then [] else [Server.InputLine(Frame(requests[0]))] + InputLines(requests[1..])
  }

  /** The encoded request, with its newline, is within the bridge's frame limit. */
  predicate Fits(codec: Codec, r: Request) {
    Text.Utf8Bytes(codec.encodeRequest(r)) + 1 <= Framing.MAX_FRAME_BYTES
  }

  lemma {:induction false} EncodedAreClean(codec: Codec, requests: seq<Request>)
    requires Faithful(codec) && forall r :: r in requests ==> Fits(codec, r)
    ensures Framing.CleanLines(EncodedRequests(codec, requests))
  {
    if requests != [] {
      assert requests[0] in requests && OneLine(codec.encodeRequest(requests[0]));
      EncodedAreClean(codec, requests[1..]);
    }
  }

  lemma {:induction false} LinesAreReceived(codec: Codec, requests: seq<Request>, rest: seq<Framing.InputEvent>)
    requires Faithful(codec)
    ensures Received(codec, Framing.LineEvents(EncodedRequests(codec, requests)) + rest)
         == InputLines(requests) + Received(codec, rest)
  {
    var lines := EncodedRequests(codec, requests);
    if requests == [] {
      assert Framing.LineEvents(lines) + rest == rest;
    } else {
      var more := Framing.LineEvents(lines[1..]) + rest;
      LinesAreReceived(codec, requests[1..], rest);
      assert lines[1..] == EncodedRequests(codec, requests[1..]);
      AppendAssociates([Framing.LineEvent(lines[0])], Framing.LineEvents(lines[1..]), rest);
      assert ([Framing.LineEvent(lines[0])] + more)[1..] == more;
      AppendAssociates([Server.InputLine(Frame(requests[0]))], InputLines(requests[1..]), Received(codec, rest));
    }
  }

  /** The requests written to the bridge are the lines its event loop receives, and then the end of the input. */
  lemma {:induction false} RequestsArrive(codec: Codec, requests: seq<Request>)
    requires Faithful(codec) && forall r :: r in requests ==> Fits(codec, r)
    ensures Received(codec, Framing.Events(Framing.Written(EncodedRequests(codec, requests)), Framing.Eof))
         == InputLines(requests) + [Server.InputEnd]
  {
    EncodedAreClean(codec, requests);
    Framing.WrittenFramesArrive(EncodedRequests(codec, requests));
    LinesAreReceived(codec, requests, [Framing.EndEvent]);
    assert [Framing.EndEvent][1..] == [];
  }

  /** The bridge's reader over the client's bytes, whatever the pieces the pipe cuts them into. */
  method ReadRequests(codec: Codec, requests: seq<Request>, chunks: seq<seq<Framing.Utf8.byte>>)
    returns (events: seq<Framing.InputEvent>)
    requires Faithful(codec) && forall r :: r in requests ==> Fits(codec, r)
    requires forall i :: 0 <= i < |chunks| ==> chunks[i] != []
    requires Framing.Flatten(chunks) == Framing.Written(EncodedRequests(codec, requests))
    ensures Received(codec, events) == InputLines(requests) + [Server.InputEnd]
  {
    var input := new Framing.BufRead(chunks, Framing.Eof);
    events := Framing.RunInputReader(input);
    RequestsArrive(codec, requests);
  }

  /** The event a step of the composition puts in the server's queue for the reader, if it does. */
  function ReadBy(w: World, a: Action): seq<Server.InputEvent> {
    if a.ReadRequest? && Enabled(w, a) then [Server.InputLine(Frame(w.client.sent[w.taken]))] else []
  }

  /** All that the reads of a run have put in the queue. */
  function ReadIn(actions: seq<Action>): seq<Server.InputEvent> {
    if actions == [] then []
    else
      var init := actions[..|actions| - 1];
      ReadIn(init) + ReadBy(Run(init), actions[|actions| - 1])
  }

  lemma SentGrows(w: World, a: Action)
    ensures w.client.sent <= Next(w, a).client.sent
  {
    if Enabled(w, a) && ClientEvent(w, a).Some? && !a.Fault? {
      EventKeepsSent(w.client, ClientEvent(w, a).value);
    }
  }

  lemma EventKeepsSent(c: C.Client, e: C.Event)
    requires !e.Chunk?
    ensures c.sent <= C.Step(NoText, c, e).sent
  {
  }

  lemma ReadAdvances(w: World, a: Action)
    ensures Next(w, a).taken == w.taken + |ReadBy(w, a)|
    ensures |ReadBy(w, a)| <= 1
    ensures |ReadBy(w, a)| > 0 ==>
      w.taken < |w.client.sent| && ReadBy(w, a)[0] == Server.InputLine(Frame(w.client.sent[w.taken]))
  {
  }

  lemma {:induction false} ReadsAreSent(actions: seq<Action>)
    ensures var w := Run(actions);
      w.taken <= |w.client.sent| && ReadIn(actions) == InputLines(w.client.sent)[..w.taken]
  {
    if actions != [] {
      var init, last := actions[..|actions| - 1], actions[|actions| - 1];
      var w := Run(init);
      ReadsAreSent(init);
      SentGrows(w, last);
      ReadAdvances(w, last);
      LinesAdvance(w.client.sent, Next(w, last).client.sent, w.taken, ReadBy(w, last));
    }
  }

  /** One more request read, of a log that may have grown. */
  lemma LinesAdvance(sent: seq<Request>, grown: seq<Request>, taken: nat, more: seq<Server.InputEvent>)
    requires sent <= grown && taken <= |sent| && |more| <= 1
    requires |more| > 0 ==> taken < |sent| && more[0] == Server.InputLine(Frame(sent[taken]))
    ensures taken + |more| <= |grown|
    ensures InputLines(sent)[..taken] + more == InputLines(grown)[..taken + |more|]
  {
    LinesOfPrefix(sent, grown, taken);
    if more == [] {
      assert InputLines(grown)[..taken] + [] == InputLines(grown)[..taken];
    } else {
      var lines := InputLines(grown);
      assert more == [lines[taken]];
      SplitsLast(lines[..taken + 1]);
      assert lines[..taken + 1][..taken] == lines[..taken];
    }
  }

  lemma LinesOfPrefix(sent: seq<Request>, grown: seq<Request>, taken: nat)
    requires sent <= grown && taken <= |sent|
    ensures InputLines(sent)[..taken] == InputLines(grown)[..taken]
  {
    forall i | 0 <= i < taken ensures InputLines(sent)[i] == InputLines(grown)[i] {
      assert sent[i] == grown[i];
    }
  }

  /**
   In every run, what the composition's reads have put in the server's queue is
   what the reader thread sends first on the bytes the client has written.
   */
  lemma {:induction false} ReadsAreReaderEvents(codec: Codec, actions: seq<Action>)
    requires Faithful(codec) && forall r :: r in Run(actions).client.sent ==> Fits(codec, r)
    ensures var w := Run(actions);
      var events := Received(codec,
        Framing.Events(Framing.Written(EncodedRequests(codec, w.client.sent)), Framing.Eof));
      w.taken <= |events| && ReadIn(actions) == events[..w.taken]
  {
    RequestsArrive(codec, Run(actions).client.sent);
    ReadsAreSent(actions);
  }

  // ----- responses

  /** The output of the bridge as text: a line for each frame. */
  function Output(codec: Codec, frames: seq<OutFrame>): string {
    if frames == [] then "" else codec.encodeFrame(frames[0]) + "\n" + Output(codec, frames[1..])
  }

  function EncodedFrames(codec: Codec, frames: seq<OutFrame>): (lines: seq<string>)
    ensures |lines| == |frames|
  {
    if frames == [] then [] else [codec.encodeFrame(frames[0])] + EncodedFrames(codec, frames[1..])
  }

  /** The client after receiving whole frames one by one. */
  function ReceiveAll(c: C.Client, frames: seq<OutFrame>): C.Client
    decreases |frames|
  {
    if frames == [] then c else ReceiveAll(C.ReceiveFrame(c, Wire(frames[0])), frames[1..])
  }

  lemma {:induction false} NoNewline(s: string)
    requires '\n' !in s
    ensures C.Newline(s) == |s|
  {
    if s != "" {
      assert s[0] in s;
      NoNewline(s[1..]);
    }
  }

  lemma FirstOutputLine(line: string, more: string)
    requires OneLine(line)
    ensures var s := line + "\n" + more;
      C.Newline(s) == |line| < |s| && CP.FirstLine(s) == line && CP.AfterLine(s) == more
  {
    var s := line + "\n" + more;
    assert s == line + ("\n" + more);
    NoNewline(line);
    CP.NewlineOfConcat(line, "\n" + more);
    SplitAppended(line, "\n" + more, |line|);
    assert s[|line| + 1..] == more;
  }

  lemma {:induction false} OutputLines(codec: Codec, frames: seq<OutFrame>)
    requires Faithful(codec)
    ensures CP.Lines(Output(codec, frames)) == EncodedFrames(codec, frames)
    ensures |CP.Rest(Output(codec, frames))| == 0
  {
    if frames != [] {
      OutputLines(codec, frames[1..]);
      FirstOutputLine(codec.encodeFrame(frames[0]), Output(codec, frames[1..]));
    }
  }

  lemma ReceivingKeepsFailed(c: C.Client, f: C.InFrame)
    requires c.state.FailedState? && CP.Tidy(c)
    ensures C.ReceiveFrame(c, f) == c
  {
  }

  lemma {:induction false} FailedReceivesNothing(c: C.Client, frames: seq<OutFrame>)
    requires c.state.FailedState? && CP.Tidy(c)
    ensures ReceiveAll(c, frames) == c
    decreases |frames|
  {
    if frames != [] {
      ReceivingKeepsFailed(c, Wire(frames[0]));
      FailedReceivesNothing(c, frames[1..]);
    }
  }

  /** Delivering decoded lines, which stops at a failure, is receiving every frame. */
  lemma {:induction false} DeliverIsReceive(codec: Codec, c: C.Client, frames: seq<OutFrame>)
    requires Faithful(codec) && CP.Inv(c) && CP.Coherent(c)
    ensures CP.Deliver(codec.decodeFrame, c, EncodedFrames(codec, frames)) == ReceiveAll(c, frames)
    decreases |frames|
  {
    if c.failure.Some? {
      FailedReceivesNothing(c, frames);
    } else if frames != [] {
      var d := C.ReceiveFrame(c, Wire(frames[0]));
      CP.ReceiveKeepsInv(c, Wire(frames[0]));
      CP.ReceiveKeepsCoherence(c, c.buffer, Wire(frames[0]));
      DeliverIsReceive(codec, d, frames[1..]);
      assert EncodedFrames(codec, frames)[1..] == EncodedFrames(codec, frames[1..]);
    }
  }

  /** However the output is cut into chunks, the client's splitter receives the frames written, and keeps nothing. */
  lemma {:induction false} FramesArrive(codec: Codec, c: C.Client, frames: seq<OutFrame>, chunks: seq<string>)
    requires Faithful(codec) && CP.Inv(c) && CP.Coherent(c) && !C.Ended(c) && |c.buffer| == 0
    requires CP.Join(chunks) == Output(codec, frames) && !CP.Trips(codec.decodeFrame, c, chunks)
    ensures var fed := CP.Feed(codec.decodeFrame, c, chunks);
      CP.Blank(fed) == ReceiveAll(CP.Blank(c), frames) && (fed.failure.None? ==> |fed.buffer| == 0)
  {
    OutputLines(codec, frames);
    assert c.buffer + CP.Join(chunks) == Output(codec, frames);
    assert CP.Rest(c.buffer) == c.buffer;
    CP.FeedDeliversLines(codec.decodeFrame, c, chunks);
    assert CP.Blank(c) == c;
    DeliverIsReceive(codec, c, frames);
  }

  /** The composition after delivering `k` frames. */
  function Deliveries(w: World, k: nat): World
    decreases k
  {
    if k == 0 then w else Deliveries(Next(w, Deliver), k - 1)
  }

  lemma NextDelivery(w: World)
    requires !w.closed && w.delivered < |w.server.session.output|
    ensures Next(w, Deliver) == w.(client := C.ReceiveFrame(w.client, Wire(w.server.session.output[w.delivered])),
                                   delivered := w.delivered + 1)
  {
  }

  lemma {:induction false} DeliveriesReceive(w: World, k: nat, frames: seq<OutFrame>)
    requires !w.closed && w.delivered + k <= |w.server.session.output|
    requires frames == w.server.session.output[w.delivered..w.delivered + k]
    ensures Deliveries(w, k).client == ReceiveAll(w.client, frames)
    decreases k
  {
    if k > 0 {
      NextDelivery(w);
      DeliveriesReceive(Next(w, Deliver), k - 1, frames[1..]);
    }
  }

  /** The output a world has not delivered yet, as far as `k` frames. */
  function Undelivered(w: World, k: nat): seq<OutFrame>
    requires w.delivered + k <= |w.server.session.output|
  {
    w.server.session.output[w.delivered..w.delivered + k]
  }

  lemma ChunksDeliver(codec: Codec, w: World, k: nat, chunks: seq<string>)
    requires Faithful(codec) && CP.Inv(w.client) && CP.Coherent(w.client) && !C.Ended(w.client)
    requires |w.client.buffer| == 0 && !w.closed && w.delivered + k <= |w.server.session.output|
    requires CP.Join(chunks) == Output(codec, Undelivered(w, k)) && !CP.Trips(codec.decodeFrame, w.client, chunks)
    ensures CP.Blank(CP.Feed(codec.decodeFrame, w.client, chunks)) == Deliveries(w, k).client
  {
    FramesArrive(codec, w.client, Undelivered(w, k), chunks);
    assert CP.Blank(w.client) == w.client;
    DeliveriesReceive(w, k, Undelivered(w, k));
  }

  /**
   In every run, feeding a live client the bridge's next output as text, cut into
   any chunks that stay within the size limit, leaves it exactly as the
   composition's own deliveries do.
   */
  lemma {:induction false} ChunksAreDeliveries(codec: Codec, actions: seq<Action>, k: nat, chunks: seq<string>)
    requires Faithful(codec)
    requires var w := Run(actions); Live(w) && !C.Ended(w.client) && w.delivered + k <= |w.server.session.output|
    requires CP.Join(chunks) == Output(codec, Undelivered(Run(actions), k))
    requires !CP.Trips(codec.decodeFrame, Run(actions).client, chunks)
    ensures var w := Run(actions);
      CP.Blank(CP.Feed(codec.decodeFrame, w.client, chunks)) == Deliveries(w, k).client
  {
    RunIsOpen(actions);
    ChunksDeliver(codec, Run(actions), k, chunks);
  }

  lemma RunIsOpen(actions: seq<Action>)
    requires Live(Run(actions)) && !C.Ended(Run(actions).client)
    ensures var w := Run(actions);
      CP.Inv(w.client) && !w.closed && CP.Coherent(w.client) && |w.client.buffer| == 0
  {
    RunKeepsInv(actions);
    OpenUntilEnded(Run(actions));
  }

  lemma OpenUntilEnded(w: World)
    requires Live(w) && Linked(w) && !C.Ended(w.client)
    ensures !w.closed && CP.Coherent(w.client) && |w.client.buffer| == 0
  {
  }
}
