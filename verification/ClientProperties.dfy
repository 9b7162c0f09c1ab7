/** What holds of the client against any peer, for every order of events. */
module ClientProperties {
  import opened Common
  import opened Text
  import opened Protocol
  import opened RequestIds
  import opened Client

  function SettledIds(settled: seq<Settled>): seq<Id> {
    if settled == [] then [] else SettledIds(settled[..|settled| - 1]) + [settled[|settled| - 1].id]
  }

  lemma {:induction false} SettledIdsConcat(a: seq<Settled>, b: seq<Settled>)
    ensures SettledIds(a + b) == SettledIds(a) + SettledIds(b)
  {
    if b == [] {
      assert a + b == a;
    } else {
      SettledIdsConcat(a, b[..|b| - 1]);
      assert (a + b)[..|a + b| - 1] == a + b[..|b| - 1];
    }
  }

  /** Every promise ever made is settled or pending, and never both or twice. */
  ghost predicate Conserved(c: Client) {
    multiset(SettledIds(c.settled)) + multiset(c.pending) == multiset(Names(0, c.nextRequest))
  }

  /** What else every reachable client keeps. */
  ghost predicate Tidy(c: Client) {
    && (forall id :: id in c.listeners ==> id in c.pending)
    && (Ended(c) || c.failure.Some? ==> c.pending == [])
    && |c.readyLog| == (if c.state.Starting? then 0 else 1)
    && (c.startupTimer ==> c.state.Starting?)
    && (c.state.FailedState? ==> c.failure.Some?)
    && (c.failure.Some? ==> c.state.FailedState? || c.state.Stopping? || c.state.Stopped?)
  }

  ghost predicate Inv(c: Client) {
    Conserved(c) && Tidy(c)
  }

  lemma {:induction false} RejectAllIds(pending: seq<Id>, failure: Failure)
    ensures SettledIds(RejectAll(pending, failure)) == pending
  {
    if pending != [] {
      var init := pending[..|pending| - 1];
      RejectAllIds(init, failure);
      assert RejectAll(pending, failure)[..|pending| - 1] == RejectAll(init, failure);
    }
  }

  lemma FailKeepsInv(c: Client, failure: Failure)
    requires Inv(c)
    ensures Inv(Fail(c, failure)) && Ended(Fail(c, failure))
  {
    SettledIdsConcat(c.settled, RejectAll(c.pending, failure));
    RejectAllIds(c.pending, failure);
  }

  lemma {:induction false} WithoutTakesOne(pending: seq<Id>, id: Id)
    requires id in pending
    ensures multiset(Without(pending, id)) == multiset(pending) - multiset{id}
  {
    assert pending == [pending[0]] + pending[1..];
    if pending[0] != id {
      WithoutTakesOne(pending[1..], id);
    }
  }

  lemma SettleKeepsInv(c: Client, id: Id, how: Settlement)
    requires Inv(c) && id in c.pending
    ensures Inv(Settle(c, id, how))
  {
    WithoutTakesOne(c.pending, id);
    SettledIdsConcat(c.settled, [Settled(id, how)]);
    assert SettledIds([Settled(id, how)]) == [id];
    forall other | other in c.listeners - {id} ensures other in Without(c.pending, id) {
      assert other in multiset(c.pending) - multiset{id};
    }
  }

  lemma SendKeepsInv(c: Client, verb: Verb, params: Params, listens: bool, throws: bool)
    requires Inv(c) && c.state.ReadyState?
    ensures Inv(SendRequest(c, verb, params, listens, throws))
  {
    var id := RequestName(c.nextRequest + 1);
    var made := c.(nextRequest := c.nextRequest + 1,
                   pending := c.pending + [id],
                   listeners := c.listeners + if listens then {id} else {});
    MakingConserves(c, made);
    assert Tidy(made);
    if throws {
      FailKeepsInv(made, InputFailed);
    }
  }

  /** A new promise is pending. */
  lemma MakingConserves(c: Client, made: Client)
    requires Conserved(c) && made.nextRequest == c.nextRequest + 1 && made.settled == c.settled
    requires made.pending == c.pending + [RequestName(c.nextRequest + 1)]
    ensures Conserved(made)
  {
    var n, id := c.nextRequest, RequestName(c.nextRequest + 1);
    assert Names(0, n + 1) == Names(0, n) + [id];
    assert multiset(c.pending + [id]) == multiset(c.pending) + multiset{id};
  }

  /** How a response settles the promise it answers. */
  function HowSettled(status: ResponseStatus): Settlement {
    match status
    case IsOk(value) => Resolved(value)
    case IsCancelled => RejectedCancelled
    case IsError(code) => RejectedError(code)
    case IsOther => RejectedBy(ResponseInvalid)
  }

  lemma ResponseEffect(c: Client, id: Id, status: ResponseStatus)
    requires id in c.pending
    ensures var settled := Settle(c, id, HowSettled(status));
      ReceiveFrame(c, ResponseOf(id, status)) ==
        if status.IsOther? then Fail(settled, ResponseInvalid)
        else if status.IsError? && status.code == ERROR_INVALID then Fail(settled, Reported(status.code))
        else settled
  {
  }

  lemma ResponseKeepsInv(c: Client, id: Id, status: ResponseStatus)
    requires Inv(c) && id in c.pending
    ensures Inv(ReceiveFrame(c, ResponseOf(id, status)))
  {
    var settled := Settle(c, id, HowSettled(status));
    ResponseEffect(c, id, status);
    SettleKeepsInv(c, id, HowSettled(status));
    if status.IsOther? {
      FailKeepsInv(settled, ResponseInvalid);
    } else if status.IsError? && status.code == ERROR_INVALID {
      FailKeepsInv(settled, Reported(status.code));
    }
  }

  lemma ReceiveKeepsInv(c: Client, frame: InFrame)
    requires Inv(c)
    ensures Inv(ReceiveFrame(c, frame))
  {
    if frame.ResponseOf? && frame.id in c.pending {
      ResponseKeepsInv(c, frame.id, frame.status);
    } else {
      FailKeepsInv(c, FailureOf(frame));
    }
  }

  lemma FailIsApart(c: Client, buffer: string, failure: Failure)
    ensures Fail(c.(buffer := buffer), failure) == Fail(c, failure).(buffer := buffer)
  {
  }

  lemma SettleIsApart(c: Client, buffer: string, id: Id, how: Settlement)
    ensures Settle(c.(buffer := buffer), id, how) == Settle(c, id, how).(buffer := buffer)
  {
  }

  /** Receiving a frame neither reads nor changes the buffer. */
  lemma BufferIsApart(c: Client, buffer: string, frame: InFrame)
    ensures ReceiveFrame(c.(buffer := buffer), frame) == ReceiveFrame(c, frame).(buffer := buffer)
  {
    if frame.ResponseOf? && frame.id in c.pending {
      var settled := Settle(c, frame.id, HowSettled(frame.status));
      ResponseEffect(c, frame.id, frame.status);
      ResponseEffect(c.(buffer := buffer), frame.id, frame.status);
      SettleIsApart(c, buffer, frame.id, HowSettled(frame.status));
      FailIsApart(settled, buffer, ResponseInvalid);
      if frame.status.IsError? { FailIsApart(settled, buffer, Reported(frame.status.code)); }
    } else {
      FailIsApart(c, buffer, FailureOf(frame));
    }
  }

  /** Why the client fails on a frame that is neither `ready` nor a response to a pending request. */
  function FailureOf(frame: InFrame): Failure {
    match frame
    case NotJson => FrameNotJson
    case OtherApi => ApiMismatch
    case OtherType => FrameTypeInvalid
    case ReadyEvent(_) => ReadyInvalid
    case FailureEvent(code) => Reported(code)
    case OtherEvent => EventUnsupported
    case IncompleteResponse => ResponseInvalid
    case ResponseOf(id, _) => ResponseUnexpected(id)
  }

  lemma {:induction false} DrainKeepsInv(decode: string -> InFrame, c: Client)
    requires Inv(c)
    ensures Inv(Drain(decode, c))
    decreases |c.buffer|
  {
    var k := Newline(c.buffer);
    if k < |c.buffer| {
      var d := c.(buffer := c.buffer[k + 1..]);
      assert Inv(d);
      ReceiveKeepsInv(d, decode(TrimReturn(c.buffer[..k])));
      var received := ReceiveFrame(d, decode(TrimReturn(c.buffer[..k])));
      if received.failure.None? {
        DrainKeepsInv(decode, received);
      }
    }
  }

  lemma ChunkKeepsInv(decode: string -> InFrame, c: Client, text: string)
    requires Inv(c)
    ensures Inv(ReceiveChunk(decode, c, text))
  {
    var joined := c.(buffer := c.buffer + text);
    assert Inv(joined);
    FailKeepsInv(joined, OutputTooLarge);
    DrainKeepsInv(decode, joined);
  }

  lemma AbortKeepsInv(c: Client, id: Id, throws: bool)
    requires Inv(c)
    ensures Inv(OnAbort(c, id, throws))
  {
    var d := c.(listeners := c.listeners - {id});
    assert Inv(d);
    if c.state.ReadyState? { SendKeepsInv(d, Verb.Cancel, RequestId(id), false, throws); }
  }

  lemma ShutdownKeepsInv(c: Client, throws: bool)
    requires Inv(c)
    ensures Inv(CallShutdownOn(c, throws))
  {
    if c.state.ReadyState? {
      SendKeepsInv(c, Verb.Shutdown, NoParams, false, throws);
      assert Conserved(SendRequest(c, Verb.Shutdown, NoParams, false, throws));
    }
  }

  /** The events that can only end the client. */
  predicate Terminal(e: Event) {
    e.StdoutEnd? || e.Stderr? || e.SpawnError? || e.Close? || e.StartupTimeout? || e.ShutdownTimeout? || e.WriteFailed?
  }

  function TerminalFailure(c: Client, e: Event): Failure
    requires Terminal(e)
  {
    match e
    case StdoutEnd => if c.buffer != "" then FrameIncomplete else OutputClosed
    case Stderr => UnexpectedStderr
    case SpawnError => SpawnFailed
    case Close(_) => Crashed
    case StartupTimeout => StartupTimedOut
    case ShutdownTimeout => ShutdownTimedOut
    case WriteFailed => InputFailed
  }

  lemma TerminalEffect(decode: string -> InFrame, c: Client, e: Event)
    requires Terminal(e)
    ensures Step(decode, c, e) in [c, Fail(c, TerminalFailure(c, e))]
            || (c.state.Stopping? && c.pending == [] && Step(decode, c, e) == c.(state := Stopped))
  {
  }

  lemma TerminalKeepsInv(decode: string -> InFrame, c: Client, e: Event)
    requires Inv(c) && Terminal(e)
    ensures Inv(Step(decode, c, e))
  {
    TerminalEffect(decode, c, e);
    FailKeepsInv(c, TerminalFailure(c, e));
  }

  lemma StepKeepsInv(decode: string -> InFrame, c: Client, e: Event)
    requires Inv(c)
    ensures Inv(Step(decode, c, e))
  {
    match e
    case CallRequest(verb, params, aborted, listens, throws) =>
      if c.state.ReadyState? { SendKeepsInv(c, verb, params, listens, throws); }
    case AbortSignalled(id, throws) => AbortKeepsInv(c, id, throws);
    case CallShutdown(throws) => ShutdownKeepsInv(c, throws);
    case Chunk(text) => ChunkKeepsInv(decode, c, text);
    case _ => TerminalKeepsInv(decode, c, e);
  }

  lemma {:induction false} RunKeepsInv(decode: string -> InFrame, events: seq<Event>)
    ensures Inv(Run(decode, events))
  {
    if events == [] {
      assert Names(0, 0) == [];
    } else {
      RunKeepsInv(decode, events[..|events| - 1]);
      StepKeepsInv(decode, Run(decode, events[..|events| - 1]), events[|events| - 1]);
    }
  }

  // ----- settlement

  /** No request promise settles twice, nor does the ready promise. */
  lemma {:induction false} SettlesAtMostOnce(decode: string -> InFrame, events: seq<Event>, id: Id)
    ensures var c := Run(decode, events);
      && multiset(SettledIds(c.settled))[id] + multiset(c.pending)[id] <= 1
      && |c.readyLog| <= 1
  {
    RunKeepsInv(decode, events);
    var c := Run(decode, events);
    NamesOnce(c.nextRequest, id);
    assert (multiset(SettledIds(c.settled)) + multiset(c.pending))[id] <= 1;
  }

  /** A failed or stopped client owes nothing: every promise it made has settled, once. */
  lemma {:induction false} EndedOwesNothing(decode: string -> InFrame, events: seq<Event>)
    requires Ended(Run(decode, events))
    ensures var c := Run(decode, events);
      && c.pending == [] && c.listeners == {}
      && multiset(SettledIds(c.settled)) == multiset(Names(0, c.nextRequest))
      && |c.readyLog| == 1
  {
    RunKeepsInv(decode, events);
  }

  /** Once the child has closed, the client has failed or stopped. */
  lemma {:induction false} CloseEnds(decode: string -> InFrame, events: seq<Event>, code: int)
    ensures Ended(Run(decode, events + [Close(code)]))
  {
    assert (events + [Close(code)])[..|events|] == events;
    RunKeepsInv(decode, events);
    FailKeepsInv(Run(decode, events), Crashed);
  }

  /** A failed or stopped client ignores every event. */
  lemma EndedIsAbsorbing(decode: string -> InFrame, c: Client, e: Event)
    requires Tidy(c) && Ended(c)
    ensures Step(decode, c, e) == c
  {
    assert forall id :: id !in c.listeners;
  }

  /** `failure` is set exactly in the failed state. */
  predicate Coherent(c: Client) {
    c.failure.Some? <==> c.state.FailedState?
  }

  lemma ReceiveKeepsCoherence(c: Client, buffer: string, frame: InFrame)
    requires Coherent(c)
    ensures Coherent(ReceiveFrame(c.(buffer := buffer), frame))
  {
  }

  lemma {:induction false} DrainKeepsCoherence(decode: string -> InFrame, c: Client)
    requires Coherent(c)
    ensures Coherent(Drain(decode, c))
    decreases |c.buffer|
  {
    var k := Newline(c.buffer);
    if k < |c.buffer| {
      var frame := decode(TrimReturn(c.buffer[..k]));
      ReceiveKeepsCoherence(c, c.buffer[k + 1..], frame);
      var received := ReceiveFirst(decode, c);
      if received.failure.None? {
        DrainKeepsCoherence(decode, received);
      }
    }
  }

  /**
   A recorded failure leaves the client in the failed state, unless it comes
   from a write that throws inside `shutdown()`: then the state is overwritten.
   */
  lemma FailedUnlessShutdownThrows(decode: string -> InFrame, c: Client, e: Event)
    requires Coherent(c)
    ensures Coherent(Step(decode, c, e)) <==> !(c.state.ReadyState? && e == CallShutdown(true))
  {
    if e.Chunk? {
      DrainKeepsCoherence(decode, c.(buffer := c.buffer + e.text));
    }
  }

  // ----- chunking

  function FirstLine(s: string): string {
    TrimReturn(s[..Newline(s)])
  }

  function AfterLine(s: string): (rest: string)
    requires Newline(s) < |s|
    ensures |rest| < |s|
  {
    s[Newline(s) + 1..]
  }

  /** The complete lines of a text, and what follows the last newline. */
  function Lines(s: string): seq<string> {
    if Newline(s) == |s| then [] else [FirstLine(s)] + Lines(AfterLine(s))
  }

  function Rest(s: string): string {
    if Newline(s) == |s| then s else Rest(AfterLine(s))
  }

  /** A line ends at its newline; one carriage return before that is not part of it. */
  lemma LineEndings(line: string, more: string)
    requires '\n' !in line
    ensures Lines(line + "\r" + "\n" + more) == [line] + Lines(more)
    ensures line == "" || line[|line| - 1] != '\r' ==> Lines(line + "\n" + more) == [line] + Lines(more)
  {
    NoNewline(line);
    NoNewline(line + "\r");
    EndedLine(line, more);
    EndedLine(line + "\r", more);
    ReturnIsTrimmed(line);
  }

  lemma ReturnIsTrimmed(line: string)
    ensures TrimReturn(line + "\r") == line
  {
    assert (line + "\r")[..|line|] == line;
  }

  lemma {:induction false} NoNewline(s: string)
    requires '\n' !in s
    ensures Newline(s) == |s|
  {
    if s != "" { NoNewline(s[1..]); }
  }

  lemma EndedLine(line: string, more: string)
    requires Newline(line) == |line|
    ensures Lines(line + "\n" + more) == [TrimReturn(line)] + Lines(more)
  {
    var text := line + "\n" + more;
    AppendAssociates(line, "\n", more);
    NewlineOfConcat(line, "\n" + more);
    assert text[..|line|] == line && text[|line| + 1..] == more;
  }

  /** Receives lines until none is left or the client has failed. */
  function Deliver(decode: string -> InFrame, c: Client, lines: seq<string>): Client
    decreases |lines|
  {
    if lines == [] || c.failure.Some? then c
    else Deliver(decode, ReceiveFrame(c, decode(lines[0])), lines[1..])
  }

  /** The client but for its buffer. */
  function Blank(c: Client): Client {
    c.(buffer := "")
  }

  lemma {:induction false} NewlineIsFirst(s: string)
    ensures forall i :: 0 <= i < Newline(s) ==> s[i] != '\n'
    ensures Newline(s) < |s| ==> s[Newline(s)] == '\n'
  {
    if s != "" && s[0] != '\n' {
      NewlineIsFirst(s[1..]);
      assert forall i :: 1 <= i < |s| ==> s[i] == s[1..][i - 1];
    }
  }

  lemma {:induction false} NewlineOfConcat(a: string, b: string)
    ensures Newline(a + b) == if Newline(a) < |a| then Newline(a) else |a| + Newline(b)
  {
    if a == "" {
      assert a + b == b;
    } else if a[0] != '\n' {
      NewlineOfConcat(a[1..], b);
      assert (a + b)[1..] == a[1..] + b;
    }
  }

  lemma {:induction false} RestHasNoNewline(s: string)
    ensures Newline(Rest(s)) == |Rest(s)| && '\n' !in Rest(s)
    decreases |s|
  {
    if Newline(s) < |s| {
      RestHasNoNewline(AfterLine(s));
    } else {
      NewlineIsFirst(s);
    }
  }

  lemma {:induction false} RestOfConcat(a: string, b: string)
    ensures Rest(a + b) == Rest(Rest(a) + b)
    decreases |a|
  {
    if Newline(a) < |a| {
      RestOfConcat(AfterLine(a), b);
      LineOfConcat(a, b);
    }
  }

  lemma PrependAssociates<T>(x: T, a: seq<T>, b: seq<T>)
    ensures [x] + (a + b) == ([x] + a) + b
  {
  }

  lemma {:induction false} LinesOfConcat(a: string, b: string)
    ensures Lines(a + b) == Lines(a) + Lines(Rest(a) + b)
    decreases |a|
  {
    if Newline(a) < |a| {
      LinesOfConcat(AfterLine(a), b);
      LineOfConcat(a, b);
      PrependAssociates(FirstLine(a), Lines(AfterLine(a)), Lines(Rest(a) + b));
    } else {
      assert [] + Lines(a + b) == Lines(a + b);
    }
  }

  /** Text behind a complete line leaves it alone. */
  lemma LineOfConcat(a: string, b: string)
    requires Newline(a) < |a|
    ensures Newline(a + b) < |a + b| && FirstLine(a + b) == FirstLine(a) && AfterLine(a + b) == AfterLine(a) + b
  {
    NewlineOfConcat(a, b);
    SplitAppended(a, b, Newline(a));
    SplitAppended(a, b, Newline(a) + 1);
  }

  lemma {:induction false} DrainDelivers(decode: string -> InFrame, c: Client)
    requires c.failure.None?
    ensures Blank(Drain(decode, c)) == Deliver(decode, Blank(c), Lines(c.buffer))
    ensures Drain(decode, c).failure.None? ==> Drain(decode, c).buffer == Rest(c.buffer)
    decreases |c.buffer|
  {
    if Newline(c.buffer) < |c.buffer| {
      FirstIsDelivered(decode, c);
      var received := ReceiveFirst(decode, c);
      if received.failure.None? {
        DrainDelivers(decode, received);
      }
    }
  }

  lemma FirstIsDelivered(decode: string -> InFrame, c: Client)
    requires c.failure.None? && Newline(c.buffer) < |c.buffer|
    ensures var received := ReceiveFirst(decode, c);
      && received.buffer == c.buffer[Newline(c.buffer) + 1..]
      && Deliver(decode, Blank(c), Lines(c.buffer)) == Deliver(decode, Blank(received), Lines(received.buffer))
  {
    var first, rest := FirstLine(c.buffer), AfterLine(c.buffer);
    BufferIsApart(c, rest, decode(first));
    BufferIsApart(c, "", decode(first));
    assert Lines(c.buffer)[0] == first && Lines(c.buffer)[1..] == Lines(rest);
  }

  lemma {:induction false} DeliverConcat(decode: string -> InFrame, c: Client, a: seq<string>, b: seq<string>)
    ensures Deliver(decode, c, a + b) == Deliver(decode, Deliver(decode, c, a), b)
    decreases |a|
  {
    if a == [] {
      assert a + b == b;
    } else if c.failure.None? {
      assert (a + b)[1..] == a[1..] + b;
      DeliverConcat(decode, ReceiveFrame(c, decode(a[0])), a[1..], b);
    }
  }

  function Feed(decode: string -> InFrame, c: Client, chunks: seq<string>): Client
    decreases |chunks|
  {
    if chunks == [] then c else Feed(decode, Step(decode, c, Chunk(chunks[0])), chunks[1..])
  }

  function Join(chunks: seq<string>): string {
    if chunks == [] then "" else chunks[0] + Join(chunks[1..])
  }

  /** Some chunk makes the joined buffer of a live client exceed the frame limit. */
  predicate Trips(decode: string -> InFrame, c: Client, chunks: seq<string>)
    decreases |chunks|
  {
    chunks != [] && !Ended(c) &&
    (Utf8Bytes(c.buffer + chunks[0]) > MAX_OUTPUT_FRAME_BYTES
     || Trips(decode, Step(decode, c, Chunk(chunks[0])), chunks[1..]))
  }

  lemma {:induction false} DeliverNeverStops(decode: string -> InFrame, c: Client, lines: seq<string>)
    requires Coherent(c) && !c.state.Stopped?
    ensures Coherent(Deliver(decode, c, lines)) && !Deliver(decode, c, lines).state.Stopped?
    decreases |lines|
  {
    if lines != [] && c.failure.None? {
      DeliverNeverStops(decode, ReceiveFrame(c, decode(lines[0])), lines[1..]);
    }
  }

  /** A failed client ignores chunks. */
  lemma {:induction false} FeedAfterFailure(decode: string -> InFrame, c: Client, chunks: seq<string>)
    requires Ended(c)
    ensures Feed(decode, c, chunks) == c
    decreases |chunks|
  {
    if chunks != [] {
      FeedAfterFailure(decode, c, chunks[1..]);
    }
  }

  /** Feeding a stream in chunks that never trip delivers its lines, and keeps what follows the last one. */
  lemma {:induction false} FeedDeliversLines(decode: string -> InFrame, c: Client, chunks: seq<string>)
    requires c.failure.None? && !Ended(c) && Rest(c.buffer) == c.buffer
    requires !Trips(decode, c, chunks)
    ensures var fed := Feed(decode, c, chunks);
      && Blank(fed) == Deliver(decode, Blank(c), Lines(c.buffer + Join(chunks)))
      && (fed.failure.None? ==> fed.buffer == Rest(c.buffer + Join(chunks)))
    decreases |chunks|
  {
    var stream := c.buffer + Join(chunks);
    if chunks == [] {
      assert stream == c.buffer;
      RestHasNoNewline(c.buffer);
    } else {
      var first := c.buffer + chunks[0];
      var c1 := Step(decode, c, Chunk(chunks[0]));
      assert stream == first + Join(chunks[1..]);
      LinesOfConcat(first, Join(chunks[1..]));
      RestOfConcat(first, Join(chunks[1..]));
      DrainDelivers(decode, c.(buffer := first));
      DeliverConcat(decode, Blank(c), Lines(first), Lines(Rest(first) + Join(chunks[1..])));
      DeliverNeverStops(decode, Blank(c), Lines(first));
      if c1.failure.None? {
        RestHasNoNewline(first);
        FeedDeliversLines(decode, c1, chunks[1..]);
      } else {
        FeedAfterFailure(decode, c1, chunks[1..]);
      }
    }
  }

  /**
   Two chunkings of one stream, neither of which trips the size check, leave
   the client in the same state with the same settlements; the line left over
   is the same too unless the client failed, and holds no newline.
   */
  lemma ChunkingIsIrrelevant(decode: string -> InFrame, c: Client, one: seq<string>, other: seq<string>)
    requires c.failure.None? && !Ended(c) && Rest(c.buffer) == c.buffer
    requires Join(one) == Join(other)
    requires !Trips(decode, c, one) && !Trips(decode, c, other)
    ensures var a, b := Feed(decode, c, one), Feed(decode, c, other);
      && Blank(a) == Blank(b)
      && (a.failure.None? ==> a == b && '\n' !in a.buffer)
  {
    FeedDeliversLines(decode, c, one);
    FeedDeliversLines(decode, c, other);
    RestHasNoNewline(c.buffer + Join(one));
  }

  /** A line of half the limit fits beside nothing, and not beside another such line. */
  lemma HalfLine() returns (line: string)
    ensures Utf8Bytes(line) <= MAX_OUTPUT_FRAME_BYTES < Utf8Bytes(line + line)
    ensures |Rest(line)| == 0
  {
    var body := seq(MAX_OUTPUT_FRAME_BYTES / 2, _ => 'x');
    line := body + "\n";
    Utf8BytesAscii(line);
    Utf8BytesAscii(line + line);
    NewlineOfConcat(body, "\n");
    NewlineIsFirst(body);
    assert line[|body| + 1..] == "";
  }

  /** The size check is on the joined buffer: two short lines may trip it together and not apart. */
  lemma ShortLinesMayTripTogether(decode: string -> InFrame, c: Client)
    requires !Ended(c) && c.failure.None? && c.buffer == ""
    ensures exists line ::
      Utf8Bytes(line) <= MAX_OUTPUT_FRAME_BYTES && Trips(decode, c, [line + line]) && !Trips(decode, c, [line, line])
  {
    var line := HalfLine();
    assert c.buffer + line == line && c.buffer + (line + line) == line + line;
    LineLeavesNothing(decode, c, line);
    NothingTrips(decode, Step(decode, c, Chunk(line)), line);
    assert [line, line][1..] == [line] && [line, line][0] == line && [line + line][0] == line + line;
    assert !Trips(decode, c, [line, line]);
  }

  lemma LineLeavesNothing(decode: string -> InFrame, c: Client, line: string)
    requires !Ended(c) && c.failure.None? && c.buffer == ""
    requires Utf8Bytes(line) <= MAX_OUTPUT_FRAME_BYTES && |Rest(line)| == 0
    ensures var d := Step(decode, c, Chunk(line)); Ended(d) || |d.buffer| == 0
  {
    assert c.buffer + line == line;
    ChunkDrains(decode, c, line);
    DrainEndsOrEmpties(decode, c.(buffer := c.buffer + line));
  }

  lemma ChunkDrains(decode: string -> InFrame, c: Client, text: string)
    requires !Ended(c) && Utf8Bytes(c.buffer + text) <= MAX_OUTPUT_FRAME_BYTES
    ensures Step(decode, c, Chunk(text)) == Drain(decode, c.(buffer := c.buffer + text))
  {
  }

  lemma NothingTrips(decode: string -> InFrame, c: Client, line: string)
    requires Ended(c) || |c.buffer| == 0
    requires Utf8Bytes(line) <= MAX_OUTPUT_FRAME_BYTES
    ensures !Trips(decode, c, [line])
  {
    assert |c.buffer| == 0 ==> c.buffer + line == line;
    assert [line][1..] == [];
  }

  /** A drained client has failed, or keeps only what follows the last line. */
  lemma {:induction false} DrainEndsOrEmpties(decode: string -> InFrame, c: Client)
    requires c.failure.None?
    ensures Ended(Drain(decode, c)) || Drain(decode, c).buffer == Rest(c.buffer)
    decreases |c.buffer|
  {
    if Newline(c.buffer) < |c.buffer| {
      var received := ReceiveFirst(decode, c);
      if received.failure.None? {
        DrainEndsOrEmpties(decode, received);
      }
    }
  }

  // ----- when a stream is refused for its size

  lemma ReceivingIsNoOverflow(c: Client, frame: InFrame)
    requires c.failure.None?
    ensures ReceiveFrame(c, frame).failure != Some(OutputTooLarge)
  {
  }

  lemma {:induction false} DrainingIsNoOverflow(decode: string -> InFrame, c: Client)
    requires c.failure.None?
    ensures Drain(decode, c).failure != Some(OutputTooLarge)
    decreases |c.buffer|
  {
    var k := Newline(c.buffer);
    if k < |c.buffer| {
      ReceivingIsNoOverflow(c.(buffer := c.buffer[k + 1..]), decode(TrimReturn(c.buffer[..k])));
      var received := ReceiveFirst(decode, c);
      if received.failure.None? {
        DrainingIsNoOverflow(decode, received);
      }
    }
  }

  /** A live client is either still live after a chunk within the limit, or ended by one of its lines. */
  lemma ChunkWithinLimit(decode: string -> InFrame, c: Client, text: string)
    requires c.failure.None? && !Ended(c) && Utf8Bytes(c.buffer + text) <= MAX_OUTPUT_FRAME_BYTES
    ensures var d := Step(decode, c, Chunk(text));
      && Blank(d) == Deliver(decode, Blank(c), Lines(c.buffer + text))
      && d.failure != Some(OutputTooLarge)
      && (if d.failure.Some? then Ended(d) else !Ended(d) && d.buffer == Rest(c.buffer + text))
  {
    var filled := c.(buffer := c.buffer + text);
    ChunkDrains(decode, c, text);
    DrainDelivers(decode, filled);
    DrainingIsNoOverflow(decode, filled);
    DeliverNeverStops(decode, Blank(c), Lines(c.buffer + text));
  }

  /** A live client fails for the size of its output exactly when some chunk makes its joined buffer too long. */
  lemma {:induction false} RefusedIffTrips(decode: string -> InFrame, c: Client, chunks: seq<string>)
    requires c.failure.None? && !Ended(c)
    ensures Feed(decode, c, chunks).failure == Some(OutputTooLarge) <==> Trips(decode, c, chunks)
    decreases |chunks|
  {
    if chunks != [] {
      var d := Step(decode, c, Chunk(chunks[0]));
      if Utf8Bytes(c.buffer + chunks[0]) > MAX_OUTPUT_FRAME_BYTES {
        FeedAfterFailure(decode, d, chunks[1..]);
      } else {
        ChunkWithinLimit(decode, c, chunks[0]);
        if d.failure.Some? {
          FeedAfterFailure(decode, d, chunks[1..]);
        } else {
          RefusedIffTrips(decode, d, chunks[1..]);
        }
      }
    }
  }

  /** Some chunk, behind what the lines before it leave over, exceeds the limit: a matter of the text alone. */
  predicate TooMuch(buffer: string, chunks: seq<string>)
    decreases |chunks|
  {
    chunks != [] &&
    (Utf8Bytes(buffer + chunks[0]) > MAX_OUTPUT_FRAME_BYTES || TooMuch(Rest(buffer + chunks[0]), chunks[1..]))
  }

  /** Whatever the lines say, a client trips only over a text that is too much. */
  lemma {:induction false} TripsOnlyOverTooMuch(decode: string -> InFrame, c: Client, chunks: seq<string>)
    requires c.failure.None? && !Ended(c) && Trips(decode, c, chunks)
    ensures TooMuch(c.buffer, chunks)
    decreases |chunks|
  {
    if Utf8Bytes(c.buffer + chunks[0]) <= MAX_OUTPUT_FRAME_BYTES {
      ChunkWithinLimit(decode, c, chunks[0]);
      TripsOnlyOverTooMuch(decode, Step(decode, c, Chunk(chunks[0])), chunks[1..]);
    }
  }

  /** No line of the stream makes the client fail. */
  predicate LinesAreTaken(decode: string -> InFrame, c: Client, stream: string) {
    Deliver(decode, Blank(c), Lines(stream)).failure.None?
  }

  /** Delivering the first lines of a stream that is taken fails nothing either. */
  lemma TakenInPieces(decode: string -> InFrame, c: Client, first: string, more: string)
    requires LinesAreTaken(decode, c, first + more)
    ensures var d := Deliver(decode, Blank(c), Lines(first));
      d.failure.None? && Deliver(decode, d, Lines(Rest(first) + more)).failure.None?
  {
    LinesOfConcat(first, more);
    DeliverConcat(decode, Blank(c), Lines(first), Lines(Rest(first) + more));
  }

  /** If no line fails the client, it trips exactly over a text that is too much. */
  lemma {:induction false} TripsIffTooMuch(decode: string -> InFrame, c: Client, chunks: seq<string>)
    requires c.failure.None? && !Ended(c) && LinesAreTaken(decode, c, c.buffer + Join(chunks))
    ensures Trips(decode, c, chunks) <==> TooMuch(c.buffer, chunks)
    decreases |chunks|
  {
    if chunks != [] && Utf8Bytes(c.buffer + chunks[0]) <= MAX_OUTPUT_FRAME_BYTES {
      var d := Step(decode, c, Chunk(chunks[0]));
      AppendAssociates(c.buffer, chunks[0], Join(chunks[1..]));
      TakenInPieces(decode, c, c.buffer + chunks[0], Join(chunks[1..]));
      ChunkWithinLimit(decode, c, chunks[0]);
      TripsIffTooMuch(decode, d, chunks[1..]);
    }
  }

  /**
   A stream none of whose lines fails the client is refused for its size if and
   only if some chunk exceeds the limit together with the unfinished line before
   it; otherwise all its lines are received.
   */
  lemma {:induction false} RefusedIffTooMuch(decode: string -> InFrame, c: Client, chunks: seq<string>)
    requires c.failure.None? && !Ended(c) && Rest(c.buffer) == c.buffer
    requires LinesAreTaken(decode, c, c.buffer + Join(chunks))
    ensures var fed := Feed(decode, c, chunks);
      if TooMuch(c.buffer, chunks) then fed.failure == Some(OutputTooLarge)
      else fed == Deliver(decode, Blank(c), Lines(c.buffer + Join(chunks))).(buffer := Rest(c.buffer + Join(chunks)))
  {
    RefusedIffTrips(decode, c, chunks);
    TripsIffTooMuch(decode, c, chunks);
    if !TooMuch(c.buffer, chunks) {
      FeedDeliversLines(decode, c, chunks);
    }
  }
}
