/**
 The bridge client: promises by request id, a five-state machine, and an
 incremental line splitter.

 `Client` and the functions on it are the specification; class `BridgeClient`
 updates its fields and is proved to do the same.
 */
module Client {
  import opened Common
  import opened Text
  import opened Protocol
  import opened RequestIds

  const MAX_OUTPUT_FRAME_BYTES := 16 * 1024 * 1024
  const ERROR_INVALID := "dsh-norm-spec/client/error-invalid"

  datatype ClientState = Starting | ReadyState | Stopping | Stopped | FailedState

  datatype Failure =
    | SpawnFailed
    | StartupTimedOut
    | OutputTooLarge
    | FrameNotJson
    | ApiMismatch
    | FrameTypeInvalid
    | ReadyInvalid
    | Reported(code: string)
    | EventUnsupported
    | ResponseInvalid
    | ResponseUnexpected(id: Id)
    | InputFailed
    | UnexpectedStderr
    | FrameIncomplete
    | OutputClosed
    | Crashed
    | ShutdownTimedOut

  /** A line of bridge output after JSON decoding. */
  datatype InFrame =
    | NotJson
    | OtherApi
    | OtherType
    | ReadyEvent(complete: bool)
    | FailureEvent(code: string)
    | OtherEvent
    | IncompleteResponse
    | ResponseOf(id: Id, status: ResponseStatus)

  datatype ResponseStatus = IsOk(value: Value) | IsCancelled | IsError(code: string) | IsOther

  datatype Settlement =
    | Resolved(value: Value)
    | RejectedCancelled
    | RejectedError(code: string)
    | RejectedBy(failure: Failure)

  datatype Settled = Settled(id: Id, how: Settlement)

  /**
   `pending` lists the ids of unsettled promises in the order they were made,
   `listeners` those with an abort listener attached. `settled`, `readyLog` and
   `sent` record every settlement, every settlement of the ready promise, and
   every frame written.
   */
  datatype Client = Client(
    state: ClientState,
    failure: Option<Failure>,
    pending: seq<Id>,
    listeners: set<Id>,
    nextRequest: nat,
    buffer: string,
    startupTimer: bool,
    killed: bool,
    readyLog: seq<bool>,
    settled: seq<Settled>,
    sent: seq<Request>)

  datatype Event =
    | CallRequest(verb: Verb, params: Params, aborted: bool, listens: bool, throws: bool)
    | AbortSignalled(id: Id, throws: bool)
    | CallShutdown(throws: bool)
    | Chunk(text: string)
    | StdoutEnd
    | Stderr
    | SpawnError
    | Close(code: int)
    | StartupTimeout
    | ShutdownTimeout
    | WriteFailed

  // ----- specification

  function NewClient(): Client {
    Client(Starting, None, [], {}, 0, "", true, false, [], [], [])
  }

  predicate Ended(c: Client) {
    c.state.FailedState? || c.state.Stopped?
  }

  function RejectAll(pending: seq<Id>, failure: Failure): (r: seq<Settled>)
    ensures |r| == |pending|
  {
    seq(|pending|, i requires 0 <= i < |pending| => Settled(pending[i], RejectedBy(failure)))
  }

  function Fail(c: Client, failure: Failure): (r: Client)
    ensures r.buffer == c.buffer && r.sent == c.sent && r.nextRequest == c.nextRequest
  {
    if Ended(c) then c
    else
      c.(state := FailedState,
         failure := Some(failure),
         startupTimer := false,
         readyLog := c.readyLog + if c.state.Starting? then [false] else [],
         settled := c.settled + RejectAll(c.pending, failure),
         pending := [],
         listeners := {},
         killed := true)
  }

  function SendRequest(c: Client, verb: Verb, params: Params, listens: bool, throws: bool): Client {
    var id := RequestName(c.nextRequest + 1);
    var c := c.(nextRequest := c.nextRequest + 1,
                pending := c.pending + [id],
                listeners := c.listeners + if listens then {id} else {});
    if throws then Fail(c, InputFailed) else c.(sent := c.sent + [Request(id, verb, params)])
  }

  function OnAbort(c: Client, id: Id, throws: bool): Client {
    if id !in c.listeners then c
    else
      var c := c.(listeners := c.listeners - {id});
      if id !in c.pending || !c.state.ReadyState? then c
      else SendRequest(c, Verb.Cancel, RequestId(id), false, throws)
  }

  /** `shutdown()` once the ready promise has settled; it acts only on a ready client. */
  function CallShutdownOn(c: Client, throws: bool): Client {
    if !c.state.ReadyState? then c
    else SendRequest(c, Verb.Shutdown, NoParams, false, throws).(state := Stopping)
  }

  function Without(pending: seq<Id>, id: Id): seq<Id> {
    if pending == [] then []
    else if pending[0] == id then pending[1..]
    else [pending[0]] + Without(pending[1..], id)
  }

  function Settle(c: Client, id: Id, how: Settlement): (r: Client)
    ensures r == c.(settled := r.settled, pending := r.pending, listeners := r.listeners)
  {
    c.(pending := Without(c.pending, id),
       listeners := c.listeners - {id},
       settled := c.settled + [Settled(id, how)])
  }

  function ReceiveFrame(c: Client, frame: InFrame): (r: Client)
    ensures r.buffer == c.buffer && r.sent == c.sent && r.nextRequest == c.nextRequest
  {
    match frame
    case NotJson => Fail(c, FrameNotJson)
    case OtherApi => Fail(c, ApiMismatch)
    case OtherType => Fail(c, FrameTypeInvalid)
    case ReadyEvent(complete) =>
      if !c.state.Starting? || !complete then Fail(c, ReadyInvalid)
      else c.(state := ReadyState, startupTimer := false, readyLog := c.readyLog + [true])
    case FailureEvent(code) => Fail(c, Reported(code))
    case OtherEvent => Fail(c, EventUnsupported)
    case IncompleteResponse => Fail(c, ResponseInvalid)
    case ResponseOf(id, status) =>
      if id !in c.pending then Fail(c, ResponseUnexpected(id)) else
      match status
      case IsOk(value) => Settle(c, id, Resolved(value))
      case IsCancelled => Settle(c, id, RejectedCancelled)
      case IsError(code) =>
        var c := Settle(c, id, RejectedError(code));
        if code == ERROR_INVALID then Fail(c, Reported(code)) else c
      case IsOther => Fail(Settle(c, id, RejectedBy(ResponseInvalid)), ResponseInvalid)
  }

  /** The position of the first newline, or the length when there is none. */
  function Newline(s: string): (k: nat)
    ensures k <= |s|
  {
    if s == "" || s[0] == '\n' then 0 else 1 + Newline(s[1..])
  }

  function TrimReturn(line: string): string {
    if line != "" && line[|line| - 1] == '\r' then line[..|line| - 1] else line
  }

  /** Takes the first complete line off the buffer and receives it. */
  function ReceiveFirst(decode: string -> InFrame, c: Client): (r: Client)
    requires Newline(c.buffer) < |c.buffer|
    ensures |r.buffer| < |c.buffer|
  {
    var k := Newline(c.buffer);
    ReceiveFrame(c.(buffer := c.buffer[k + 1..]), decode(TrimReturn(c.buffer[..k])))
  }

  /** Receives the complete lines of the buffer until none is left or the client has failed. */
  function Drain(decode: string -> InFrame, c: Client): Client
    decreases |c.buffer|
  {
    if Newline(c.buffer) == |c.buffer| then c
    else
      var received := ReceiveFirst(decode, c);
      if received.failure.Some? then received else Drain(decode, received)
  }

  function ReceiveChunk(decode: string -> InFrame, c: Client, chunk: string): Client {
    if Ended(c) then c
    else
      var c := c.(buffer := c.buffer + chunk);
      if Utf8Bytes(c.buffer) > MAX_OUTPUT_FRAME_BYTES then Fail(c, OutputTooLarge) else Drain(decode, c)
  }

  function HandleStdoutEnd(c: Client): Client {
    if c.buffer != "" then Fail(c, FrameIncomplete)
    else if c.state.Stopping? && c.pending == [] then c
    else Fail(c, OutputClosed)
  }

  function HandleClose(c: Client, code: int): Client {
    if c.state.Stopping? && code == 0 && c.pending == [] then c.(state := Stopped)
    else Fail(c, Crashed)
  }

  function Step(decode: string -> InFrame, c: Client, e: Event): Client {
    match e
    case CallRequest(verb, params, aborted, listens, throws) =>
      if !c.state.ReadyState? || aborted then c else SendRequest(c, verb, params, listens, throws)
    case AbortSignalled(id, throws) => OnAbort(c, id, throws)
    case CallShutdown(throws) => CallShutdownOn(c, throws)
    case Chunk(text) => ReceiveChunk(decode, c, text)
    case StdoutEnd => HandleStdoutEnd(c)
    case Stderr => Fail(c, UnexpectedStderr)
    case SpawnError => Fail(c, SpawnFailed)
    case Close(code) => HandleClose(c, code)
    case StartupTimeout => if c.startupTimer then Fail(c, StartupTimedOut) else c
    case ShutdownTimeout => if c.state.Stopping? then Fail(c, ShutdownTimedOut) else c
    case WriteFailed => Fail(c, InputFailed)
  }

  function Run(decode: string -> InFrame, events: seq<Event>): Client {
    if events == [] then NewClient()
    else Step(decode, Run(decode, events[..|events| - 1]), events[|events| - 1])
  }

  // ----- the client object

  class BridgeClient {
    const decode: string -> InFrame
    var state: ClientState
    var failure: Option<Failure>
    var pending: seq<Id>
    var listeners: set<Id>
    var nextRequest: nat
    var stdoutBuffer: string
    var startupTimer: bool
    var killed: bool
    var readyLog: seq<bool>
    var settled: seq<Settled>
    var sent: seq<Request>

    ghost function Abs(): Client
      reads this
    {
      Client(state, failure, pending, listeners, nextRequest, stdoutBuffer, startupTimer, killed,
             readyLog, settled, sent)
    }

    constructor (decode: string -> InFrame)
      ensures Abs() == NewClient() && this.decode == decode
    {
      this.decode := decode;
      state, failure, pending, listeners, nextRequest := Starting, None, [], {}, 0;
      stdoutBuffer, startupTimer, killed := "", true, false;
      readyLog, settled, sent := [], [], [];
    }

    method FailWith(cause: Failure)
      modifies this
      ensures Abs() == Fail(old(Abs()), cause)
    {
      if state.FailedState? || state.Stopped? {
        return;
      }
      var wasStarting := state.Starting?;
      state := FailedState;
      failure := Some(cause);
      startupTimer := false;
      if wasStarting {
        readyLog := readyLog + [false];
      }
      for i := 0 to |pending|
        modifies this`settled, this`listeners
        invariant settled == old(settled) + RejectAll(pending, cause)[..i]
      {
        assert RejectAll(pending, cause)[..i + 1] == RejectAll(pending, cause)[..i] + [RejectAll(pending, cause)[i]];
        listeners := listeners - {pending[i]};
        settled := settled + [Settled(pending[i], RejectedBy(cause))];
      }
      listeners := {};
      pending := [];
      killed := true;
    }

    method Send(verb: Verb, params: Params, listens: bool, throws: bool)
      modifies this
      ensures Abs() == SendRequest(old(Abs()), verb, params, listens, throws)
    {
      nextRequest := nextRequest + 1;
      var id := RequestName(nextRequest);
      if listens {
        listeners := listeners + {id};
      }
      pending := pending + [id];
      if throws {
        FailWith(InputFailed);
      } else {
        sent := sent + [Request(id, verb, params)];
      }
    }

    method Call(verb: Verb, params: Params, aborted: bool, listens: bool, throws: bool)
      modifies this
      ensures Abs() == Step(decode, old(Abs()), CallRequest(verb, params, aborted, listens, throws))
    {
      if !state.ReadyState? || aborted {
        return;
      }
      Send(verb, params, listens, throws);
    }

    method Abort(id: Id, throws: bool)
      modifies this
      ensures Abs() == OnAbort(old(Abs()), id, throws)
    {
      if id !in listeners {
        return;
      }
      listeners := listeners - {id};
      if id in pending && state.ReadyState? {
        Send(Verb.Cancel, RequestId(id), false, throws);
      }
    }

    method Shutdown(throws: bool)
      modifies this
      ensures Abs() == CallShutdownOn(old(Abs()), throws)
    {
      if !state.ReadyState? {
        return;
      }
      Send(Verb.Shutdown, NoParams, false, throws);
      state := Stopping;
    }

    method ReceiveStdout(chunk: string)
      modifies this
      ensures Abs() == ReceiveChunk(decode, old(Abs()), chunk)
    {
      if state.FailedState? || state.Stopped? {
        return;
      }
      stdoutBuffer := stdoutBuffer + chunk;
      if Utf8Bytes(stdoutBuffer) > MAX_OUTPUT_FRAME_BYTES {
        FailWith(OutputTooLarge);
        return;
      }
      ghost var target := Drain(decode, Abs());
      var newline := Newline(stdoutBuffer);
      while newline < |stdoutBuffer|
        invariant newline == Newline(stdoutBuffer)
        invariant Drain(decode, Abs()) == target
        decreases |stdoutBuffer|
      {
        ReceiveLine(newline);
        if failure.Some? {
          return;
        }
        newline := Newline(stdoutBuffer);
      }
    }

    method ReceiveLine(newline: nat)
      requires newline == Newline(stdoutBuffer) < |stdoutBuffer|
      modifies this
      ensures Abs() == ReceiveFirst(decode, old(Abs()))
    {
      var line := stdoutBuffer[..newline];
      stdoutBuffer := stdoutBuffer[newline + 1..];
      if line != "" && line[|line| - 1] == '\r' {
        line := line[..|line| - 1];
      }
      Receive(decode(line));
    }

    method Receive(frame: InFrame)
      modifies this
      ensures Abs() == ReceiveFrame(old(Abs()), frame)
    {
      match frame {
        case NotJson => FailWith(FrameNotJson);
        case OtherApi => FailWith(ApiMismatch);
        case OtherType => FailWith(FrameTypeInvalid);
        case ReadyEvent(complete) =>
          if !state.Starting? || !complete {
            FailWith(ReadyInvalid);
            return;
          }
          state := ReadyState;
          startupTimer := false;
          readyLog := readyLog + [true];
        case FailureEvent(code) => FailWith(Reported(code));
        case OtherEvent => FailWith(EventUnsupported);
        case IncompleteResponse => FailWith(ResponseInvalid);
        case ResponseOf(id, status) => ReceiveResponse(id, status);
      }
    }

    method ReceiveResponse(id: Id, status: ResponseStatus)
      modifies this
      ensures Abs() == ReceiveFrame(old(Abs()), ResponseOf(id, status))
    {
      if id !in pending {
        FailWith(ResponseUnexpected(id));
        return;
      }
      pending := Without(pending, id);
      listeners := listeners - {id};
      match status {
        case IsOk(value) => settled := settled + [Settled(id, Resolved(value))];
        case IsCancelled => settled := settled + [Settled(id, RejectedCancelled)];
        case IsError(code) =>
          settled := settled + [Settled(id, RejectedError(code))];
          if code == ERROR_INVALID {
            FailWith(Reported(code));
          }
        case IsOther =>
          settled := settled + [Settled(id, RejectedBy(ResponseInvalid))];
          FailWith(ResponseInvalid);
      }
    }

    method OnStdoutEnd()
      modifies this
      ensures Abs() == HandleStdoutEnd(old(Abs()))
    {
      if stdoutBuffer != "" {
        FailWith(FrameIncomplete);
        return;
      }
      if state.Stopping? && pending == [] {
        return;
      }
      if !state.FailedState? && !state.Stopped? {
        FailWith(OutputClosed);
      }
    }

    method OnClose(code: int)
      modifies this
      ensures Abs() == HandleClose(old(Abs()), code)
    {
      if state.Stopping? && code == 0 && pending == [] {
        state := Stopped;
      } else if !state.FailedState? && !state.Stopped? {
        FailWith(Crashed);
      }
    }
  }
}
