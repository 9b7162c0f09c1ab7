/**
 The bridge's session state: what one input event does to it.

 `Session` and the functions on it are the specification; class `SessionState`
 updates its fields handler by handler and is proved to do the same.
 */
module Server {
  import opened Common
  import opened Text
  import opened Protocol

  datatype WorkResult = Success(json: string) | WasCancelled | WorkFailed(code: string)

  datatype InputEvent =
    | InputLine(line: Line)
    | InputEnd
    | InputFailed
    | OperationFinished(id: Id, result: WorkResult)

  /**
   `tokens` holds the ids whose cancellation flag is set: the flag is shared
   with the worker thread. `spawned` logs the worker threads started, `output`
   the frames handed to the writer.
   */
  datatype Session = Session(
    active: Option<Id>,
    tokens: set<Id>,
    seen: set<Id>,
    shutdownId: Option<Id>,
    spawned: seq<Id>,
    output: seq<OutFrame>)

  datatype Control = Continue | Stop | Abort(code: ErrorCode)

  datatype Effect = Effect(session: Session, control: Control)

  // ----- specification

  function Initial(): Session {
    Session(None, {}, {}, None, [], [Ready])
  }

  /** Checks one decoded line; the id is recorded only when every check passes. */
  function Decode(line: Line, seen: set<Id>): Result<Request, ErrorCode> {
    match line
    case NotARequest => Err(FrameInvalid)
    case WrongApiVersion => Err(ProtocolMismatch)
    case WrongType => Err(FrameInvalid)
    case Frame(request) =>
      if request.id == "" || Utf8Bytes(request.id) > MAX_REQUEST_ID_BYTES then Err(RequestIdInvalid)
      else if request.id in seen then Err(RequestIdReused)
      else if |seen| >= MAX_TRACKED_REQUEST_IDS then Err(RequestLimit)
      else Ok(request)
  }

  function Respond(s: Session, id: Id, outcome: Outcome): Session {
    s.(output := s.output + [Response(id, outcome)])
  }

  function Fail(s: Session, code: ErrorCode, active: Option<Id>): Effect {
    Effect(s.(tokens := s.tokens + (if active.Some? then {active.value} else {}),
              output := s.output + [Fatal(code)]),
           Abort(code))
  }

  function HandleLine(s: Session, line: Line): Effect {
    match Decode(line, s.seen)
    case Err(code) => Fail(s, code, s.active)
    case Ok(request) =>
      var s := s.(seen := s.seen + {request.id});
      if s.shutdownId.Some? then Effect(Respond(s, request.id, Error(ShuttingDown)), Continue)
      else Dispatch(s, request)
  }

  function Dispatch(s: Session, request: Request): Effect {
    match request.verb
    case Status =>
      Effect(Respond(s, request.id,
                     if Accepts(Status, request.params) then Answer(PayloadIdentity) else Error(ParamsInvalid)),
             Continue)
    case Perform(_) => Effect(HandleRun(s, request), Continue)
    case Cancel => Effect(HandleCancel(s, request), Continue)
    case Shutdown => HandleShutdown(s, request)
    case Unsupported => Effect(Respond(s, request.id, Error(MethodUnsupported)), Continue)
  }

  function HandleRun(s: Session, request: Request): Session {
    if s.active.Some? then Respond(s, request.id, Error(Busy))
    else if !Accepts(request.verb, request.params) then Respond(s, request.id, Error(ParamsInvalid))
    else s.(active := Some(request.id), spawned := s.spawned + [request.id])
  }

  function HandleCancel(s: Session, request: Request): Session {
    if !request.params.RequestId? then Respond(s, request.id, Error(ParamsInvalid))
    else
      var target := request.params.requestId;
      if s.active != Some(target) then Respond(s, request.id, Error(RequestNotActive))
      else
        Respond(s.(tokens := s.tokens + {target}), request.id,
                Answer(CancelReport(target, target !in s.tokens)))
  }

  function HandleShutdown(s: Session, request: Request): Effect {
    if !Accepts(Shutdown, request.params) then
      Effect(Respond(s, request.id, Error(ParamsInvalid)), Continue)
    else if s.active.Some? then
      Effect(s.(tokens := s.tokens + {s.active.value}, shutdownId := Some(request.id)), Continue)
    else
      Effect(Respond(s, request.id, Answer(Nothing)), Stop)
  }

  function OutcomeOf(result: WorkResult): Outcome {
    match result
    case Success(json) => Answer(WorkValue(json))
    case WasCancelled => Cancelled
    case WorkFailed(code) => Error(Upstream(code))
  }

  function HandleOperation(s: Session, id: Id, result: WorkResult): Effect {
    var taken := s.(active := None);
    if s.active.None? then Fail(taken, OperationOrphaned, None)
    else if s.active.value != id then Fail(taken, OperationMismatch, s.active)
    else
      var answered := Respond(taken, id, OutcomeOf(result));
      if s.shutdownId.None? then Effect(answered, Continue)
      else Effect(Respond(answered.(shutdownId := None), s.shutdownId.value, Answer(Nothing)), Stop)
  }

  function HandleEnd(s: Session): Effect {
    if s.shutdownId.Some? then Effect(s, Continue) else Fail(s, InputClosed, s.active)
  }

  function Handle(s: Session, event: InputEvent): Effect {
    match event
    case InputLine(line) => HandleLine(s, line)
    case OperationFinished(id, result) => HandleOperation(s, id, result)
    case InputEnd => HandleEnd(s)
    case InputFailed => Fail(s, InputInvalid, s.active)
  }

  /** The event loop on the events in the order the channel delivers them. */
  function HandleAll(s: Session, events: seq<InputEvent>): Effect {
    if events == [] then Effect(s, Continue)
    else
      var before := HandleAll(s, events[..|events| - 1]);
      if before.control.Continue? then Handle(before.session, events[|events| - 1]) else before
  }

  // ----- the state object

  class SessionState {
    var active: Option<Id>
    var tokens: set<Id>
    var seenIds: set<Id>
    var shutdownId: Option<Id>
    var spawned: seq<Id>
    var output: seq<OutFrame>

    ghost function Abs(): Session
      reads this
    {
      Session(active, tokens, seenIds, shutdownId, spawned, output)
    }

    constructor ()
      ensures Abs() == Initial()
    {
      active, tokens, seenIds, shutdownId, spawned, output := None, {}, {}, None, [], [Ready];
    }

    method Send(frame: OutFrame)
      modifies this`output
      ensures output == old(output) + [frame]
    {
      output := output + [frame];
    }

    method FailWith(code: ErrorCode, current: Option<Id>) returns (control: Control)
      modifies this`tokens, this`output
      ensures Effect(Abs(), control) == Fail(old(Abs()), code, current)
    {
      if current.Some? {
        tokens := tokens + {current.value};
      }
      Send(Fatal(code));
      control := Abort(code);
    }

    method DecodeRequest(line: Line) returns (r: Result<Request, ErrorCode>)
      modifies this`seenIds
      ensures r == Decode(line, old(seenIds))
      ensures seenIds == old(seenIds) + if r.Ok? then {r.value.id} else {}
    {
      if line.NotARequest? {
        return Err(FrameInvalid);
      }
      if line.WrongApiVersion? {
        return Err(ProtocolMismatch);
      }
      if line.WrongType? {
        return Err(FrameInvalid);
      }
      var request := line.request;
      if request.id == "" || Utf8Bytes(request.id) > MAX_REQUEST_ID_BYTES {
        return Err(RequestIdInvalid);
      }
      if request.id in seenIds {
        return Err(RequestIdReused);
      }
      if |seenIds| >= MAX_TRACKED_REQUEST_IDS {
        return Err(RequestLimit);
      }
      seenIds := seenIds + {request.id};
      return Ok(request);
    }

    method OnLine(line: Line) returns (control: Control)
      modifies this
      ensures Effect(Abs(), control) == HandleLine(old(Abs()), line)
    {
      var decoded := DecodeRequest(line);
      if decoded.Err? {
        control := FailWith(decoded.error, active);
        return;
      }
      var request := decoded.value;
      control := Continue;
      if shutdownId.Some? {
        Send(Response(request.id, Error(ShuttingDown)));
        return;
      }
      match request.verb {
        case Status => OnStatus(request);
        case Perform(_) => OnRun(request);
        case Cancel => OnCancel(request);
        case Shutdown => control := OnShutdown(request);
        case Unsupported => Send(Response(request.id, Error(MethodUnsupported)));
      }
    }

    method OnStatus(request: Request)
      requires request.verb.Status?
      modifies this`output
      ensures Effect(Abs(), Continue) == Dispatch(old(Abs()), request)
    {
      if !request.params.NoParams? {
        Send(Response(request.id, Error(ParamsInvalid)));
        return;
      }
      Send(Response(request.id, Answer(PayloadIdentity)));
    }

    method OnRun(request: Request)
      modifies this
      ensures Abs() == HandleRun(old(Abs()), request)
    {
      if active.Some? {
        Send(Response(request.id, Error(Busy)));
        return;
      }
      if !Accepts(request.verb, request.params) {
        Send(Response(request.id, Error(ParamsInvalid)));
        return;
      }
      spawned := spawned + [request.id];
      active := Some(request.id);
    }

    method OnCancel(request: Request)
      modifies this
      ensures Abs() == HandleCancel(old(Abs()), request)
    {
      if !request.params.RequestId? {
        Send(Response(request.id, Error(ParamsInvalid)));
        return;
      }
      var target := request.params.requestId;
      if active.None? || active.value != target {
        Send(Response(request.id, Error(RequestNotActive)));
        return;
      }
      var accepted := target !in tokens;
      tokens := tokens + {target};
      Send(Response(request.id, Answer(CancelReport(target, accepted))));
    }

    method OnShutdown(request: Request) returns (control: Control)
      modifies this
      ensures Effect(Abs(), control) == HandleShutdown(old(Abs()), request)
    {
      if !request.params.NoParams? {
        Send(Response(request.id, Error(ParamsInvalid)));
        return Continue;
      }
      if active.Some? {
        tokens := tokens + {active.value};
        shutdownId := Some(request.id);
        return Continue;
      }
      Send(Response(request.id, Answer(Nothing)));
      return Stop;
    }

    method OnOperation(id: Id, result: WorkResult) returns (control: Control)
      modifies this
      ensures Effect(Abs(), control) == HandleOperation(old(Abs()), id, result)
    {
      var current := active;
      active := None;
      if current.None? {
        control := FailWith(OperationOrphaned, None);
        return;
      }
      if current.value != id {
        control := FailWith(OperationMismatch, current);
        return;
      }
      match result {
        case Success(json) => Send(Response(id, Answer(WorkValue(json))));
        case WasCancelled => Send(Response(id, Cancelled));
        case WorkFailed(code) => Send(Response(id, Error(Upstream(code))));
      }
      if shutdownId.Some? {
        var acknowledged := shutdownId.value;
        shutdownId := None;
        Send(Response(acknowledged, Answer(Nothing)));
        return Stop;
      }
      return Continue;
    }

    method OnEnd() returns (control: Control)
      modifies this
      ensures Effect(Abs(), control) == HandleEnd(old(Abs()))
    {
      if shutdownId.Some? {
        return Continue;
      }
      control := FailWith(InputClosed, active);
    }

    /** Handles received events until a handler ends the loop. */
    method EventLoop(received: seq<InputEvent>) returns (control: Control)
      modifies this
      ensures Effect(Abs(), control) == HandleAll(old(Abs()), received)
    {
      control := Continue;
      for i := 0 to |received|
        invariant control.Continue?
        invariant Effect(Abs(), control) == HandleAll(old(Abs()), received[..i])
      {
        assert received[..i + 1][..i] == received[..i];
        match received[i] {
          case InputLine(line) => control := OnLine(line);
          case OperationFinished(id, result) => control := OnOperation(id, result);
          case InputEnd => control := OnEnd();
          case InputFailed => control := FailWith(InputInvalid, active);
        }
        assert Effect(Abs(), control) == HandleAll(old(Abs()), received[..i + 1]);
        if !control.Continue? {
          EndedLoopStaysEnded(old(Abs()), received, i + 1);
          return;
        }
      }
      assert received[..|received|] == received;
    }
  }

  /** Events after the loop has ended change nothing. */
  lemma {:induction false} EndedLoopStaysEnded(s: Session, events: seq<InputEvent>, k: nat)
    requires k <= |events|
    requires !HandleAll(s, events[..k]).control.Continue?
    ensures HandleAll(s, events) == HandleAll(s, events[..k])
  {
    if k == |events| {
      assert events[..k] == events;
    } else {
      var init := events[..|events| - 1];
      assert init[..k] == events[..k];
      EndedLoopStaysEnded(s, init, k);
    }
  }
}
