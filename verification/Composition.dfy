/**
 The client and the bridge process joined by their two pipes.

 The request pipe holds the frames the client has written and the reader has
 not taken, the response pipe those the bridge has written and the client has
 not received; both are kept as positions in the logs of the two sides.
 */
module Composition {
  import opened Common
  import opened Protocol
  import opened RequestIds
  import Server
  import Sys = ServerSystem
  import C = Client
  import CP = ClientProperties

  datatype World = World(
    client: C.Client,
    server: Sys.System,
    taken: nat,
    delivered: nat,
    eof: bool,
    closed: bool)

  datatype Action =
    | Ask(verb: Verb, params: Params, aborted: bool, listens: bool, throws: bool)
    | SignalAbort(id: Id, throws: bool)
    | BeginShutdown(throws: bool)
    | Fault(event: C.Event)
    | ReadRequest
    | Bridge(action: Sys.Action)
    | Deliver
    | EndOfOutput
    | Exit

  const BRIDGE := "dsh-norm-spec/bridge/"

  function CodeName(code: ErrorCode): string {
    match code
    case FrameInvalid => BRIDGE + "frame-invalid"
    case ProtocolMismatch => BRIDGE + "protocol-mismatch"
    case RequestIdInvalid => BRIDGE + "request-id-invalid"
    case RequestIdReused => BRIDGE + "request-id-reused"
    case RequestLimit => BRIDGE + "request-limit"
    case ShuttingDown => BRIDGE + "shutting-down"
    case MethodUnsupported => BRIDGE + "method-unsupported"
    case ParamsInvalid => BRIDGE + "params-invalid"
    case Busy => BRIDGE + "busy"
    case RequestNotActive => BRIDGE + "request-not-active"
    case OperationOrphaned => BRIDGE + "operation-orphaned"
    case OperationMismatch => BRIDGE + "operation-mismatch"
    case InputClosed => BRIDGE + "input-closed"
    case InputInvalid => BRIDGE + "input-invalid"
    case Upstream(code) => code
  }

  /** How the client decodes what the bridge writes. */
  function Wire(f: OutFrame): C.InFrame {
    match f
    case Ready => C.ReadyEvent(true)
    case Fatal(code) => C.FailureEvent(CodeName(code))
    case Response(id, Answer(value)) => C.ResponseOf(id, C.IsOk(value))
    case Response(id, Cancelled) => C.ResponseOf(id, C.IsCancelled)
    case Response(id, Error(code)) => C.ResponseOf(id, C.IsError(CodeName(code)))
  }

  /** The client's lines are delivered as frames here, so it is never given raw text. */
  const NoText: string -> C.InFrame := _ => C.NotJson

  function Begin(): World {
    World(C.NewClient(), Sys.Start(), 0, 0, false, false)
  }

  /** The faults of the environment: timeouts, failed writes, diagnostics, a child that cannot start. */
  predicate IsFault(e: C.Event) {
    e.Stderr? || e.SpawnError? || e.StartupTimeout? || e.ShutdownTimeout? || e.WriteFailed?
  }

  /** Workers report codes of their own, never the client's code for a malformed error. */
  predicate HonestCode(result: Server.WorkResult) {
    result.WorkFailed? ==> result.code != C.ERROR_INVALID
  }

  /** The client's own event behind an action, when there is one. */
  function ClientEvent(w: World, a: Action): Option<C.Event> {
    match a
    case Ask(verb, params, aborted, listens, throws) => Some(C.CallRequest(verb, params, aborted, listens, throws))
    case SignalAbort(id, throws) => Some(C.AbortSignalled(id, throws))
    case BeginShutdown(throws) => Some(C.CallShutdown(throws))
    case Fault(e) => Some(e)
    case EndOfOutput => Some(C.StdoutEnd)
    case Exit => Some(C.Close(if w.server.control.Stop? then 0 else 1))
    case _ => None
  }

  predicate Enabled(w: World, a: Action) {
    !w.closed &&
    match a
    case Ask(verb, _, _, _, _) => !verb.Shutdown?
    case SignalAbort(_, _) => true
    case BeginShutdown(_) => true
    case Fault(e) => IsFault(e)
    case ReadRequest =>
      w.taken < |w.client.sent| && Sys.Enabled(w.server, Sys.Read(Frame(w.client.sent[w.taken])))
    case Bridge(b) =>
      && (b.Take? || b.Publish? || (b.Decide? && HonestCode(b.result)))
      && Sys.Enabled(w.server, b)
    case Deliver => w.delivered < |w.server.session.output|
    case EndOfOutput => !w.eof && !w.server.control.Continue? && w.delivered == |w.server.session.output|
    case Exit => w.eof
  }

  function Next(w: World, a: Action): World {
    if !Enabled(w, a) then w else
    match a
    case ReadRequest =>
      w.(server := Sys.Next(w.server, Sys.Read(Frame(w.client.sent[w.taken]))), taken := w.taken + 1)
    case Bridge(b) => w.(server := Sys.Next(w.server, b))
    case Deliver =>
      w.(client := C.ReceiveFrame(w.client, Wire(w.server.session.output[w.delivered])),
         delivered := w.delivered + 1)
    case _ =>
      w.(client := C.Step(NoText, w.client, ClientEvent(w, a).value),
         eof := w.eof || a.EndOfOutput?,
         closed := a.Exit?)
  }

  function Run(actions: seq<Action>): World {
    if actions == [] then Begin() else Next(Run(actions[..|actions| - 1]), actions[|actions| - 1])
  }

  // ----- what links the two sides

  /** The lines waiting in the server's queue, in order. */
  function QueuedLines(queue: seq<Server.InputEvent>): seq<Line> {
    if queue == [] then []
    else (if queue[0].InputLine? then [queue[0].line] else []) + QueuedLines(queue[1..])
  }

  function Frames(requests: seq<Request>): (s: seq<Line>)
    ensures |s| == |requests|
  {
    seq(|requests|, i requires 0 <= i < |requests| => Frame(requests[i]))
  }

  lemma {:induction false} QueuedLinesSnoc(queue: seq<Server.InputEvent>, e: Server.InputEvent)
    ensures QueuedLines(queue + [e]) == QueuedLines(queue) + if e.InputLine? then [e.line] else []
  {
    if queue == [] {
      assert queue + [e] == [e];
    } else {
      QueuedLinesSnoc(queue[1..], e);
      assert (queue + [e])[1..] == queue[1..] + [e];
    }
  }

  /** A client without a recorded failure. */
  predicate Live(w: World) {
    w.client.failure.None?
  }

  /** How many requests the server has recorded. */
  function Handled(w: World): nat {
    |w.server.session.seen|
  }

  /** The frames written are the requests made, numbered in order. */
  ghost predicate SentInOrder(w: World) {
    && |w.client.sent| == w.client.nextRequest
    && (forall i :: 0 <= i < |w.client.sent| ==> w.client.sent[i].id == RequestName(i + 1))
  }

  /** What the server has recorded, and what waits in its queue, are successive slices of what was sent. */
  ghost predicate TakenInOrder(w: World) {
    && Handled(w) <= w.taken <= |w.client.sent| && Handled(w) <= MAX_TRACKED_REQUEST_IDS
    && multiset(w.server.session.seen) == multiset(Names(0, Handled(w)))
    && !w.server.readerDone
    && (!w.server.control.Abort? ==>
        && QueuedLines(w.server.queue) == Frames(w.client.sent[Handled(w)..w.taken])
        && (forall e :: e in w.server.queue ==> e.InputLine? || e.OperationFinished?))
  }

  /** The client has settled exactly the responses it has received, in order. */
  ghost predicate Received(w: World) {
    && w.delivered <= |w.server.session.output|
    && CP.SettledIds(w.client.settled) == ResponseIds(w.server.session.output[..w.delivered])
    && (w.client.state.Starting? <==> w.delivered == 0)
    && (w.server.control.Abort? ==> w.delivered < |w.server.session.output|)
    && w.client.buffer == "" && !w.client.state.FailedState?
  }

  predicate IsShutdown(r: Request) {
    r.verb.Shutdown? && r.params.NoParams?
  }

  /** `shutdown` is the last frame written, and the client is stopping exactly when it is. */
  ghost predicate ShutdownLast(w: World) {
    var sent := w.client.sent;
    && (forall i :: 0 <= i < |sent| - 1 ==> !sent[i].verb.Shutdown?)
    && (w.client.state.Stopping? || w.client.state.Stopped? ==> sent != [] && IsShutdown(sent[|sent| - 1]))
    && (w.client.state.Starting? || w.client.state.ReadyState? ==> sent != [] ==> !sent[|sent| - 1].verb.Shutdown?)
  }

  /** What the server knows of the shutdown. */
  ghost predicate ShutdownTaken(w: World) {
    var s, sent := w.server.session, w.client.sent;
    var done := sent != [] && Handled(w) == |sent| && (w.client.state.Stopping? || w.client.state.Stopped?);
    (w.closed ==> w.eof) &&
    match w.server.control
    case Continue =>
      && !w.eof && !w.client.state.Stopped?
      && (if done then s.shutdownId == Some(sent[|sent| - 1].id) else s.shutdownId.None?)
    case Stop =>
      && done
      && |s.output| > 0 && s.output[|s.output| - 1] == Response(sent[|sent| - 1].id, Answer(Nothing))
      && (w.eof ==> w.delivered == |s.output|)
      && (w.client.state.Stopped? <==> w.closed)
    case Abort(code) =>
      && code == RequestLimit && Handled(w) == MAX_TRACKED_REQUEST_IDS < w.taken
      && !w.eof && !w.client.state.Stopped?
  }

  ghost predicate Linked(w: World) {
    SentInOrder(w) && TakenInOrder(w) && Received(w) && ShutdownLast(w) && ShutdownTaken(w)
  }

  /** No error the bridge reports, or is about to, uses the client's own code. */
  ghost predicate HonestCodes(s: Sys.System) {
    && (forall x :: x in s.workers && x.phase.Decided? ==> HonestCode(x.phase.result))
    && (forall e :: e in s.queue && e.OperationFinished? ==> HonestCode(e.result))
    && (forall f :: f in s.session.output ==> HonestFrame(f))
  }

  ghost predicate Inv(w: World) {
    && CP.Inv(w.client) && Sys.Inv(w.server) && HonestCodes(w.server)
    && (Live(w) ==> Linked(w))
  }

  // ----- the server's side of the link

  lemma BridgeCodesAreHonest(code: ErrorCode)
    requires !code.Upstream?
    ensures CodeName(code) != C.ERROR_INVALID
  {
    assert CodeName(code)[14] == 'b' && C.ERROR_INVALID[14] == 'c';
  }

  lemma PlainLine(s: Server.Session, r: Request)
    requires Server.Decode(Frame(r), s.seen) == Ok(r) && s.shutdownId.None? && !r.verb.Shutdown?
    ensures var e := Server.HandleLine(s, Frame(r));
      && e.control.Continue? && e.session.shutdownId.None?
      && e.session.seen == s.seen + {r.id} && s.output <= e.session.output
  {
  }

  lemma ShutdownLine(s: Server.Session, r: Request)
    requires Server.Decode(Frame(r), s.seen) == Ok(r) && s.shutdownId.None? && IsShutdown(r)
    ensures var e := Server.HandleLine(s, Frame(r));
      && e.session.seen == s.seen + {r.id}
      && (if s.active.Some?
          then e.control.Continue? && e.session.shutdownId == Some(r.id) && e.session.output == s.output
          else e.control.Stop? && e.session.output == s.output + [Response(r.id, Answer(Nothing))])
  {
  }

  /** The next queued line is the next request, and only the request limit can refuse it. */
  lemma NextLineDecodes(w: World)
    requires Live(w) && SentInOrder(w) && TakenInOrder(w) && w.server.control.Continue?
    requires w.server.queue != [] && w.server.queue[0].InputLine?
    ensures Handled(w) < w.taken
    ensures var r := w.client.sent[Handled(w)];
      && w.server.queue[0].line == Frame(r) && r.id == RequestName(Handled(w) + 1)
      && Server.Decode(Frame(r), w.server.session.seen)
         == (if Handled(w) == MAX_TRACKED_REQUEST_IDS then Err(RequestLimit) else Ok(r))
      && multiset(w.server.session.seen + {r.id}) == multiset(Names(0, Handled(w) + 1))
      && r.id !in w.server.session.seen
  {
    FirstQueuedIsNext(w);
    NextDecodes(w.server.session.seen, w.client.sent[Handled(w)], Handled(w));
  }

  lemma FirstQueuedIsNext(w: World)
    requires TakenInOrder(w) && w.server.control.Continue?
    requires w.server.queue != [] && w.server.queue[0].InputLine?
    ensures Handled(w) < w.taken <= |w.client.sent|
    ensures w.server.queue[0].line == Frame(w.client.sent[Handled(w)])
  {
    var lines := QueuedLines(w.server.queue);
    assert lines[0] == w.server.queue[0].line;
    assert w.client.sent[Handled(w)..w.taken][0] == w.client.sent[Handled(w)];
  }

  lemma NextDecodes(seen: set<Id>, r: Request, n: nat)
    requires multiset(seen) == multiset(Names(0, n)) && n <= MAX_TRACKED_REQUEST_IDS
    requires r.id == RequestName(n + 1)
    ensures Server.Decode(Frame(r), seen) == (if n == MAX_TRACKED_REQUEST_IDS then Err(RequestLimit) else Ok(r))
    ensures multiset(seen + {r.id}) == multiset(Names(0, n + 1)) && r.id !in seen
  {
    RecordsNext(seen, n);
    RequestNameFits(n + 1);
  }

  /** Recording the next name keeps the recorded ids the first names. */
  lemma RecordsNext(seen: set<Id>, n: nat)
    requires multiset(seen) == multiset(Names(0, n))
    ensures |seen| == n && RequestName(n + 1) !in seen
    ensures multiset(seen + {RequestName(n + 1)}) == multiset(Names(0, n + 1))
  {
    var id := RequestName(n + 1);
    assert |multiset(seen)| == |multiset(Names(0, n))|;
    FreshName(seen, n);
    assert Names(0, n + 1) == Names(0, n) + [id];
    assert multiset(seen + {id}) == multiset(seen) + multiset{id};
  }

  lemma FreshName(seen: set<Id>, n: nat)
    requires multiset(seen) == multiset(Names(0, n))
    ensures RequestName(n + 1) !in seen
  {
    if RequestName(n + 1) in seen {
      assert RequestName(n + 1) in multiset(seen);
      var i :| 0 <= i < n && Names(0, n)[i] == RequestName(n + 1);
      RequestNameInjective(i + 1, n + 1);
    }
  }

  // ----- honest codes

  predicate HonestFrame(f: OutFrame) {
    f.Response? && f.outcome.Error? ==> CodeName(f.outcome.code) != C.ERROR_INVALID
  }

  /** A line is answered with the bridge's own codes. */
  lemma LineCodes(s: Server.Session, line: Line)
    ensures var t := Server.HandleLine(s, line).session;
      forall f :: f in t.output && f !in s.output && f.Response? && f.outcome.Error? ==> !f.outcome.code.Upstream?
  {
  }

  lemma HandleCodes(s: Server.Session, event: Server.InputEvent)
    requires event.OperationFinished? ==> s.active == Some(event.id) && HonestCode(event.result)
    ensures forall f :: f in Server.Handle(s, event).session.output && f !in s.output ==> HonestFrame(f)
  {
    var t := Server.Handle(s, event).session;
    if event.InputLine? {
      LineCodes(s, event.line);
    } else if event.OperationFinished? {
      Sys.OperationShape(s, event.id, event.result);
    }
    forall f | f in t.output && f !in s.output ensures HonestFrame(f) {
      if f.Response? && f.outcome.Error? && !f.outcome.code.Upstream? {
        BridgeCodesAreHonest(f.outcome.code);
      }
    }
  }

  lemma TakeKeepsCodes(s: Sys.System)
    requires Sys.Shape(s) && HonestCodes(s) && Sys.Enabled(s, Sys.Take)
    ensures HonestCodes(Sys.Next(s, Sys.Take))
  {
    var event, t := s.queue[0], Sys.Next(s, Sys.Take);
    assert event in s.queue;
    if event.OperationFinished? { Sys.CompletionIsActive(s); }
    HandleCodes(s.session, event);
    assert forall e :: e in t.queue ==> e in s.queue;
    assert forall x :: x in t.workers && x !in s.workers ==> x.phase.Working?;
  }

  lemma BridgeKeepsCodes(s: Sys.System, a: Sys.Action)
    requires Sys.Shape(s) && HonestCodes(s)
    requires a.Decide? ==> HonestCode(a.result)
    ensures HonestCodes(Sys.Next(s, a))
  {
    if Sys.Enabled(s, a) {
      if a.Take? {
        TakeKeepsCodes(s);
      } else if a.Publish? {
        PublishKeepsCodes(s, a.worker);
      } else if a.Decide? {
        DecideKeepsCodes(s, a.worker, a.result);
      } else {
        ReadKeepsCodes(s, a);
      }
    }
  }

  lemma ReadKeepsCodes(s: Sys.System, a: Sys.Action)
    requires HonestCodes(s) && Sys.Enabled(s, a) && (a.Read? || a.ReadEnd? || a.ReadFailure?)
    ensures HonestCodes(Sys.Next(s, a))
  {
    assert forall e :: e in Sys.Next(s, a).queue && e.OperationFinished? ==> e in s.queue;
  }

  lemma PublishKeepsCodes(s: Sys.System, i: nat)
    requires HonestCodes(s) && Sys.Enabled(s, Sys.Publish(i))
    ensures HonestCodes(Sys.Next(s, Sys.Publish(i)))
  {
    var x, t := s.workers[i], Sys.Next(s, Sys.Publish(i));
    assert x in s.workers;
    assert forall w :: w in t.workers ==> w in s.workers;
    assert forall e :: e in t.queue ==> e in s.queue || e == Server.OperationFinished(x.id, x.phase.result);
  }

  lemma DecideKeepsCodes(s: Sys.System, i: nat, result: Server.WorkResult)
    requires HonestCodes(s) && HonestCode(result) && Sys.Enabled(s, Sys.Decide(i, result))
    ensures HonestCodes(Sys.Next(s, Sys.Decide(i, result)))
  {
    var t := Sys.Next(s, Sys.Decide(i, result));
    assert forall w :: w in t.workers ==> w in s.workers || w == Sys.Worker(s.workers[i].id, Sys.Decided(result));
  }

  // ----- each action keeps the link

  lemma ReadKeepsLink(w: World)
    requires Live(w) && Linked(w) && Enabled(w, ReadRequest)
    ensures Linked(Next(w, ReadRequest))
  {
    ReadKeepsOrder(w, Next(w, ReadRequest));
    QueueKeepsLink(w, Next(w, ReadRequest));
  }

  lemma FramesSnoc(requests: seq<Request>, r: Request)
    ensures Frames(requests + [r]) == Frames(requests) + [Frame(r)]
  {
  }

  lemma ReadKeepsOrder(w: World, v: World)
    requires TakenInOrder(w) && w.taken < |w.client.sent|
    requires v.client == w.client && v.taken == w.taken + 1
    requires v.server == w.server.(queue := w.server.queue + [Server.InputLine(Frame(w.client.sent[w.taken]))])
    ensures TakenInOrder(v)
  {
    var n, r := Handled(w), w.client.sent[w.taken];
    QueuedLinesSnoc(w.server.queue, Server.InputLine(Frame(r)));
    assert w.client.sent[n..w.taken + 1] == w.client.sent[n..w.taken] + [r];
    FramesSnoc(w.client.sent[n..w.taken], r);
  }

  lemma WorkKeepsLink(w: World, b: Sys.Action)
    requires Live(w) && Linked(w) && Enabled(w, Bridge(b)) && !b.Take?
    ensures Linked(Next(w, Bridge(b)))
  {
    var v := Next(w, Bridge(b));
    WorkLeavesQueuedLines(w.server, b);
    QueueKeepsLink(w, v);
  }

  /** Only the server's queue and workers change, and the queued lines stay the requests taken. */
  lemma QueueKeepsLink(w: World, v: World)
    requires Live(w) && Linked(w) && TakenInOrder(v)
    requires v == w.(server := v.server, taken := v.taken) && w.taken <= v.taken
    requires v.server.session == w.server.session && v.server.control == w.server.control
    ensures Linked(v)
  {
    QueueIsApart(w, v);
  }

  lemma QueueIsApart(w: World, v: World)
    requires SentInOrder(w) && Received(w) && ShutdownLast(w) && ShutdownTaken(w)
    requires v == w.(server := v.server, taken := v.taken) && w.taken <= v.taken
    requires v.server.session == w.server.session && v.server.control == w.server.control
    ensures SentInOrder(v) && Received(v) && ShutdownLast(v) && ShutdownTaken(v)
  {
  }

  lemma WorkLeavesQueuedLines(s: Sys.System, b: Sys.Action)
    requires Sys.Enabled(s, b) && (b.Publish? || b.Decide?)
    ensures var t := Sys.Next(s, b);
      && t.session == s.session && t.control == s.control && t.readerDone == s.readerDone
      && QueuedLines(t.queue) == QueuedLines(s.queue)
      && (forall e :: e in t.queue ==> e in s.queue || e.OperationFinished?)
  {
    if b.Publish? {
      var x := s.workers[b.worker];
      QueuedLinesSnoc(s.queue, Server.OperationFinished(x.id, x.phase.result));
    }
  }

  /** The loop takes one event: the queue loses it, and the session is what handling it gives. */
  ghost predicate Takes(w: World, v: World, e: Server.Effect) {
    && v.client == w.client && v.taken == w.taken && v.delivered == w.delivered
    && v.eof == w.eof && v.closed == w.closed
    && w.server.queue != [] && v.server.queue == w.server.queue[1..]
    && v.server.session == e.session && v.server.control == e.control
    && w.server.session.output <= e.session.output && v.server.readerDone == w.server.readerDone
  }

  lemma TakeEffect(w: World)
    requires Enabled(w, Bridge(Sys.Take))
    ensures Takes(w, Next(w, Bridge(Sys.Take)), Server.Handle(w.server.session, w.server.queue[0]))
  {
    HandleOnlyAppends(w.server.session, w.server.queue[0]);
  }

  lemma HandleOnlyAppends(s: Server.Session, event: Server.InputEvent)
    ensures s.output <= Server.Handle(s, event).session.output
  {
  }

  lemma TakeKeepsReceived(w: World, v: World, e: Server.Effect)
    requires Received(w) && Takes(w, v, e)
    requires e.control.Abort? ==> e.session.output != w.server.session.output
    ensures Received(v)
  {
    assert e.session.output[..w.delivered] == w.server.session.output[..w.delivered];
  }

  /** The lines left in the queue are the requests after the first one. */
  lemma SliceAfterFirst(w: World, v: World, e: Server.Effect)
    requires TakenInOrder(w) && w.server.control.Continue? && Handled(w) < w.taken
    requires Takes(w, v, e) && w.server.queue[0].InputLine?
    ensures QueuedLines(v.server.queue) == Frames(w.client.sent[Handled(w) + 1..w.taken])
    ensures forall x :: x in v.server.queue ==> x in w.server.queue
  {
    var slice := w.client.sent[Handled(w)..w.taken];
    assert QueuedLines(w.server.queue) == [w.server.queue[0].line] + QueuedLines(w.server.queue[1..]);
    assert w.client.sent[Handled(w) + 1..w.taken] == slice[1..];
    assert Frames(slice)[1..] == Frames(slice[1..]);
  }

  lemma RecordKeepsOrder(w: World, v: World, e: Server.Effect)
    requires Live(w) && SentInOrder(w) && TakenInOrder(w) && w.server.control.Continue?
    requires Takes(w, v, e) && w.server.queue[0].InputLine? && !e.control.Abort?
    requires Handled(w) < w.taken && Handled(w) < MAX_TRACKED_REQUEST_IDS
    requires e.session.seen == w.server.session.seen + {w.client.sent[Handled(w)].id}
    ensures TakenInOrder(v) && Handled(v) == Handled(w) + 1
  {
    NextLineDecodes(w);
    SliceAfterFirst(w, v, e);
  }

  /** A recorded request that is not the shutdown leaves the shutdown untaken. */
  lemma PlainKeepsLink(w: World, v: World, e: Server.Effect)
    requires Live(w) && Linked(w) && w.server.control.Continue? && Takes(w, v, e) && TakenInOrder(v) && Received(v)
    requires e.control.Continue? && e.session.shutdownId.None?
    requires Handled(w) < w.taken && Handled(v) == Handled(w) + 1 && !w.client.sent[Handled(w)].verb.Shutdown?
    ensures Linked(v)
  {
  }

  lemma ShutdownKeepsLink(w: World, v: World, e: Server.Effect)
    requires Live(w) && Linked(w) && w.server.control.Continue? && Takes(w, v, e) && TakenInOrder(v) && Received(v)
    requires Handled(w) < w.taken && Handled(v) == Handled(w) + 1 && w.client.sent[Handled(w)].verb.Shutdown?
    requires var id := w.client.sent[Handled(w)].id;
      || (e.control.Continue? && e.session.shutdownId == Some(id))
      || (e.control.Stop? && e.session.output == w.server.session.output + [Response(id, Answer(Nothing))])
    ensures Linked(v)
  {
    assert Handled(w) == |w.client.sent| - 1;
  }

  lemma CompletionKeepsLink(w: World, v: World, e: Server.Effect)
    requires Live(w) && Linked(w) && w.server.control.Continue? && Takes(w, v, e) && TakenInOrder(v) && Received(v)
    requires Handled(v) == Handled(w)
    requires match w.server.session.shutdownId
      case None => e.control.Continue? && e.session.shutdownId.None?
      case Some(id) => e.control.Stop? && |e.session.output| > 0
                       && e.session.output[|e.session.output| - 1] == Response(id, Answer(Nothing))
    ensures Linked(v)
  {
  }

  lemma RefusedKeepsLink(w: World, v: World, e: Server.Effect)
    requires Live(w) && Linked(w) && w.server.control.Continue? && Takes(w, v, e)
    requires e == Server.Fail(w.server.session, RequestLimit, w.server.session.active)
    requires Handled(w) == MAX_TRACKED_REQUEST_IDS < w.taken
    ensures Linked(v)
  {
    TakeKeepsReceived(w, v, e);
  }

  lemma TakeLineKeepsLink(w: World)
    requires Live(w) && Linked(w) && Enabled(w, Bridge(Sys.Take)) && w.server.queue[0].InputLine?
    ensures Linked(Next(w, Bridge(Sys.Take)))
  {
    var n, v := Handled(w), Next(w, Bridge(Sys.Take));
    var e := Server.Handle(w.server.session, w.server.queue[0]);
    TakeEffect(w);
    NextLineDecodes(w);
    var r := w.client.sent[n];
    if n == MAX_TRACKED_REQUEST_IDS {
      RefusedKeepsLink(w, v, e);
    } else {
      RecordedKeepsLink(w, v, e);
    }
  }

  lemma RecordedKeepsLink(w: World, v: World, e: Server.Effect)
    requires Live(w) && Linked(w) && w.server.control.Continue? && Takes(w, v, e)
    requires Handled(w) < w.taken && Handled(w) < MAX_TRACKED_REQUEST_IDS
    requires w.server.queue[0] == Server.InputLine(Frame(w.client.sent[Handled(w)]))
    requires e == Server.HandleLine(w.server.session, Frame(w.client.sent[Handled(w)]))
    ensures Linked(v)
  {
    var s, r := w.server.session, w.client.sent[Handled(w)];
    NextLineDecodes(w);
    assert s.shutdownId.None?;
    if r.verb.Shutdown? { ShutdownLine(s, r); } else { PlainLine(s, r); }
    RecordKeepsOrder(w, v, e);
    TakeKeepsReceived(w, v, e);
    if r.verb.Shutdown? { ShutdownKeepsLink(w, v, e); } else { PlainKeepsLink(w, v, e); }
  }

  lemma TakeCompletionKeepsLink(w: World)
    requires Live(w) && Linked(w) && Sys.Shape(w.server)
    requires Enabled(w, Bridge(Sys.Take)) && w.server.queue[0].OperationFinished?
    ensures Linked(Next(w, Bridge(Sys.Take)))
  {
    TakeEffect(w);
    HeadIsActive(w.server);
    FinishedKeepsLink(w, Next(w, Bridge(Sys.Take)), Server.Handle(w.server.session, w.server.queue[0]));
  }

  lemma HeadIsActive(s: Sys.System)
    requires Sys.Shape(s) && s.control.Continue? && s.queue != [] && s.queue[0].OperationFinished?
    ensures s.session.active == Some(s.queue[0].id)
  {
    Sys.CompletionIsActive(s);
  }

  lemma CompletionEffect(s: Server.Session, id: Id, result: Server.WorkResult)
    requires s.active == Some(id)
    ensures var e := Server.HandleOperation(s, id, result);
      && e.session.seen == s.seen && e.session.shutdownId.None?
      && match s.shutdownId
         case None => e.control.Continue?
         case Some(d) => e.control.Stop? && |e.session.output| > 0
                         && e.session.output[|e.session.output| - 1] == Response(d, Answer(Nothing))
  {
  }

  lemma FinishedKeepsLink(w: World, v: World, e: Server.Effect)
    requires Live(w) && Linked(w) && w.server.control.Continue? && Takes(w, v, e)
    requires w.server.queue[0].OperationFinished? && w.server.session.active == Some(w.server.queue[0].id)
    requires e == Server.HandleOperation(w.server.session, w.server.queue[0].id, w.server.queue[0].result)
    ensures Linked(v)
  {
    CompletionEffect(w.server.session, w.server.queue[0].id, w.server.queue[0].result);
    CompletionKeepsOrder(w, v, e);
    TakeKeepsReceived(w, v, e);
    CompletionKeepsLink(w, v, e);
  }

  lemma CompletionKeepsOrder(w: World, v: World, e: Server.Effect)
    requires TakenInOrder(w) && w.server.control.Continue? && Takes(w, v, e)
    requires w.server.queue[0].OperationFinished? && e.session.seen == w.server.session.seen
    ensures TakenInOrder(v) && Handled(v) == Handled(w)
  {
    assert QueuedLines(w.server.queue) == QueuedLines(w.server.queue[1..]);
    assert forall x :: x in v.server.queue ==> x in w.server.queue;
  }

  // ----- the client's side of the link

  /** A request written in the ready state is appended to what was sent. */
  lemma SendKeepsLink(w: World, v: World, verb: Verb, params: Params, listens: bool)
    requires Live(w) && Linked(w) && w.client.state.ReadyState?
    requires var c := C.SendRequest(w.client, verb, params, listens, false);
      || (v == w.(client := c) && !verb.Shutdown?)
      || (v == w.(client := c.(state := C.Stopping)) && verb.Shutdown? && params.NoParams?)
    ensures Linked(v)
  {
    SendKeepsOrder(w, v, verb, params);
    assert Received(v);
    SendKeepsShutdown(w, v, verb, params);
  }

  lemma SendKeepsShutdown(w: World, v: World, verb: Verb, params: Params)
    requires ShutdownLast(w) && ShutdownTaken(w) && TakenInOrder(w) && w.client.state.ReadyState?
    requires v == w.(client := v.client)
    requires v.client.sent == w.client.sent + [Request(RequestName(w.client.nextRequest + 1), verb, params)]
    requires || (v.client.state.ReadyState? && !verb.Shutdown?)
             || (v.client.state.Stopping? && verb.Shutdown? && params.NoParams?)
    ensures ShutdownLast(v) && ShutdownTaken(v)
  {
  }

  lemma SendKeepsOrder(w: World, v: World, verb: Verb, params: Params)
    requires SentInOrder(w) && TakenInOrder(w)
    requires v == w.(client := v.client) && v.client.nextRequest == w.client.nextRequest + 1
    requires v.client.sent == w.client.sent + [Request(RequestName(w.client.nextRequest + 1), verb, params)]
    ensures SentInOrder(v) && TakenInOrder(v)
  {
    assert v.client.sent[Handled(w)..w.taken] == w.client.sent[Handled(w)..w.taken];
  }

  lemma AbortKeepsLink(w: World, id: Id, throws: bool)
    requires Live(w) && Linked(w) && Enabled(w, SignalAbort(id, throws)) && Live(Next(w, SignalAbort(id, throws)))
    requires w.client.state.ReadyState? && id in w.client.listeners
    ensures Linked(Next(w, SignalAbort(id, throws)))
  {
    var u := w.(client := w.client.(listeners := w.client.listeners - {id}));
    assert Linked(u);
    if id in w.client.pending {
      SendKeepsLink(u, Next(w, SignalAbort(id, throws)), Verb.Cancel, RequestId(id), false);
    }
  }

  lemma CallKeepsLink(w: World, a: Action)
    requires Live(w) && Linked(w) && Enabled(w, a) && Live(Next(w, a)) && w.client.state.ReadyState?
    requires a.Ask? || a.SignalAbort? || a.BeginShutdown?
    ensures Linked(Next(w, a))
  {
    var c := w.client;
    match a
    case Ask(verb, params, aborted, listens, throws) =>
      if !aborted { SendKeepsLink(w, Next(w, a), verb, params, listens); }
    case SignalAbort(id, throws) =>
      if id in c.listeners { AbortKeepsLink(w, id, throws); }
    case BeginShutdown(throws) => SendKeepsLink(w, Next(w, a), Verb.Shutdown, NoParams, false);
  }

  // ----- pending requests

  /** Two accounts of the same promises: what one side has settled, and what the other has answered or still owes. */
  lemma Balance(made: multiset<Id>, settled: multiset<Id>, pending: multiset<Id>, answered: multiset<Id>,
                unread: multiset<Id>, active: multiset<Id>, deferred: multiset<Id>,
                recorded: multiset<Id>, sent: multiset<Id>)
    requires settled + pending == made == recorded + sent
    requires answered + active + deferred == recorded && answered == settled + unread
    ensures pending == sent + active + deferred + unread
  {
    forall id ensures pending[id] == (sent + active + deferred + unread)[id] {
      assert (settled + pending)[id] == (recorded + sent)[id];
      assert (answered + active + deferred)[id] == recorded[id];
      assert answered[id] == (settled + unread)[id];
    }
  }

  lemma AnsweredAndUnread(output: seq<OutFrame>, delivered: nat)
    requires delivered <= |output|
    ensures multiset(ResponseIds(output))
         == multiset(ResponseIds(output[..delivered])) + multiset(ResponseIds(output[delivered..]))
  {
    assert output == output[..delivered] + output[delivered..];
    ResponseIdsConcat(output[..delivered], output[delivered..]);
  }

  /** The client's account and the server's, put together. */
  lemma AccountsBalance(c: C.Client, s: Server.Session, delivered: nat)
    requires CP.Conserved(c) && Sys.Accounted(s)
    requires delivered <= |s.output| && CP.SettledIds(c.settled) == ResponseIds(s.output[..delivered])
    requires |s.seen| <= c.nextRequest && multiset(s.seen) == multiset(Names(0, |s.seen|))
    ensures multiset(c.pending)
      == multiset(Names(|s.seen|, c.nextRequest)) + Bag(s.active) + Bag(s.shutdownId)
         + multiset(ResponseIds(s.output[delivered..]))
  {
    AnsweredAndUnread(s.output, delivered);
    NamesSplit(0, |s.seen|, c.nextRequest);
    Balance(multiset(Names(0, c.nextRequest)), multiset(CP.SettledIds(c.settled)), multiset(c.pending),
            multiset(ResponseIds(s.output)), multiset(ResponseIds(s.output[delivered..])),
            Bag(s.active), Bag(s.shutdownId), multiset(s.seen), multiset(Names(|s.seen|, c.nextRequest)));
  }

  /**
   Each pending id in one place and once: still in the request pipe, in the server's
   queue, active, deferred as the shutdown, or answered and not yet received.
   */
  ghost predicate PendingInPlaces(w: World) {
    var s := w.server.session;
    && Handled(w) <= w.taken <= |w.client.sent| == w.client.nextRequest
    && w.delivered <= |s.output|
    && QueuedLines(w.server.queue) == Frames(w.client.sent[Handled(w)..w.taken])
    && (forall i :: 0 <= i < |w.client.sent| ==> w.client.sent[i].id == RequestName(i + 1))
    && multiset(w.client.pending)
       == multiset(Names(Handled(w), w.taken)) + multiset(Names(w.taken, w.client.nextRequest))
          + Bag(s.active) + Bag(s.shutdownId) + multiset(ResponseIds(s.output[w.delivered..]))
    && (forall id :: multiset(w.client.pending)[id] <= 1)
  }

  lemma {:induction false} PendingIsInFlight(w: World)
    requires Inv(w) && Live(w) && !w.server.control.Abort?
    ensures PendingInPlaces(w)
  {
    AccountsBalance(w.client, w.server.session, w.delivered);
    NamesSplit(Handled(w), w.taken, w.client.nextRequest);
    forall id ensures multiset(w.client.pending)[id] <= 1 { PendingOnce(w.client, id); }
  }

  /** No id is pending twice, so the places it may be in are disjoint. */
  lemma PendingOnce(c: C.Client, id: Id)
    requires CP.Conserved(c)
    ensures multiset(c.pending)[id] <= 1
  {
    NamesOnce(c.nextRequest, id);
    assert (multiset(CP.SettledIds(c.settled)) + multiset(c.pending))[id] <= 1;
  }

  lemma NamesSplit(a: nat, b: nat, c: nat)
    requires a <= b <= c
    ensures multiset(Names(a, c)) == multiset(Names(a, b)) + multiset(Names(b, c))
  {
    assert Names(a, c) == Names(a, b) + Names(b, c);
  }

  /** A response on its way to a live client answers a request that is still pending. */
  lemma NextResponseIsPending(w: World)
    requires Inv(w) && Live(w) && w.delivered < |w.server.session.output|
    requires w.server.session.output[w.delivered].Response?
    ensures w.server.session.output[w.delivered].id in w.client.pending
  {
    AccountsBalance(w.client, w.server.session, w.delivered);
    var after := w.server.session.output[w.delivered..];
    ResponseIdsContain(after, after[0]);
    assert after[0].id in multiset(ResponseIds(after));
    assert after[0].id in multiset(w.client.pending);
  }

  // ----- delivery and the end

  /** The frame on its way to the client: the greeting first, then responses, and a fatal one only at the end. */
  lemma NextFrame(s: Sys.System, d: nat)
    requires Sys.Shape(s) && d < |s.session.output|
    ensures var output := s.session.output;
      && (d == 0 ==> output[0] == Ready && (s.control.Abort? ==> |output| > 1))
      && (d > 0 ==> output[d].Response?
                    || (s.control.Abort? && output[d] == Fatal(s.control.code) && d == |output| - 1))
      && (s.control.Abort? && output[d].Response? ==> d < |output| - 1)
  {
    var output := s.session.output;
    if s.control.Abort? {
      var body := output[..|output| - 1];
      assert forall i :: 0 <= i < |body| ==> body[i] == output[i];
    }
  }

  /** How a response of the bridge settles the promise it answers. */
  function Settlement(o: Outcome): C.Settlement {
    match o
    case Answer(value) => C.Resolved(value)
    case Cancelled => C.RejectedCancelled
    case Error(code) => C.RejectedError(CodeName(code))
  }

  /** A response to a pending request settles it and leaves the client as it was otherwise. */
  lemma ResponseSettles(c: C.Client, f: OutFrame)
    requires f.Response? && HonestFrame(f) && f.id in c.pending
    ensures C.ReceiveFrame(c, Wire(f)) == C.Settle(c, f.id, Settlement(f.outcome))
  {
  }

  lemma SettledSnoc(settled: seq<C.Settled>, x: C.Settled)
    ensures CP.SettledIds(settled + [x]) == CP.SettledIds(settled) + [x.id]
  {
    assert (settled + [x])[..|settled|] == settled;
  }

  lemma SettlingKeepsLink(w: World, f: OutFrame, how: C.Settlement)
    requires Live(w) && Linked(w) && 0 < w.delivered < |w.server.session.output|
    requires f == w.server.session.output[w.delivered] && f.Response?
    requires w.server.control.Abort? ==> w.delivered < |w.server.session.output| - 1
    requires !w.eof
    ensures Linked(w.(client := C.Settle(w.client, f.id, how), delivered := w.delivered + 1))
  {
    var d, output := w.delivered, w.server.session.output;
    assert output[..d + 1] == output[..d] + [f];
    ResponseIdsSnoc(output[..d], f);
    SettledSnoc(w.client.settled, C.Settled(f.id, how));
  }

  lemma GreetingKeepsLink(w: World, c: C.Client)
    requires Live(w) && Linked(w) && w.delivered == 0 < |w.server.session.output|
    requires w.server.control.Abort? ==> |w.server.session.output| > 1
    requires w.server.session.output[0] == Ready && c == C.ReceiveFrame(w.client, C.ReadyEvent(true)) && !w.eof
    ensures c.failure.None? && Linked(w.(client := c, delivered := 1))
  {
    var output := w.server.session.output;
    assert output[..1] == output[..0] + [Ready];
    ResponseIdsSnoc(output[..0], Ready);
  }

  /** While frames are left to receive, the client has not seen the end of output. */
  lemma OutputNotEnded(w: World)
    requires Live(w) && Linked(w) && w.delivered < |w.server.session.output|
    ensures !w.eof
  {
  }

  /**
   Receiving a frame never surprises a live client: it fails only when the
   bridge reports, by a fatal event, that the session's request limit is spent.
   */
  lemma {:induction false} DeliveryNeverSurprises(w: World)
    requires Inv(w) && Live(w) && Enabled(w, Deliver)
    ensures var v := Next(w, Deliver);
      if Live(v) then Linked(v)
      else v.client.failure == Some(C.Reported(CodeName(RequestLimit))) && Handled(w) == MAX_TRACKED_REQUEST_IDS
  {
    var f := w.server.session.output[w.delivered];
    NextFrame(w.server, w.delivered);
    OutputNotEnded(w);
    assert f in w.server.session.output;
    if w.delivered == 0 {
      GreetingKeepsLink(w, Next(w, Deliver).client);
    } else if f.Response? {
      NextResponseIsPending(w);
      ResponseSettles(w.client, f);
      SettlingKeepsLink(w, f, Settlement(f.outcome));
    } else {
      FatalFails(w, f);
    }
  }

  lemma FatalFails(w: World, f: OutFrame)
    requires Live(w) && Linked(w) && w.server.control.Abort? && f == Fatal(w.server.control.code)
    ensures C.ReceiveFrame(w.client, Wire(f)).failure == Some(C.Reported(CodeName(RequestLimit)))
    ensures Handled(w) == MAX_TRACKED_REQUEST_IDS
  {
  }

  /** Once the bridge has stopped and all is received, nothing is pending. */
  lemma {:induction false} NothingPendingAtEnd(w: World)
    requires Inv(w) && Live(w) && w.server.control.Stop? && w.delivered == |w.server.session.output|
    ensures w.client.pending == []
  {
    AccountsBalance(w.client, w.server.session, w.delivered);
    assert w.server.session.output[w.delivered..] == [];
    assert Names(Handled(w), w.client.nextRequest) == [];
    assert multiset(w.client.pending) == multiset{};
    assert |w.client.pending| == |multiset(w.client.pending)|;
  }

  /** A live client sees the end of output, and the exit, only after a clean stop, and takes them as such. */
  lemma {:induction false} EndKeepsLink(w: World, a: Action)
    requires Inv(w) && Live(w) && Enabled(w, a) && (a.EndOfOutput? || a.Exit?)
    ensures var v := Next(w, a);
      Live(v) && Linked(v) && w.server.control.Stop? && (a.Exit? ==> v.client.state.Stopped?)
  {
    assert w.server.control.Stop? && w.delivered == |w.server.session.output|;
    NothingPendingAtEnd(w);
    EndEffect(w, a);
  }

  lemma EndEffect(w: World, a: Action)
    requires Live(w) && Linked(w) && Enabled(w, a) && (a.EndOfOutput? || a.Exit?)
    requires w.server.control.Stop? && w.client.pending == []
    ensures var v := Next(w, a);
      Live(v) && Linked(v) && (a.Exit? ==> v.client.state.Stopped?)
  {
    if a.Exit? { ExitEffect(w); } else { EofEffect(w); }
  }

  lemma EofEffect(w: World)
    requires Live(w) && Linked(w) && Enabled(w, EndOfOutput) && w.server.control.Stop? && w.client.pending == []
    ensures Live(Next(w, EndOfOutput)) && Linked(Next(w, EndOfOutput))
  {
    assert w.client.state.Stopping? && Next(w, EndOfOutput) == w.(eof := true);
  }

  lemma ExitEffect(w: World)
    requires Live(w) && Linked(w) && Enabled(w, Exit) && w.server.control.Stop? && w.client.pending == []
    ensures Live(Next(w, Exit)) && Linked(Next(w, Exit)) && Next(w, Exit).client.state.Stopped?
  {
    var v := w.(client := w.client.(state := C.Stopped), closed := true);
    assert w.client.state.Stopping? && Next(w, Exit) == v;
    TakenIsApart(w, v);
    StoppingKeepsLink(w, v);
  }

  lemma StoppingKeepsLink(w: World, v: World)
    requires SentInOrder(w) && Received(w) && ShutdownLast(w) && ShutdownTaken(w)
    requires w.client.state.Stopping? && w.server.control.Stop? && w.eof
    requires v == w.(client := w.client.(state := C.Stopped), closed := true)
    ensures SentInOrder(v) && Received(v) && ShutdownLast(v) && ShutdownTaken(v)
  {
  }

  /** What the server has taken depends on nothing else. */
  lemma TakenIsApart(w: World, v: World)
    requires TakenInOrder(w) && v.server == w.server && v.taken == w.taken && v.client.sent == w.client.sent
    ensures TakenInOrder(v)
  {
  }

  // ----- every run

  lemma ClientKeepsInv(w: World, a: Action)
    requires CP.Inv(w.client)
    ensures CP.Inv(Next(w, a).client)
  {
    if Enabled(w, a) {
      if a.Deliver? {
        CP.ReceiveKeepsInv(w.client, Wire(w.server.session.output[w.delivered]));
      } else if ClientEvent(w, a).Some? {
        CP.StepKeepsInv(NoText, w.client, ClientEvent(w, a).value);
      }
    }
  }

  lemma ServerKeepsInv(w: World, a: Action)
    requires Sys.Inv(w.server) && HonestCodes(w.server)
    ensures Sys.Inv(Next(w, a).server) && HonestCodes(Next(w, a).server)
  {
    if Enabled(w, a) {
      if a.ReadRequest? {
        Sys.NextKeepsInv(w.server, Sys.Read(Frame(w.client.sent[w.taken])));
        BridgeKeepsCodes(w.server, Sys.Read(Frame(w.client.sent[w.taken])));
      } else if a.Bridge? {
        Sys.NextKeepsInv(w.server, a.action);
        BridgeKeepsCodes(w.server, a.action);
      }
    }
  }

  lemma NextKeepsLink(w: World, a: Action)
    requires Inv(w) && Enabled(w, a) && Live(w) && Live(Next(w, a))
    ensures Linked(Next(w, a))
  {
    match a
    case Deliver => DeliveryNeverSurprises(w);
    case EndOfOutput => EndKeepsLink(w, a);
    case Exit => EndKeepsLink(w, a);
    case ReadRequest => ReadKeepsLink(w);
    case Bridge(b) => BridgeKeepsLink(w, b);
    case Fault(e) => FaultKeepsLink(w, e);
    case _ => CallsKeepLink(w, a);
  }

  lemma BridgeKeepsLink(w: World, b: Sys.Action)
    requires Inv(w) && Enabled(w, Bridge(b)) && Live(w)
    ensures Linked(Next(w, Bridge(b)))
  {
    if !b.Take? {
      WorkKeepsLink(w, b);
    } else if w.server.queue[0].InputLine? {
      TakeLineKeepsLink(w);
    } else {
      assert w.server.queue[0] in w.server.queue;
      TakeCompletionKeepsLink(w);
    }
  }

  /** A fault that leaves the client live changes nothing. */
  lemma FaultKeepsLink(w: World, e: C.Event)
    requires Live(w) && Linked(w) && Enabled(w, Fault(e)) && Live(Next(w, Fault(e)))
    ensures Linked(Next(w, Fault(e)))
  {
    assert Next(w, Fault(e)) == w;
  }

  lemma CallsKeepLink(w: World, a: Action)
    requires Live(w) && Linked(w) && Enabled(w, a) && Live(Next(w, a)) && CP.Tidy(w.client)
    requires a.Ask? || a.SignalAbort? || a.BeginShutdown?
    ensures Linked(Next(w, a))
  {
    if w.client.state.ReadyState? {
      CallKeepsLink(w, a);
    } else {
      CallIsIdle(w, a);
      assert Linked(w.(client := w.client.(listeners := Next(w, a).client.listeners)));
    }
  }

  /** A client that is not ready writes nothing; at most it drops a listener. */
  lemma CallIsIdle(w: World, a: Action)
    requires Enabled(w, a) && !w.client.state.ReadyState? && (a.Ask? || a.SignalAbort? || a.BeginShutdown?)
    ensures Next(w, a) == w.(client := w.client.(listeners := Next(w, a).client.listeners))
  {
  }

  /** A failure, once recorded, stays recorded. */
  lemma FailureStays(w: World, a: Action)
    requires CP.Tidy(w.client)
    ensures Live(Next(w, a)) ==> Live(w)
  {
  }

  lemma NextKeepsInv(w: World, a: Action)
    requires Inv(w)
    ensures Inv(Next(w, a))
  {
    ClientKeepsInv(w, a);
    ServerKeepsInv(w, a);
    FailureStays(w, a);
    if Enabled(w, a) && Live(w) && Live(Next(w, a)) {
      NextKeepsLink(w, a);
    }
  }

  lemma {:induction false} RunKeepsInv(actions: seq<Action>)
    ensures Inv(Run(actions))
  {
    if actions == [] {
      CP.RunKeepsInv(NoText, []);
      Sys.RunKeepsInv([]);
      assert Names(0, 0) == [];
      assert Frames([]) == [];
    } else {
      RunKeepsInv(actions[..|actions| - 1]);
      NextKeepsInv(Run(actions[..|actions| - 1]), actions[|actions| - 1]);
    }
  }
}
