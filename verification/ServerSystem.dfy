/**
 The whole bridge process: input reader, worker threads and event loop around
 one bounded channel. A run is any list of actions; an action that is not
 enabled leaves the system as it is, so every interleaving is a run.
 */
module ServerSystem {
  import opened Common
  import opened Protocol
  import opened Server

  /** A worker has passed the operation's last cancellation check once its result is decided. */
  datatype Phase = Working | Decided(result: WorkResult)

  datatype Worker = Worker(id: Id, phase: Phase)

  /** `early` records the ids whose flag was set while their worker was still working. */
  datatype System = System(
    session: Session,
    control: Control,
    queue: seq<InputEvent>,
    workers: seq<Worker>,
    readerDone: bool,
    early: set<Id>)

  datatype Action =
    | Read(line: Line)
    | ReadEnd
    | ReadFailure
    | Decide(worker: nat, result: WorkResult)
    | Publish(worker: nat)
    | Take

  function Start(): System {
    System(Initial(), Continue, [], [], false, {})
  }

  predicate HasRoom(s: System) {
    |s.queue| < CHANNEL_CAPACITY
  }

  /** A worker that sees its flag set never succeeds; one that does not is never cancelled. */
  predicate Possible(result: WorkResult, flagged: bool) {
    if flagged then !result.Success? else !result.WasCancelled?
  }

  predicate Enabled(s: System, a: Action) {
    s.control.Continue? &&
    match a
    case Read(_) => !s.readerDone && HasRoom(s)
    case ReadEnd => !s.readerDone && HasRoom(s)
    case ReadFailure => !s.readerDone && HasRoom(s)
    case Decide(i, result) =>
      i < |s.workers| && s.workers[i].phase.Working? && Possible(result, s.workers[i].id in s.session.tokens)
    case Publish(i) => i < |s.workers| && s.workers[i].phase.Decided? && HasRoom(s)
    case Take => s.queue != []
  }

  function Next(s: System, a: Action): System {
    if !Enabled(s, a) then s else
    match a
    case Read(line) => s.(queue := s.queue + [InputLine(line)])
    case ReadEnd => s.(queue := s.queue + [InputEnd], readerDone := true)
    case ReadFailure => s.(queue := s.queue + [InputFailed], readerDone := true)
    case Decide(i, result) => s.(workers := s.workers[i := Worker(s.workers[i].id, Decided(result))])
    case Publish(i) =>
      s.(workers := s.workers[..i] + s.workers[i + 1..],
         queue := s.queue + [OperationFinished(s.workers[i].id, s.workers[i].phase.result)])
    case Take =>
      var effect := Handle(s.session, s.queue[0]);
      var started := effect.session.spawned[|s.session.spawned|..];
      s.(session := effect.session,
         control := effect.control,
         queue := s.queue[1..],
         workers := s.workers + seq(|started|, i requires 0 <= i < |started| => Worker(started[i], Working)),
         early := s.early + set w | w in s.workers && w.phase.Working?
                                     && w.id in effect.session.tokens - s.session.tokens :: w.id)
  }

  function Run(actions: seq<Action>): System {
    if actions == [] then Start() else Next(Run(actions[..|actions| - 1]), actions[|actions| - 1])
  }

  // ----- what every reachable system satisfies

  function WorkerIds(workers: seq<Worker>): seq<Id> {
    seq(|workers|, i requires 0 <= i < |workers| => workers[i].id)
  }

  /** The ids of the completions waiting in the queue. */
  function FinishedIds(queue: seq<InputEvent>): seq<Id> {
    if queue == [] then []
    else (if queue[0].OperationFinished? then [queue[0].id] else []) + FinishedIds(queue[1..])
  }

  lemma {:induction false} FinishedIdsConcat(a: seq<InputEvent>, b: seq<InputEvent>)
    ensures FinishedIds(a + b) == FinishedIds(a) + FinishedIds(b)
  {
    if a == [] {
      assert a + b == b;
    } else {
      FinishedIdsConcat(a[1..], b);
      assert (a + b)[1..] == a[1..] + b;
    }
  }

  /** A worker is running or its completion is queued exactly for the active id. */
  ghost predicate OneWorker(s: System) {
    WorkerIds(s.workers) + FinishedIds(s.queue) == Held(s.session.active)
  }

  /** Every recorded id is answered once, or active, or the deferred shutdown: exactly one of them. */
  ghost predicate Accounted(s: Session) {
    multiset(ResponseIds(s.output)) + Bag(s.active) + Bag(s.shutdownId) == multiset(s.seen)
  }

  /** Frames between the greeting and the end are all responses. */
  ghost predicate Responses(frames: seq<OutFrame>) {
    frames != [] && frames[0] == Ready && forall i :: 1 <= i < |frames| ==> frames[i].Response?
  }

  /** After the reader has delivered its last event, that event is queued or was survived. */
  ghost predicate ReaderAccounted(s: System) {
    s.readerDone ==> InputEnd in s.queue || InputFailed in s.queue || s.session.shutdownId.Some?
  }

  // ----- one event: the account

  /** All ids are accounted for but this one. */
  ghost predicate Owes(s: Session, id: Id) {
    multiset(ResponseIds(s.output)) + Bag(s.active) + Bag(s.shutdownId) + multiset{id} == multiset(s.seen)
  }

  lemma RecordingOwes(s: Session, id: Id)
    requires Accounted(s) && id !in s.seen
    ensures Owes(s.(seen := s.seen + {id}), id)
  {
    assert multiset(s.seen + {id}) == multiset(s.seen) + multiset{id};
  }

  lemma RespondPays(s: Session, id: Id, outcome: Outcome)
    requires Owes(s, id)
    ensures Accounted(Respond(s, id, outcome))
  {
    ResponseIdsSnoc(s.output, Response(id, outcome));
  }

  lemma FailKeepsAccount(s: Session, code: ErrorCode, active: Option<Id>)
    requires Accounted(s)
    ensures Accounted(Fail(s, code, active).session)
  {
    ResponseIdsSnoc(s.output, Fatal(code));
  }

  lemma RunPays(s: Session, r: Request)
    requires Owes(s, r.id)
    ensures Accounted(HandleRun(s, r))
  {
    if s.active.Some? {
      RespondPays(s, r.id, Error(Busy));
    } else if !Accepts(r.verb, r.params) {
      RespondPays(s, r.id, Error(ParamsInvalid));
    }
  }

  lemma CancelPays(s: Session, r: Request)
    requires Owes(s, r.id)
    ensures Accounted(HandleCancel(s, r))
  {
    if !r.params.RequestId? {
      RespondPays(s, r.id, Error(ParamsInvalid));
    } else {
      var target := r.params.requestId;
      if s.active != Some(target) {
        RespondPays(s, r.id, Error(RequestNotActive));
      } else {
        RespondPays(s.(tokens := s.tokens + {target}), r.id, Answer(CancelReport(target, target !in s.tokens)));
      }
    }
  }

  lemma ShutdownPays(s: Session, r: Request)
    requires Owes(s, r.id) && s.shutdownId.None?
    ensures Accounted(HandleShutdown(s, r).session)
  {
    if !Accepts(Verb.Shutdown, r.params) {
      RespondPays(s, r.id, Error(ParamsInvalid));
    } else if s.active.None? {
      RespondPays(s, r.id, Answer(Nothing));
    }
  }

  lemma StatusPays(s: Session, r: Request)
    requires Owes(s, r.id) && (r.verb.Status? || r.verb.Unsupported?)
    ensures Accounted(Dispatch(s, r).session)
  {
    if r.verb.Status? {
      RespondPays(s, r.id, if Accepts(Status, r.params) then Answer(PayloadIdentity) else Error(ParamsInvalid));
    } else {
      RespondPays(s, r.id, Error(MethodUnsupported));
    }
  }

  lemma DispatchPays(s: Session, r: Request)
    requires Owes(s, r.id) && s.shutdownId.None?
    ensures Accounted(Dispatch(s, r).session)
  {
    match r.verb
    case Perform(_) => RunPays(s, r);
    case Cancel => CancelPays(s, r);
    case Shutdown => ShutdownPays(s, r);
    case _ => StatusPays(s, r);
  }

  lemma LineKeepsAccount(s: Session, line: Line)
    requires Accounted(s)
    ensures Accounted(HandleLine(s, line).session)
  {
    var d := Decode(line, s.seen);
    if d.Err? {
      FailKeepsAccount(s, d.error, s.active);
    } else {
      var t := s.(seen := s.seen + {d.value.id});
      RecordingOwes(s, d.value.id);
      if s.shutdownId.Some? {
        RespondPays(t, d.value.id, Error(ShuttingDown));
      } else {
        DispatchPays(t, d.value);
      }
    }
  }

  lemma OperationKeepsAccount(s: Session, id: Id, result: WorkResult)
    requires Accounted(s) && s.active == Some(id)
    ensures Accounted(HandleOperation(s, id, result).session)
  {
    var taken := s.(active := None);
    assert Owes(taken, id);
    RespondPays(taken, id, OutcomeOf(result));
    if s.shutdownId.Some? {
      var answered := Respond(taken, id, OutcomeOf(result)).(shutdownId := None);
      assert Owes(answered, s.shutdownId.value);
      RespondPays(answered, s.shutdownId.value, Answer(Nothing));
    }
  }

  /** One event keeps the account; a completion is assumed to carry the active id. */
  lemma HandleKeepsAccount(s: Session, event: InputEvent)
    requires Accounted(s)
    requires event.OperationFinished? ==> s.active == Some(event.id)
    ensures Accounted(Handle(s, event).session)
  {
    match event
    case InputLine(line) => LineKeepsAccount(s, line);
    case OperationFinished(id, result) => OperationKeepsAccount(s, id, result);
    case InputEnd => FailKeepsAccount(s, InputClosed, s.active);
    case InputFailed => FailKeepsAccount(s, InputInvalid, s.active);
  }

  // ----- one event: its shape

  /** The effect of handling one line, as far as control, output and workers go. */
  lemma LineShape(s: Session, line: Line)
    requires s.shutdownId.Some? ==> s.active.Some?
    ensures var e := HandleLine(s, line);
      && (e.control.Continue? && e.session.shutdownId.Some? ==> e.session.active.Some?)
      && (e.control.Continue? ==>
          || e.session.output == s.output
          || exists o :: e.session.output == s.output + [Response(line.request.id, o)])
      && (e.control.Stop? ==>
          && e.session.active.None? && e.session.shutdownId.None?
          && e.session.output == s.output + [Response(line.request.id, Answer(Nothing))])
      && (e.control.Abort? ==>
          && e.session.output == s.output + [Fatal(e.control.code)]
          && e.control.code != OperationOrphaned && e.control.code != OperationMismatch)
      && (s.shutdownId.Some? ==> e.session.shutdownId == s.shutdownId)
      && (if e.session.active == s.active then e.session.spawned == s.spawned
          else && s.active.None? && e.session.active == Some(line.request.id)
               && e.session.spawned == s.spawned + [line.request.id])
  {
  }

  /** The completion of the active operation answers it, and then a deferred shutdown, last. */
  lemma OperationShape(s: Session, id: Id, result: WorkResult)
    requires s.active == Some(id)
    ensures var e := HandleOperation(s, id, result);
      && e.session.active.None? && e.session.shutdownId.None? && e.session.spawned == s.spawned
      && e.control == (if s.shutdownId.Some? then Stop else Continue)
      && e.session.output == s.output + [Response(id, OutcomeOf(result))]
           + if s.shutdownId.Some? then [Response(s.shutdownId.value, Answer(Nothing))] else []
  {
  }

  // ----- the invariant is inductive

  /** What `Inv` says beside the account. */
  ghost predicate Shape(s: System) {
    match s.control
    case Continue =>
      && OneWorker(s)
      && (s.session.shutdownId.Some? ==> s.session.active.Some?)
      && Responses(s.session.output)
      && ReaderAccounted(s)
    case Stop =>
      && s.session.active.None? && s.session.shutdownId.None?
      && Responses(s.session.output)
      && |s.session.output| > 1
      && s.session.output[|s.session.output| - 1].outcome == Answer(Nothing)
    case Abort(code) =>
      var last := |s.session.output| - 1;
      && last > 0 && s.session.output[last] == Fatal(code) && Responses(s.session.output[..last])
      && code != OperationOrphaned && code != OperationMismatch
  }

  ghost predicate Inv(s: System) {
    Accounted(s.session) && Shape(s)
  }

  /** With one worker at most, a queued completion means that there is no other. */
  lemma CompletionIsActive(s: System)
    requires OneWorker(s) && s.queue != [] && s.queue[0].OperationFinished?
    ensures s.session.active == Some(s.queue[0].id)
    ensures s.workers == [] && FinishedIds(s.queue[1..]) == []
  {
    assert FinishedIds(s.queue) == [s.queue[0].id] + FinishedIds(s.queue[1..]);
    assert |Held(s.session.active)| == |WorkerIds(s.workers)| + 1 + |FinishedIds(s.queue[1..])|;
    assert Held(s.session.active)[0] == s.queue[0].id;
  }

  lemma TakeLineKeepsWorker(s: System)
    requires OneWorker(s) && (s.session.shutdownId.Some? ==> s.session.active.Some?)
    requires Enabled(s, Take) && s.queue[0].InputLine? && Next(s, Take).control.Continue?
    ensures OneWorker(Next(s, Take))
  {
    var line, t := s.queue[0].line, Next(s, Take);
    LineShape(s.session, line);
    assert FinishedIds(s.queue) == FinishedIds(s.queue[1..]);
    var started := t.session.spawned[|s.session.spawned|..];
    if t.session.active == s.session.active {
      assert started == [] && t.workers == s.workers;
    } else {
      assert started == [line.request.id] && s.workers == [];
      assert WorkerIds(t.workers) == [line.request.id];
    }
  }

  lemma TakeLineKeepsShape(s: System)
    requires Shape(s) && Enabled(s, Take) && s.queue[0].InputLine?
    ensures Shape(Next(s, Take))
  {
    var line, t := s.queue[0].line, Next(s, Take);
    LineShape(s.session, line);
    if t.control.Continue? {
      TakeLineKeepsWorker(s);
      assert s.queue == [s.queue[0]] + s.queue[1..];
    } else if t.control.Abort? {
      assert t.session.output[..|s.session.output|] == s.session.output;
    }
  }

  lemma TakeOtherKeepsShape(s: System)
    requires Shape(s) && Enabled(s, Take) && !s.queue[0].InputLine?
    ensures Shape(Next(s, Take))
  {
    var event, t := s.queue[0], Next(s, Take);
    assert s.queue == [event] + s.queue[1..];
    if event.OperationFinished? {
      CompletionIsActive(s);
      OperationShape(s.session, event.id, event.result);
      assert t.workers == [];
    } else if t.control.Abort? {
      assert t.session.output[..|s.session.output|] == s.session.output;
    } else {
      assert FinishedIds(s.queue) == FinishedIds(s.queue[1..]);
      assert t.workers == s.workers;
    }
  }

  lemma OtherActionKeepsShape(s: System, a: Action)
    requires Shape(s) && Enabled(s, a) && !a.Take?
    ensures Shape(Next(s, a))
  {
    var t := Next(s, a);
    if |t.queue| > |s.queue| {
      FinishedIdsConcat(s.queue, [t.queue[|s.queue|]]);
      assert t.queue == s.queue + [t.queue[|s.queue|]];
    }
    if a.Publish? {
      assert WorkerIds(s.workers)[a.worker] == s.workers[a.worker].id;
      assert |WorkerIds(s.workers)| == 1;
      assert t.workers == [] && FinishedIds(s.queue) == [];
      assert WorkerIds(s.workers) == [s.workers[0].id];
      assert FinishedIds(t.queue) == [s.workers[0].id];
    } else if a.Decide? {
      assert WorkerIds(t.workers) == WorkerIds(s.workers);
    }
  }

  lemma NextKeepsInv(s: System, a: Action)
    requires Inv(s)
    ensures Inv(Next(s, a))
  {
    if Enabled(s, a) {
      if a.Take? {
        if s.queue[0].OperationFinished? { CompletionIsActive(s); }
        HandleKeepsAccount(s.session, s.queue[0]);
        if s.queue[0].InputLine? { TakeLineKeepsShape(s); } else { TakeOtherKeepsShape(s); }
      } else {
        OtherActionKeepsShape(s, a);
      }
    }
  }

  lemma {:induction false} RunKeepsInv(actions: seq<Action>)
    ensures Inv(Run(actions))
  {
    if actions != [] {
      RunKeepsInv(actions[..|actions| - 1]);
      NextKeepsInv(Run(actions[..|actions| - 1]), actions[|actions| - 1]);
    }
  }

  lemma RunKeepsShape(actions: seq<Action>)
    ensures Shape(Run(actions))
  {
    RunKeepsInv(actions);
  }
}
