/**
 Why the bridge answers as it does: the cause of each answer, each refusal and
 each abort, the decision behind each result, and what a deferred shutdown or an
 abort does to the operation under way.
 */
module ServerAnswers {
  import opened Common
  import opened Text
  import opened Protocol
  import opened Server
  import opened ServerSystem
  import opened ServerProperties

  // ----- a shutdown and an abort cancel the operation under way

  /** After an abort, and while a shutdown waits, the flag of every worker is set. */
  ghost predicate EndingFlags(s: System) {
    s.control.Abort? || (s.control.Continue? && s.session.shutdownId.Some?) ==>
      && (s.session.active.Some? ==> s.session.active.value in s.session.tokens)
      && forall w :: w in s.workers ==> w.id in s.session.tokens
  }

  lemma LineFlagsActive(s: Session, line: Line)
    requires s.shutdownId.Some? && s.active.Some? ==> s.active.value in s.tokens
    ensures var e := HandleLine(s, line);
      && (e.control.Abort? || (e.control.Continue? && e.session.shutdownId.Some?) ==>
            && e.session.active == s.active && e.session.spawned == s.spawned
            && (s.active.Some? ==> s.active.value in e.session.tokens))
  {
  }

  lemma TakeKeepsEndingFlags(s: System)
    requires Shape(s) && EndingFlags(s) && Enabled(s, Take)
    ensures EndingFlags(Next(s, Take))
  {
    var event, t := s.queue[0], Next(s, Take);
    WorkerIsAlone(s);
    if event.InputLine? {
      LineFlagsActive(s.session, event.line);
    } else if event.OperationFinished? {
      CompletionIsActive(s);
      OperationShape(s.session, event.id, event.result);
    }
  }

  lemma {:induction false} RunKeepsEndingFlags(actions: seq<Action>)
    ensures EndingFlags(Run(actions))
  {
    if actions != [] {
      var init, a := actions[..|actions| - 1], actions[|actions| - 1];
      var s := Run(init);
      RunKeepsEndingFlags(init);
      RunKeepsShape(init);
      if Enabled(s, a) && a.Take? {
        TakeKeepsEndingFlags(s);
      } else if Enabled(s, a) && a.Decide? {
        assert s.workers[a.worker] in s.workers;
      }
    }
  }

  /** In every run, while a shutdown is deferred the active operation exists and its flag is set. */
  lemma {:induction false} DeferredShutdownFlagsActive(actions: seq<Action>)
    requires var s := Run(actions); s.control.Continue? && s.session.shutdownId.Some?
    ensures var s := Run(actions).session; s.active.Some? && s.active.value in s.tokens
  {
    RunKeepsEndingFlags(actions);
    RunKeepsShape(actions);
  }

  /** In every run that was aborted, the flag of the operation left behind, and of its worker, is set. */
  lemma {:induction false} AbortFlagsActive(actions: seq<Action>)
    requires Run(actions).control.Abort?
    ensures var s := Run(actions);
      && (s.session.active.Some? ==> s.session.active.value in s.session.tokens)
      && forall w :: w in s.workers ==> w.id in s.session.tokens
  {
    RunKeepsEndingFlags(actions);
  }

  /** What is recorded about a started operation stays recorded. */
  lemma NextGrows(s: System, a: Action)
    requires Shape(s)
    ensures s.early <= Next(s, a).early && s.session.spawned <= Next(s, a).session.spawned
  {
    if Enabled(s, a) && a.Take? {
      var event := s.queue[0];
      if event.InputLine? {
        LineShape(s.session, event.line);
      } else if event.OperationFinished? {
        CompletionIsActive(s);
        OperationShape(s.session, event.id, event.result);
      }
    }
  }

  lemma RunOneMore(actions: seq<Action>, later: seq<Action>)
    requires later != []
    ensures Run(actions + later) == Next(Run(actions + later[..|later| - 1]), later[|later| - 1])
  {
    assert (actions + later)[..|actions + later| - 1] == actions + later[..|later| - 1];
  }

  lemma {:induction false} RunGrows(actions: seq<Action>, later: seq<Action>)
    ensures var s, t := Run(actions), Run(actions + later); s.early <= t.early && s.session.spawned <= t.session.spawned
  {
    if later == [] {
      assert actions + later == actions;
    } else {
      var init := later[..|later| - 1];
      RunGrows(actions, init);
      RunOneMore(actions, later);
      RunKeepsShape(actions + init);
      NextGrows(Run(actions + init), later[|later| - 1]);
    }
  }

  ghost predicate WorkersStarted(s: System) {
    forall w :: w in s.workers ==> w.id in s.session.spawned
  }

  lemma {:induction false} RunKeepsStarted(actions: seq<Action>)
    ensures WorkersStarted(Run(actions))
  {
    if actions != [] {
      var init, a := actions[..|actions| - 1], actions[|actions| - 1];
      var s := Run(init);
      RunKeepsStarted(init);
      RunKeepsShape(init);
      NextGrows(s, a);
      if Enabled(s, a) && a.Decide? { assert s.workers[a.worker] in s.workers; }
    }
  }

  /** An operation that is flagged while its worker is still at work is never answered with a value. */
  lemma {:induction false} FlaggedWorkIsCancelled(actions: seq<Action>, later: seq<Action>, w: Worker, f: OutFrame)
    requires var s := Run(actions);
      s.control.Continue? && w in s.workers && w.phase.Working? && w.id in s.session.tokens
    requires f in Run(actions + later).session.output && f.Response? && f.id == w.id
    ensures f.outcome.Cancelled? || f.outcome.Error?
  {
    RunKeepsCancelInv(actions);
    RunKeepsStarted(actions);
    RunGrows(actions, later);
    RunKeepsCancelInv(actions + later);
  }

  /**
   An operation whose worker is still at work when a shutdown is deferred is
   never answered with a value, however the run goes on.
   */
  lemma {:induction false} DeferredShutdownCancelsWork(actions: seq<Action>, later: seq<Action>, w: Worker, f: OutFrame)
    requires var s := Run(actions); s.control.Continue? && s.session.shutdownId.Some?
    requires w in Run(actions).workers && w.phase.Working?
    requires f in Run(actions + later).session.output && f.Response? && f.id == w.id
    ensures f.outcome.Cancelled? || f.outcome.Error?
  {
    RunKeepsEndingFlags(actions);
    FlaggedWorkIsCancelled(actions, later, w, f);
  }

  // ----- the decision behind a result

  datatype Decision = Decision(id: Id, result: WorkResult)

  /** What the workers have decided in a run, each for the operation it performs. */
  function Decisions(actions: seq<Action>): set<Decision> {
    if actions == [] then {}
    else
      var init, a := actions[..|actions| - 1], actions[|actions| - 1];
      Decisions(init)
      + if a.Decide? && Enabled(Run(init), a) then {Decision(Run(init).workers[a.worker].id, a.result)} else {}
  }

  /** How a response tells what its worker decided. */
  predicate Tells(outcome: Outcome, result: WorkResult) {
    match result
    case Success(json) => outcome == Answer(WorkValue(json))
    case WasCancelled => outcome == Cancelled
    case WorkFailed(code) => outcome == Error(Upstream(code))
  }

  ghost predicate Follows(f: OutFrame, made: set<Decision>)
    requires f.Response?
  {
    exists d :: d in made && d.id == f.id && Tells(f.outcome, d.result)
  }

  ghost predicate AnswersTraced(s: System, made: set<Decision>) {
    forall f :: f in s.session.output && f.Response? && f.id in s.session.spawned ==> Follows(f, made)
  }

  ghost predicate WorkTraced(s: System, made: set<Decision>) {
    && (forall w :: w in s.workers && w.phase.Decided? ==> Decision(w.id, w.phase.result) in made)
    && (forall e :: e in s.queue && e.OperationFinished? ==> Decision(e.id, e.result) in made)
  }

  lemma TakeKeepsWorkTraced(s: System, made: set<Decision>)
    requires WorkTraced(s, made) && Enabled(s, Take)
    ensures WorkTraced(Next(s, Take), made)
  {
    var t := Next(s, Take);
    assert forall e :: e in t.queue ==> e in s.queue;
    assert forall w :: w in t.workers && w !in s.workers ==> w.phase.Working?;
  }

  lemma OtherKeepsWorkTraced(s: System, a: Action, made: set<Decision>)
    requires WorkTraced(s, made) && Enabled(s, a) && !a.Take?
    requires a.Decide? ==> Decision(s.workers[a.worker].id, a.result) in made
    ensures WorkTraced(Next(s, a), made)
  {
    if a.Publish? { assert s.workers[a.worker] in s.workers; }
  }

  lemma LineKeepsTraced(s: System, made: set<Decision>)
    requires Shape(s) && OpenUnanswered(s.session)
    requires Enabled(s, Take) && s.queue[0].InputLine? && AnswersTraced(s, made) && IdsRecorded(s.session)
    ensures AnswersTraced(Next(s, Take), made)
  {
    var line, t := s.queue[0].line, Next(s, Take);
    LineShape(s.session, line);
    LineFlags(s.session, line);
    LineAnswers(s.session, line);
    if t.session.spawned != s.session.spawned { assert NoAnswer(s.session, line.request.id); }
    forall f | f in t.session.output && f.Response? && f.id in t.session.spawned ensures Follows(f, made) {
      assert f in s.session.output && f.id in s.session.spawned;
    }
  }

  lemma CompletionKeepsTraced(s: System, made: set<Decision>)
    requires Shape(s) && IdsRecorded(s.session) && WorkTraced(s, made)
    requires Enabled(s, Take) && s.queue[0].OperationFinished? && AnswersTraced(s, made)
    ensures AnswersTraced(Next(s, Take), made)
  {
    var event, t := s.queue[0], Next(s, Take);
    CompletionIsActive(s);
    OperationShape(s.session, event.id, event.result);
    assert event in s.queue && Tells(OutcomeOf(event.result), event.result);
    forall f | f in t.session.output && f.Response? && f.id in t.session.spawned ensures Follows(f, made) {
      if f !in s.session.output { assert f == Response(event.id, OutcomeOf(event.result)); }
    }
  }

  lemma EndKeepsTraced(s: System, made: set<Decision>)
    requires AnswersTraced(s, made) && Enabled(s, Take) && (s.queue[0].InputEnd? || s.queue[0].InputFailed?)
    ensures AnswersTraced(Next(s, Take), made)
  {
    var t := Next(s, Take);
    assert t.session.spawned == s.session.spawned;
    assert forall f :: f in t.session.output && f.Response? ==> f in s.session.output;
  }

  lemma TakeKeepsAnswersTraced(s: System, made: set<Decision>)
    requires Shape(s) && OpenUnanswered(s.session) && IdsRecorded(s.session) && Enabled(s, Take)
    requires WorkTraced(s, made) && AnswersTraced(s, made)
    ensures AnswersTraced(Next(s, Take), made)
  {
    if s.queue[0].InputLine? {
      LineKeepsTraced(s, made);
    } else if s.queue[0].OperationFinished? {
      CompletionKeepsTraced(s, made);
    } else {
      EndKeepsTraced(s, made);
    }
  }

  lemma NextKeepsTraced(s: System, a: Action, made: set<Decision>)
    requires Inv(s) && IdsRecorded(s.session) && WorkTraced(s, made) && AnswersTraced(s, made) && Enabled(s, a)
    requires a.Decide? ==> Decision(s.workers[a.worker].id, a.result) in made
    ensures WorkTraced(Next(s, a), made) && AnswersTraced(Next(s, a), made)
  {
    if !a.Take? {
      OtherKeepsWorkTraced(s, a, made);
      assert Next(s, a).session == s.session;
    } else {
      AccountedLeavesOpen(s.session);
      TakeKeepsWorkTraced(s, made);
      TakeKeepsAnswersTraced(s, made);
    }
  }

  lemma {:induction false} RunKeepsTraced(actions: seq<Action>)
    ensures WorkTraced(Run(actions), Decisions(actions)) && AnswersTraced(Run(actions), Decisions(actions))
  {
    if actions != [] {
      var init, a := actions[..|actions| - 1], actions[|actions| - 1];
      RunKeepsTraced(init);
      RunKeepsInv(init);
      RunKeepsCancelInv(init);
      MoreDecisions(Run(init), Decisions(init), Decisions(actions));
      if Enabled(Run(init), a) { NextKeepsTraced(Run(init), a, Decisions(actions)); }
    }
  }

  lemma MoreDecisions(s: System, made: set<Decision>, more: set<Decision>)
    requires made <= more && WorkTraced(s, made) && AnswersTraced(s, made)
    ensures WorkTraced(s, more) && AnswersTraced(s, more)
  {
  }

  /** In every run, the response of a started operation tells what its own worker decided. */
  lemma {:induction false} AnswersAreDecisions(actions: seq<Action>, f: OutFrame)
    requires var s := Run(actions).session; f in s.output && f.Response? && f.id in s.spawned
    ensures exists d :: d in Decisions(actions) && d.id == f.id && Tells(f.outcome, d.result)
  {
    RunKeepsTraced(actions);
  }

  // ----- the cause of each answer

  /** When a request is answered at once, and how. */
  predicate Deserves(s: Session, r: Request, o: Outcome) {
    match o
    case Error(Busy) => r.verb.Perform? && s.active.Some?
    case Error(RequestNotActive) => r.verb.Cancel? && r.params.RequestId? && s.active != Some(r.params.requestId)
    case Error(MethodUnsupported) => r.verb.Unsupported?
    case Error(ParamsInvalid) =>
      !Accepts(r.verb, r.params) && !r.verb.Unsupported? && !(r.verb.Perform? && s.active.Some?)
    case Answer(PayloadIdentity) => r.verb.Status? && r.params.NoParams?
    case Answer(CancelReport(id, accepted)) =>
      r.verb.Cancel? && r.params == RequestId(id) && s.active == Some(id) && (accepted <==> id !in s.tokens)
    case Answer(Nothing) => r.verb.Shutdown? && r.params.NoParams? && s.active.None?
    case _ => false
  }

  lemma DispatchAnswers(s: Session, r: Request, o: Outcome)
    ensures Dispatch(s, r).session.output == s.output + [Response(r.id, o)] <==> Deserves(s, r, o)
  {
    var t := Dispatch(s, r).session;
    if t.output != s.output {
      assert t.output[..|s.output|] == s.output;
    }
  }

  /** What a request does beside answering: it starts an operation, sets a flag, or becomes the deferred shutdown. */
  lemma DispatchDoes(s: Session, r: Request)
    ensures var t := Dispatch(s, r).session;
      && ((t.active == Some(r.id) && t.spawned == s.spawned + [r.id])
          <==> (r.verb.Perform? && Accepts(r.verb, r.params) && s.active.None?))
      && (t.spawned == s.spawned ==> t.active == s.active)
      && (s.shutdownId.None? ==>
            (t.shutdownId.Some? <==> r.verb.Shutdown? && r.params.NoParams? && s.active.Some?))
      && (forall id :: id !in s.tokens ==>
            (id in t.tokens <==>
               && s.active == Some(id)
               && ((r.verb.Cancel? && r.params == RequestId(id)) || (r.verb.Shutdown? && r.params.NoParams?))))
  {
  }

  /** The next event is this request, and it is well formed. */
  predicate TakesRequest(s: System, r: Request) {
    Enabled(s, Take) && s.queue[0] == InputLine(Frame(r)) && Decode(Frame(r), s.session.seen).Ok?
  }

  /**
   Each answer has its one cause: a request is answered so if and only if it
   deserves it, and while a shutdown waits every request is refused for that.
   */
  lemma EachAnswerHasItsCause(s: System, r: Request, o: Outcome)
    requires TakesRequest(s, r)
    ensures Next(s, Take).session.output == s.session.output + [Response(r.id, o)]
      <==> if s.session.shutdownId.Some? then o == Error(ShuttingDown) else Deserves(s.session, r, o)
  {
    var recorded := s.session.(seen := s.session.seen + {r.id});
    DispatchAnswers(recorded, r, o);
    assert Deserves(recorded, r, o) == Deserves(s.session, r, o);
    var t := Next(s, Take).session;
    if s.session.shutdownId.Some? {
      assert t.output == s.session.output + [Response(r.id, Error(ShuttingDown))];
      assert t.output[|s.session.output|] == Response(r.id, Error(ShuttingDown));
    }
  }

  /** A worker is started exactly for a well-formed operation while none is active and no shutdown waits. */
  lemma StartsIffIdle(s: System, r: Request)
    requires TakesRequest(s, r) && WorkersStarted(s)
    ensures Next(s, Take).workers == s.workers + [Worker(r.id, Working)]
      <==> r.verb.Perform? && Accepts(r.verb, r.params) && s.session.active.None? && s.session.shutdownId.None?
  {
    var recorded := s.session.(seen := s.session.seen + {r.id});
    var t := Next(s, Take);
    DispatchDoes(recorded, r);
    if s.session.shutdownId.None? && t.session.spawned == s.session.spawned + [r.id] {
      assert t.session.spawned[|s.session.spawned|..] == [r.id];
    } else {
      OnlyOperationsStart(s, r);
      assert t.workers == s.workers;
      assert |s.workers + [Worker(r.id, Working)]| != |s.workers|;
    }
  }

  lemma OnlyOperationsStart(s: System, r: Request)
    requires TakesRequest(s, r)
    requires s.session.shutdownId.Some? || Next(s, Take).session.spawned != s.session.spawned + [r.id]
    ensures Next(s, Take).session.spawned == s.session.spawned
  {
  }

  // ----- the cause of each refusal

  predicate ValidId(id: Id) {
    0 < Utf8Bytes(id) <= MAX_REQUEST_ID_BYTES
  }

  /** Why a line ends the session. */
  predicate Condemns(line: Line, seen: set<Id>, code: ErrorCode) {
    match code
    case FrameInvalid => line.NotARequest? || line.WrongType?
    case ProtocolMismatch => line.WrongApiVersion?
    case RequestIdInvalid => line.Frame? && !ValidId(line.request.id)
    case RequestIdReused => line.Frame? && ValidId(line.request.id) && line.request.id in seen
    case RequestLimit =>
      line.Frame? && ValidId(line.request.id) && line.request.id !in seen && |seen| >= MAX_TRACKED_REQUEST_IDS
    case _ => false
  }

  lemma EmptyHasNoBytes(id: Id)
    ensures Utf8Bytes(id) == 0 <==> id == ""
  {
  }

  lemma RefusedIffCondemned(line: Line, seen: set<Id>, code: ErrorCode)
    ensures Decode(line, seen) == Err(code) <==> Condemns(line, seen, code)
  {
    if line.Frame? { EmptyHasNoBytes(line.request.id); }
  }

  /**
   Each abort has its one cause: a line that is refused, the end of the input
   with no shutdown waiting, or a reader that failed.
   */
  lemma {:induction false} EachAbortHasItsCause(actions: seq<Action>, code: ErrorCode)
    requires Enabled(Run(actions), Take)
    ensures var s := Run(actions);
      Next(s, Take).control == Abort(code) <==>
        match s.queue[0]
        case InputLine(line) => Condemns(line, s.session.seen, code)
        case InputEnd => s.session.shutdownId.None? && code == InputClosed
        case InputFailed => code == InputInvalid
        case OperationFinished(_, _) => false
  {
    var s := Run(actions);
    RunKeepsShape(actions);
    match s.queue[0]
    case InputLine(line) =>
      RefusedIffCondemned(line, s.session.seen, code);
      OnlyRefusedAborts(s.session, line, code);
    case OperationFinished(id, result) =>
      CompletionIsActive(s);
      OperationShape(s.session, id, result);
    case _ =>
  }

  lemma OnlyRefusedAborts(s: Session, line: Line, code: ErrorCode)
    ensures HandleLine(s, line).control == Abort(code) <==> Decode(line, s.seen) == Err(code)
  {
  }

  /** In every run the recorded ids are valid, and they are never more than the limit. */
  lemma {:induction false} RecordedIdsAreValid(actions: seq<Action>)
    ensures var seen := Run(actions).session.seen;
      |seen| <= MAX_TRACKED_REQUEST_IDS && forall id :: id in seen ==> ValidId(id)
  {
    if actions != [] {
      var init, a := actions[..|actions| - 1], actions[|actions| - 1];
      RecordedIdsAreValid(init);
      if Enabled(Run(init), a) && a.Take? {
        HandleRecords(Run(init).session, Run(init).queue[0]);
      }
    }
  }

  lemma HandleRecords(s: Session, event: InputEvent)
    ensures var t := Handle(s, event).session;
      || t.seen == s.seen
      || (&& event.InputLine? && event.line.Frame? && Decode(event.line, s.seen).Ok?
          && ValidId(event.line.request.id) && |s.seen| < MAX_TRACKED_REQUEST_IDS
          && t.seen == s.seen + {event.line.request.id})
  {
    if event.InputLine? && event.line.Frame? { EmptyHasNoBytes(event.line.request.id); }
  }
}
