/** What holds of every run of the bridge process. */
module ServerProperties {
  import opened Common
  import opened Text
  import opened Protocol
  import opened Server
  import opened ServerSystem

  // ----- one worker at a time

  /** An active id is set exactly while one worker, or its one queued completion, exists for it. */
  lemma {:induction false} ActiveIffOneOutstanding(actions: seq<Action>)
    requires Run(actions).control.Continue?
    ensures var s := Run(actions);
      && WorkerIds(s.workers) + FinishedIds(s.queue) == Held(s.session.active)
      && (s.session.shutdownId.Some? ==> s.session.active.Some?)
  {
    RunKeepsShape(actions);
  }

  /** No run ends by an orphaned or a mismatched completion. */
  lemma {:induction false} CompletionsAlwaysMatch(actions: seq<Action>, frame: OutFrame)
    requires frame in Run(actions).session.output
    ensures frame != Fatal(OperationOrphaned) && frame != Fatal(OperationMismatch)
  {
    RunKeepsShape(actions);
    var s := Run(actions);
    var i :| 0 <= i < |s.session.output| && s.session.output[i] == frame;
    if frame.Fatal? {
      FatalEnds(s, i);
    }
  }

  /** In a well-shaped system a fatal frame is the last one and goes with an abort. */
  lemma FatalEnds(s: System, i: nat)
    requires Shape(s) && i < |s.session.output| && s.session.output[i].Fatal?
    ensures i == |s.session.output| - 1 && s.control == Abort(s.session.output[i].code)
    ensures s.session.output[i] != Fatal(OperationOrphaned) && s.session.output[i] != Fatal(OperationMismatch)
  {
    if s.control.Abort? {
      var body := s.session.output[..|s.session.output| - 1];
      assert forall k :: 0 <= k < |body| ==> s.session.output[k] == body[k];
    }
  }

  /** A loop that waits after the end of input is always owed an event by a worker. */
  lemma {:induction false} WaitingLoopIsOwedAnEvent(actions: seq<Action>)
    requires var s := Run(actions); s.control.Continue? && s.readerDone && s.queue == []
    ensures var s := Run(actions);
      && |s.workers| == 1 && s.session.active == Some(s.workers[0].id)
      && exists a: Action :: (a.Decide? || a.Publish?) && Enabled(s, a)
  {
    var s := Run(actions);
    RunKeepsShape(actions);
    assert WorkerIds(s.workers) == Held(s.session.active);
    assert WorkerIds(s.workers)[0] == s.workers[0].id;
    match s.workers[0].phase {
      case Decided(_) => assert Enabled(s, Publish(0));
      case Working => assert Enabled(s, Decide(0, WorkFailed(""))) ;
    }
  }

  // ----- one response for each request

  /** At any time an accepted id has at most one response, and other ids have none. */
  lemma {:induction false} AtMostOneResponse(actions: seq<Action>, id: Id)
    ensures var s := Run(actions).session;
      multiset(ResponseIds(s.output))[id] <= if id in s.seen then 1 else 0
  {
    RunKeepsInv(actions);
    var s := Run(actions).session;
    assert multiset(ResponseIds(s.output))[id] <= multiset(s.seen)[id];
  }

  /**
   While the loop runs an accepted id is answered, or active, or waits as the
   deferred shutdown: exactly one of the three.
   */
  lemma {:induction false} ExactlyOneWhileRunning(actions: seq<Action>, id: Id)
    requires id in Run(actions).session.seen
    ensures var s := Run(actions).session;
      multiset(ResponseIds(s.output))[id]
      + (if s.active == Some(id) then 1 else 0) + (if s.shutdownId == Some(id) then 1 else 0) == 1
  {
    RunKeepsInv(actions);
    var s := Run(actions).session;
    assert (multiset(ResponseIds(s.output)) + Bag(s.active) + Bag(s.shutdownId))[id] == multiset(s.seen)[id];
  }

  /** After a clean stop every accepted id has exactly one response, and the last frame acknowledges. */
  lemma {:induction false} CleanStopAnswersAll(actions: seq<Action>)
    requires Run(actions).control.Stop?
    ensures var s := Run(actions).session;
      && multiset(ResponseIds(s.output)) == multiset(s.seen)
      && |s.output| > 1 && s.output[0] == Ready
      && (forall i :: 1 <= i < |s.output| ==> s.output[i].Response?)
      && s.output[|s.output| - 1].outcome == Answer(Nothing)
  {
    RunKeepsInv(actions);
  }

  /** A deferred shutdown is acknowledged in the last frame, right after the active operation's response. */
  lemma {:induction false} DeferredShutdownComesLast(actions: seq<Action>)
    requires var s := Run(actions);
      s.session.shutdownId.Some? && s.control.Continue? && Next(s, Take).control.Stop?
    ensures var s := Run(actions);
      && s.session.active.Some?
      && exists o :: Next(s, Take).session.output
           == s.session.output + [Response(s.session.active.value, o),
                                  Response(s.session.shutdownId.value, Answer(Nothing))]
  {
    var s := Run(actions);
    RunKeepsShape(actions);
    LineOrOther(s);
    CompletionIsActive(s);
    var event := s.queue[0];
    OperationShape(s.session, event.id, event.result);
    assert Next(s, Take).session.output
        == s.session.output + [Response(s.session.active.value, OutcomeOf(event.result)),
                               Response(s.session.shutdownId.value, Answer(Nothing))];
  }

  /** While a shutdown waits, only a completion can end the loop cleanly. */
  lemma LineOrOther(s: System)
    requires s.session.shutdownId.Some? && s.control.Continue? && Next(s, Take).control.Stop?
    ensures s.queue != [] && s.queue[0].OperationFinished?
  {
  }

  /** A fatal frame is the last one, and it is written only when the loop aborts. */
  lemma {:induction false} FatalIsLast(actions: seq<Action>, i: nat)
    requires i < |Run(actions).session.output| && Run(actions).session.output[i].Fatal?
    ensures i == |Run(actions).session.output| - 1
    ensures Run(actions).control == Abort(Run(actions).session.output[i].code)
  {
    RunKeepsShape(actions);
    FatalEnds(Run(actions), i);
  }

  lemma ShapeStartsReady(s: System)
    requires Shape(s)
    ensures var output := s.session.output;
      output != [] && output[0] == Ready && forall i :: 1 <= i < |output| ==> output[i] != Ready
  {
    if s.control.Abort? {
      var body := s.session.output[..|s.session.output| - 1];
      assert forall k :: 0 <= k < |body| ==> s.session.output[k] == body[k];
    }
  }

  /** `ready` is the first frame of every run, however it ends, and is written once. */
  lemma {:induction false} ReadyIsFirst(actions: seq<Action>)
    ensures var output := Run(actions).session.output;
      output != [] && output[0] == Ready && forall i :: 1 <= i < |output| ==> output[i] != Ready
  {
    RunKeepsShape(actions);
    ShapeStartsReady(Run(actions));
  }

  // ----- cancellation

  /** An outcome that fits whether the operation was flagged while it still worked. */
  predicate Fits(outcome: Outcome, flaggedEarly: bool) {
    (outcome.Answer? ==> !flaggedEarly) && (outcome.Cancelled? ==> flaggedEarly)
  }

  ghost predicate AnswersFit(s: System) {
    forall f :: f in s.session.output && f.Response? && f.id in s.session.spawned
      ==> Fits(f.outcome, f.id in s.early)
  }

  ghost predicate WorkFits(s: System) {
    && (forall w :: w in s.workers ==>
        match w.phase
        case Working => w.id in s.session.tokens <==> w.id in s.early
        case Decided(r) => Fits(OutcomeOf(r), w.id in s.early))
    && (forall e :: e in s.queue && e.OperationFinished? ==> Fits(OutcomeOf(e.result), e.id in s.early))
  }

  ghost predicate CancelInv(s: System) {
    && IdsRecorded(s.session)
    && FlagsRecorded(s)
    && AnswersFit(s)
    && (s.control.Continue? ==> WorkFits(s))
  }

  ghost predicate NoAnswer(s: Session, id: Id) {
    forall f :: f in s.output && f.Response? ==> f.id != id
  }

  lemma Unanswered(s: Session, id: Id)
    requires Accounted(s)
    requires id !in s.seen || s.active == Some(id)
    ensures NoAnswer(s, id)
  {
    forall f | f in s.output && f.Response? ensures f.id != id {
      ResponseIdsContain(s.output, f);
      assert multiset(ResponseIds(s.output))[f.id] >= 1;
      assert multiset(s.seen)[f.id] <= 1;
    }
  }

  /** Neither the active operation nor a request not yet recorded has been answered. */
  ghost predicate OpenUnanswered(s: Session) {
    && (s.active.Some? ==> s.active.value in s.seen && NoAnswer(s, s.active.value))
    && (forall id :: id !in s.seen ==> NoAnswer(s, id))
  }

  lemma AccountedLeavesOpen(s: Session)
    requires Accounted(s)
    ensures OpenUnanswered(s)
  {
    if s.active.Some? {
      assert s.active.value in Bag(s.active);
      assert s.active.value in multiset(s.seen);
      Unanswered(s, s.active.value);
    }
    forall id | id !in s.seen ensures NoAnswer(s, id) {
      Unanswered(s, id);
    }
  }

  /** What a recorded request may flag and start. */
  lemma DispatchFlags(s: Session, r: Request)
    ensures var t := Dispatch(s, r).session;
      && s.tokens <= t.tokens <= s.tokens + (if s.active.Some? then {s.active.value} else {})
      && t.seen == s.seen
      && (t.spawned != s.spawned ==> t.tokens == s.tokens && t.output == s.output)
  {
  }

  lemma DecodedIsFresh(line: Line, seen: set<Id>)
    requires Decode(line, seen).Ok?
    ensures line.Frame? && Decode(line, seen) == Ok(line.request) && line.request.id !in seen
  {
  }

  /** What handling a line may flag and start. */
  lemma LineFlags(s: Session, line: Line)
    ensures var t := HandleLine(s, line).session;
      && s.tokens <= t.tokens <= s.tokens + (if s.active.Some? then {s.active.value} else {})
      && s.seen <= t.seen
      && (t.spawned != s.spawned ==> line.request.id !in s.seen && line.request.id in t.seen && t.tokens == s.tokens)
  {
    if Decode(line, s.seen).Ok? {
      DecodedIsFresh(line, s.seen);
      DispatchFlags(s.(seen := s.seen + {line.request.id}), line.request);
    }
  }

  /** A line that is answered starts nothing. */
  lemma LineAnswers(s: Session, line: Line)
    ensures var t := HandleLine(s, line).session;
      t.output != s.output && t.output[|t.output| - 1].Response? ==>
        line.Frame? && line.request.id !in s.seen && t.spawned == s.spawned
  {
    if Decode(line, s.seen).Ok? {
      DecodedIsFresh(line, s.seen);
      DispatchFlags(s.(seen := s.seen + {line.request.id}), line.request);
    }
  }

  lemma LineDefers(s: Session, line: Line)
    ensures var t := HandleLine(s, line).session;
      t.shutdownId != s.shutdownId ==>
        t.shutdownId == Some(line.request.id) && line.request.id !in s.seen && t.spawned == s.spawned
  {
  }

  lemma {:induction false} NoCompletionQueued(queue: seq<InputEvent>)
    requires FinishedIds(queue) == []
    ensures forall e :: e in queue ==> !e.OperationFinished?
  {
    if queue != [] {
      NoCompletionQueued(queue[1..]);
      assert queue == [queue[0]] + queue[1..];
    }
  }

  /** A worker, when there is one, carries the active id, and no completion is queued beside it. */
  lemma WorkerIsAlone(s: System)
    requires OneWorker(s)
    ensures |s.workers| <= 1
    ensures s.workers != [] ==> s.session.active == Some(s.workers[0].id)
    ensures s.workers != [] || s.session.active.None? ==> forall e :: e in s.queue ==> !e.OperationFinished?
  {
    assert |WorkerIds(s.workers)| + |FinishedIds(s.queue)| == |Held(s.session.active)|;
    if s.workers != [] {
      assert WorkerIds(s.workers)[0] == s.workers[0].id;
      assert Held(s.session.active)[0] == s.workers[0].id;
    }
    if s.workers != [] || s.session.active.None? {
      NoCompletionQueued(s.queue);
    }
  }

  /** What handling a line writes about operations that were started. */
  lemma LineKeepsAnswers(s: System)
    requires OpenUnanswered(s.session) && Shape(s) && CancelInv(s) && Enabled(s, Take) && s.queue[0].InputLine?
    ensures AnswersFit(Next(s, Take))
  {
    var line, t := s.queue[0].line, Next(s, Take);
    LineShape(s.session, line);
    LineFlags(s.session, line);
    LineAnswers(s.session, line);
    assert forall id :: id in t.early && id !in s.early ==> s.session.active == Some(id);
    if t.session.spawned != s.session.spawned { assert NoAnswer(s.session, line.request.id); }
    forall f | f in t.session.output && f.Response? && f.id in t.session.spawned
      ensures Fits(f.outcome, f.id in t.early)
    {
    }
  }

  lemma CompletionKeepsAnswers(s: System)
    requires Shape(s) && CancelInv(s) && Enabled(s, Take) && s.queue[0].OperationFinished?
    ensures AnswersFit(Next(s, Take))
  {
    var event, t := s.queue[0], Next(s, Take);
    CompletionIsActive(s);
    OperationShape(s.session, event.id, event.result);
    assert t.early == s.early;
    forall f | f in t.session.output && f.Response? && f.id in t.session.spawned
      ensures Fits(f.outcome, f.id in t.early)
    {
      if f !in s.session.output {
        assert f == Response(event.id, OutcomeOf(event.result));
      }
    }
  }

  lemma EndKeepsAnswers(s: System)
    requires OpenUnanswered(s.session) && Shape(s) && CancelInv(s)
    requires Enabled(s, Take) && (s.queue[0].InputEnd? || s.queue[0].InputFailed?)
    ensures AnswersFit(Next(s, Take))
  {
  }

  ghost predicate FlagsRecorded(s: System) {
    s.session.tokens <= s.session.seen && s.early <= s.session.tokens
  }

  lemma LineKeepsFlags(s: System)
    requires OpenUnanswered(s.session) && FlagsRecorded(s) && Enabled(s, Take) && s.queue[0].InputLine?
    ensures FlagsRecorded(Next(s, Take))
  {
    LineFlags(s.session, s.queue[0].line);
  }

  /** Flagging more ids, and recording those whose worker still works, keeps the work fitting. */
  lemma FlaggingKeepsWork(s: System, t: System)
    requires OneWorker(s) && WorkFits(s) && s.queue != []
    requires t.workers == s.workers && t.queue == s.queue[1..]
    requires s.session.tokens <= t.session.tokens
    requires t.early == s.early + set w | w in s.workers && w.phase.Working?
                                        && w.id in t.session.tokens - s.session.tokens :: w.id
    ensures WorkFits(t)
  {
    WorkerIsAlone(s);
    assert forall e :: e in t.queue ==> e in s.queue;
  }

  lemma LineKeepsWork(s: System)
    requires Shape(s) && CancelInv(s) && Enabled(s, Take) && s.queue[0].InputLine?
    ensures Next(s, Take).control.Continue? ==> WorkFits(Next(s, Take))
  {
    var line, t := s.queue[0].line, Next(s, Take);
    LineShape(s.session, line);
    LineFlags(s.session, line);
    if t.session.spawned == s.session.spawned {
      assert t.workers == s.workers;
      FlaggingKeepsWork(s, t);
    } else {
      WorkerIsAlone(s);
      assert t.workers == [Worker(line.request.id, Working)] && t.early == s.early;
      assert forall e :: e in t.queue ==> e in s.queue;
    }
  }

  lemma CompletionKeepsWork(s: System)
    requires Shape(s) && CancelInv(s) && Enabled(s, Take) && s.queue[0].OperationFinished?
    ensures FlagsRecorded(Next(s, Take)) && WorkFits(Next(s, Take))
  {
    var event, t := s.queue[0], Next(s, Take);
    CompletionIsActive(s);
    OperationShape(s.session, event.id, event.result);
    assert t.workers == [];
    assert forall e :: e in t.queue ==> e in s.queue;
  }

  lemma EndKeepsWork(s: System)
    requires OpenUnanswered(s.session) && Shape(s) && CancelInv(s)
    requires Enabled(s, Take) && (s.queue[0].InputEnd? || s.queue[0].InputFailed?)
    ensures FlagsRecorded(Next(s, Take))
    ensures Next(s, Take).control.Continue? ==> WorkFits(Next(s, Take))
  {
    var t := Next(s, Take);
    assert t.workers == s.workers;
    FlaggingKeepsWork(s, t);
  }

  lemma NextKeepsCancelInv(s: System, a: Action)
    requires Inv(s) && CancelInv(s)
    ensures CancelInv(Next(s, a))
  {
    if Enabled(s, a) && a.Take? {
      TakeKeepsCancelInv(s);
    } else if Enabled(s, a) {
      WorkerIsAlone(s);
    }
  }

  lemma TakeKeepsCancelInv(s: System)
    requires Inv(s) && CancelInv(s) && Enabled(s, Take)
    ensures CancelInv(Next(s, Take))
  {
    TakeKeepsIds(s);
    AccountedLeavesOpen(s.session);
    if s.queue[0].InputLine? {
      LineKeepsFlags(s);
      LineKeepsWork(s);
      LineKeepsAnswers(s);
    } else if s.queue[0].OperationFinished? {
      CompletionKeepsWork(s);
      CompletionKeepsAnswers(s);
    } else {
      EndKeepsWork(s);
      EndKeepsAnswers(s);
    }
  }

  ghost predicate IdsRecorded(s: Session) {
    && (forall id :: id in s.spawned ==> id in s.seen)
    && (s.shutdownId.Some? ==> s.shutdownId.value !in s.spawned)
  }

  lemma LineKeepsIds(s: Session, line: Line)
    requires IdsRecorded(s)
    requires s.shutdownId.Some? ==> s.active.Some?
    ensures IdsRecorded(HandleLine(s, line).session)
  {
    LineFlags(s, line);
    LineShape(s, line);
    LineDefers(s, line);
  }

  lemma TakeKeepsIds(s: System)
    requires Shape(s) && CancelInv(s) && Enabled(s, Take)
    ensures IdsRecorded(Next(s, Take).session)
  {
    if s.queue[0].InputLine? {
      LineKeepsIds(s.session, s.queue[0].line);
    } else if s.queue[0].OperationFinished? {
      CompletionIsActive(s);
      OperationShape(s.session, s.queue[0].id, s.queue[0].result);
    }
  }

  lemma {:induction false} RunKeepsCancelInv(actions: seq<Action>)
    ensures CancelInv(Run(actions))
  {
    if actions != [] {
      var init := actions[..|actions| - 1];
      RunKeepsInv(init);
      RunKeepsCancelInv(init);
      NextKeepsCancelInv(Run(init), actions[|actions| - 1]);
    }
  }

  /**
   The response of a started operation is `cancelled` exactly when its flag was
   set before its worker passed the last check and it did not fail; an accepted
   cancellation that comes later is followed by the operation's own result.
   */
  lemma {:induction false} CancelledIffFlaggedEarly(actions: seq<Action>, f: OutFrame)
    requires var s := Run(actions); f in s.session.output && f.Response? && f.id in s.session.spawned
    ensures f.outcome.Cancelled? <==> f.id in Run(actions).early && !f.outcome.Error?
  {
    RunKeepsCancelInv(actions);
  }

  /** A frame that reports an accepted cancellation of `id`. */
  predicate AcceptsCancel(f: OutFrame, id: Id) {
    f.Response? && f.outcome == Answer(CancelReport(id, true))
  }

  ghost predicate AcceptedOnce(s: Session) {
    && (forall i, id :: 0 <= i < |s.output| && AcceptsCancel(s.output[i], id) ==> id in s.tokens)
    && forall i, j, id ::
         0 <= i < j < |s.output| && AcceptsCancel(s.output[i], id) ==> !AcceptsCancel(s.output[j], id)
  }

  /** The only new frame that accepts a cancellation is for an id not flagged before. */
  lemma LineAccepts(s: Session, line: Line, id: Id)
    ensures var t := HandleLine(s, line).session;
      && (t.output == s.output || exists f :: t.output == s.output + [f])
      && s.tokens <= t.tokens
      && (t.output != s.output && AcceptsCancel(t.output[|t.output| - 1], id) ==> id !in s.tokens && id in t.tokens)
  {
  }

  lemma HandleKeepsAcceptedOnce(s: Session, event: InputEvent)
    requires AcceptedOnce(s)
    ensures AcceptedOnce(Handle(s, event).session)
  {
    if event.InputLine? {
      LineKeepsAcceptedOnce(s, event.line);
    } else {
      OtherAcceptsNothing(s, event);
    }
  }

  lemma LineKeepsAcceptedOnce(s: Session, line: Line)
    requires AcceptedOnce(s)
    ensures AcceptedOnce(HandleLine(s, line).session)
  {
    forall id { LineAccepts(s, line, id); }
  }

  /** Completions and the end of the input accept no cancellation. */
  lemma OtherAcceptsNothing(s: Session, event: InputEvent)
    requires !event.InputLine?
    ensures var t := Handle(s, event).session;
      && s.output <= t.output && s.tokens <= t.tokens
      && forall i, id :: |s.output| <= i < |t.output| ==> !AcceptsCancel(t.output[i], id)
  {
  }

  lemma {:induction false} RunKeepsAcceptedOnce(actions: seq<Action>)
    ensures AcceptedOnce(Run(actions).session)
  {
    if actions != [] {
      var s := Run(actions[..|actions| - 1]);
      RunKeepsAcceptedOnce(actions[..|actions| - 1]);
      if Enabled(s, actions[|actions| - 1]) && actions[|actions| - 1].Take? {
        HandleKeepsAcceptedOnce(s.session, s.queue[0]);
      }
    }
  }

  /** `accepted: true` is reported at most once for each request. */
  lemma {:induction false} CancellationIsAcceptedOnce(actions: seq<Action>, id: Id, i: nat, j: nat)
    requires var output := Run(actions).session.output;
      && i < |output| && j < |output| && AcceptsCancel(output[i], id) && AcceptsCancel(output[j], id)
    ensures i == j
  {
    RunKeepsAcceptedOnce(actions);
  }

  /**
   Whenever the worker has decided on a result before its flag is set, a
   cancellation read next is accepted, and the result is still the answer.
   */
  lemma LateCancelIsAcceptedAndIgnored(s: System, cancel: Request, id: Id, json: string)
    requires s.control.Continue? && s.queue == [] && !s.readerDone
    requires s.workers == [Worker(id, Decided(Success(json)))]
    requires s.session.active == Some(id) && s.session.shutdownId.None? && id !in s.session.tokens
    requires Decode(Frame(cancel), s.session.seen).Ok?
    requires cancel.verb.Cancel? && cancel.params == RequestId(id)
    ensures var t := Next(Next(Next(Next(s, Read(Frame(cancel))), Take), Publish(0)), Take);
      t.session.output == s.session.output
        + [Response(cancel.id, Answer(CancelReport(id, true))), Response(id, Answer(WorkValue(json)))]
  {
    var t1 := Next(s, Read(Frame(cancel)));
    var t2 := Next(t1, Take);
    assert t1.queue == [InputLine(Frame(cancel))];
    assert t2.session.output == s.session.output + [Response(cancel.id, Answer(CancelReport(id, true)))];
    assert t2.workers == s.workers && t2.queue == [];
    var t3 := Next(t2, Publish(0));
    assert t3.queue == [OperationFinished(id, Success(json))];
  }

  /** Such a run exists. */
  lemma AcceptedCancelMayStillSucceed()
    ensures exists actions ::
      Run(actions).session.output
        == [Ready, Response("b", Answer(CancelReport("a", true))), Response("a", Answer(WorkValue("{}")))]
  {
    var work := Read(Frame(Request("a", Perform(Validate), Root("."))));
    var decide := Decide(0, Success("{}"));
    var cancel := Read(Frame(Request("b", Verb.Cancel, RequestId("a"))));
    var s := WorkerDecides(work, decide);
    Utf8BytesAscii("b");
    LateCancelIsAcceptedAndIgnored(s, cancel.line.request, "a", "{}");
    var a := RunOf([], Start(), work);
    a := RunOf(a, Next(Start(), work), Take);
    a := RunOf(a, Next(Next(Start(), work), Take), decide);
    a := RunOf(a, s, cancel);
    a := RunOf(a, Next(s, cancel), Take);
    a := RunOf(a, Next(Next(s, cancel), Take), Publish(0));
    a := RunOf(a, Next(Next(Next(s, cancel), Take), Publish(0)), Take);
  }

  /** A validation is read and started, and its worker decides. */
  lemma WorkerDecides(work: Action, decide: Action) returns (s: System)
    requires work == Read(Frame(Request("a", Perform(Validate), Root("."))))
    requires decide == Decide(0, Success("{}"))
    ensures s == Next(Next(Next(Start(), work), Take), decide)
    ensures s == System(Session(Some("a"), {}, {"a"}, None, ["a"], [Ready]), Continue, [],
                        [Worker("a", Decided(Success("{}")))], false, {})
  {
    Utf8BytesAscii("a");
    var s1 := Next(Start(), work);
    assert s1.queue == [InputLine(work.line)];
    var s2 := Next(s1, Take);
    assert s2 == System(Session(Some("a"), {}, {"a"}, None, ["a"], [Ready]), Continue, [],
                        [Worker("a", Working)], false, {});
    s := Next(s2, decide);
  }

  /** One more action at the end of a run. */
  lemma RunOf(actions: seq<Action>, s: System, a: Action) returns (longer: seq<Action>)
    requires Run(actions) == s
    ensures longer == actions + [a] && Run(longer) == Next(s, a)
  {
    longer := actions + [a];
    assert longer[..|actions|] == actions;
  }
}
