/**
 What a caller of the client may rely on with the bridge behind it: a promise
 settles as its request was answered, an operation's as its worker decided, and
 an abort reaches the operation it is for.
 */
module EndToEnd {
  import opened Common
  import opened Protocol
  import opened RequestIds
  import opened Composition
  import Server
  import Sys = ServerSystem
  import SP = ServerProperties
  import SA = ServerAnswers
  import C = Client
  import CP = ClientProperties

  // ----- the bridge's own run

  /** What the bridge process does in a step of the composition. */
  function ServerAction(w: World, a: Action): seq<Sys.Action> {
    if !Enabled(w, a) then []
    else
      match a
      case ReadRequest => [Sys.Read(Frame(w.client.sent[w.taken]))]
      case Bridge(b) => [b]
      case _ => []
  }

  function ServerActions(actions: seq<Action>): seq<Sys.Action> {
    if actions == [] then []
    else
      var init := actions[..|actions| - 1];
      ServerActions(init) + ServerAction(Run(init), actions[|actions| - 1])
  }

  lemma NextServer(w: World, a: Action)
    ensures |ServerAction(w, a)| <= 1
    ensures Next(w, a).server
         == if ServerAction(w, a) == [] then w.server else Sys.Next(w.server, ServerAction(w, a)[0])
  {
  }

  /** In every run of the composition the bridge makes a run of its own. */
  lemma {:induction false} ServerRuns(actions: seq<Action>)
    ensures Run(actions).server == Sys.Run(ServerActions(actions))
  {
    if actions != [] {
      var init, a := actions[..|actions| - 1], actions[|actions| - 1];
      ServerRuns(init);
      NextServer(Run(init), a);
      ServerRunsOneMore(ServerActions(init), ServerAction(Run(init), a));
    }
  }

  lemma ServerRunsOneMore(actions: seq<Sys.Action>, more: seq<Sys.Action>)
    requires |more| <= 1
    ensures Sys.Run(actions + more) == if more == [] then Sys.Run(actions) else Sys.Next(Sys.Run(actions), more[0])
  {
    if more == [] {
      assert actions + more == actions;
    } else {
      assert (actions + more)[..|actions|] == actions;
    }
  }

  lemma RunMore(actions: seq<Action>, later: seq<Action>)
    requires later != []
    ensures Run(actions + later) == Next(Run(actions + later[..|later| - 1]), later[|later| - 1])
  {
    assert (actions + later)[..|actions + later| - 1] == actions + later[..|later| - 1];
  }

  // ----- promises settle as they were answered

  /** How the responses among these frames settle the promises they answer, in order. */
  function Settlements(frames: seq<OutFrame>): seq<C.Settled> {
    if frames == [] then []
    else
      var last := frames[|frames| - 1];
      Settlements(frames[..|frames| - 1])
      + if last.Response? then [C.Settled(last.id, Settlement(last.outcome))] else []
  }

  ghost predicate SettledSoFar(w: World) {
    w.delivered <= |w.server.session.output|
    && w.client.settled == Settlements(w.server.session.output[..w.delivered])
  }

  /** What receiving a frame settles in a client that stays live. */
  lemma FrameSettles(c: C.Client, f: OutFrame)
    requires c.failure.None? && C.ReceiveFrame(c, Wire(f)).failure.None?
    requires if f.Response? then HonestFrame(f) && f.id in c.pending else !C.Ended(c)
    ensures C.ReceiveFrame(c, Wire(f)).settled
         == c.settled + if f.Response? then [C.Settled(f.id, Settlement(f.outcome))] else []
  {
    if f.Response? { ResponseSettles(c, f); }
  }

  lemma DeliverySettles(w: World)
    requires Inv(w) && Live(w) && Enabled(w, Deliver) && Live(Next(w, Deliver)) && SettledSoFar(w)
    ensures SettledSoFar(Next(w, Deliver))
  {
    var f := w.server.session.output[w.delivered];
    assert f in w.server.session.output;
    OutputNotEnded(w);
    NotEnded(w);
    if f.Response? { NextResponseIsPending(w); }
    FrameSettles(w.client, f);
    SettlementsSnoc(w.server.session.output, w.delivered);
  }

  lemma SettlementsSnoc(output: seq<OutFrame>, d: nat)
    requires d < |output|
    ensures Settlements(output[..d + 1])
         == Settlements(output[..d])
            + if output[d].Response? then [C.Settled(output[d].id, Settlement(output[d].outcome))] else []
  {
    assert output[..d + 1][..d] == output[..d];
  }

  lemma NotEnded(w: World)
    requires Live(w) && Linked(w) && !w.eof
    ensures !C.Ended(w.client)
  {
  }

  /** An event of its own settles nothing in a client that stays live. */
  lemma EventsSettleNothing(c: C.Client, e: C.Event)
    requires CP.Tidy(c) && !e.Chunk? && c.failure.None? && C.Step(NoText, c, e).failure.None?
    ensures C.Step(NoText, c, e).settled == c.settled
  {
  }

  lemma OutputGrows(s: Sys.System, a: Sys.Action)
    ensures s.session.output <= Sys.Next(s, a).session.output
  {
    if Sys.Enabled(s, a) && a.Take? { HandleOnlyAppends(s.session, s.queue[0]); }
  }

  lemma ServerStepKeepsSettled(w: World, a: Action)
    requires SettledSoFar(w) && Enabled(w, a) && (a.ReadRequest? || a.Bridge?)
    ensures SettledSoFar(Next(w, a))
  {
    OutputGrows(w.server, ServerAction(w, a)[0]);
    assert Next(w, a).server.session.output[..w.delivered] == w.server.session.output[..w.delivered];
  }

  lemma EventKeepsSettled(w: World, a: Action)
    requires CP.Tidy(w.client) && Live(w) && Live(Next(w, a)) && SettledSoFar(w)
    requires Enabled(w, a) && ClientEvent(w, a).Some?
    ensures SettledSoFar(Next(w, a))
  {
    EventsSettleNothing(w.client, ClientEvent(w, a).value);
  }

  lemma NextKeepsSettled(w: World, a: Action)
    requires Inv(w) && Live(w) && Live(Next(w, a)) && SettledSoFar(w)
    ensures SettledSoFar(Next(w, a))
  {
    if Enabled(w, a) {
      if a.Deliver? {
        DeliverySettles(w);
      } else if a.ReadRequest? || a.Bridge? {
        ServerStepKeepsSettled(w, a);
      } else {
        EventKeepsSettled(w, a);
      }
    }
  }

  /** In every run, what a live client has settled is what the frames it has received say, in order. */
  lemma {:induction false} SettledAsAnswered(actions: seq<Action>)
    requires Live(Run(actions))
    ensures var w := Run(actions);
      && w.delivered <= |w.server.session.output|
      && w.client.settled == Settlements(w.server.session.output[..w.delivered])
  {
    if actions != [] {
      var init, a := actions[..|actions| - 1], actions[|actions| - 1];
      RunKeepsInv(init);
      FailureStays(Run(init), a);
      SettledAsAnswered(init);
      NextKeepsSettled(Run(init), a);
    }
  }

  lemma {:induction false} SettlementIsAnswer(frames: seq<OutFrame>, x: C.Settled)
    requires x in Settlements(frames)
    ensures exists f :: f in frames && f.Response? && f.id == x.id && x.how == Settlement(f.outcome)
  {
    var init, last := frames[..|frames| - 1], frames[|frames| - 1];
    if last.Response? && x == C.Settled(last.id, Settlement(last.outcome)) {
      assert last in frames;
    } else {
      SettlementIsAnswer(init, x);
      var f :| f in init && f.Response? && f.id == x.id && x.how == Settlement(f.outcome);
      assert f in frames;
    }
  }

  /** How a promise tells what the worker of its operation decided. */
  predicate Tells(how: C.Settlement, result: Server.WorkResult) {
    match result
    case Success(json) => how == C.Resolved(WorkValue(json))
    case WasCancelled => how == C.RejectedCancelled
    case WorkFailed(code) => how == C.RejectedError(code)
  }

  lemma SettlementTells(o: Outcome, result: Server.WorkResult)
    requires SA.Tells(o, result)
    ensures Tells(Settlement(o), result)
  {
  }

  lemma AnsweredAsDecided(actions: seq<Action>, f: OutFrame)
    requires var s := Run(actions).server.session; f in s.output && f.Response? && f.id in s.spawned
    ensures exists d :: d in SA.Decisions(ServerActions(actions)) && d.id == f.id && SA.Tells(f.outcome, d.result)
  {
    ServerRuns(actions);
    SA.AnswersAreDecisions(ServerActions(actions), f);
  }

  /**
   In every run of a live client, the promise of a started operation settles as
   the worker of that very operation decided: with its result, as cancelled, or
   with its own error code.
   */
  lemma {:induction false} PromiseTellsDecision(actions: seq<Action>, x: C.Settled)
    requires var w := Run(actions); Live(w) && x in w.client.settled && x.id in w.server.session.spawned
    ensures exists d :: d in SA.Decisions(ServerActions(actions)) && d.id == x.id && Tells(x.how, d.result)
  {
    var w := Run(actions);
    SettledAsAnswered(actions);
    var f := AnswerOf(w.server.session.output, w.delivered, x);
    AnsweredAsDecided(actions, f);
    var d :| d in SA.Decisions(ServerActions(actions)) && d.id == f.id && SA.Tells(f.outcome, d.result);
    SettlementTells(f.outcome, d.result);
  }

  lemma AnswerOf(output: seq<OutFrame>, delivered: nat, x: C.Settled) returns (f: OutFrame)
    requires delivered <= |output| && x in Settlements(output[..delivered])
    ensures f in output && f.Response? && f.id == x.id && x.how == Settlement(f.outcome)
  {
    SettlementIsAnswer(output[..delivered], x);
    f :| f in output[..delivered] && f.Response? && f.id == x.id && x.how == Settlement(f.outcome);
  }

  // ----- an abort reaches the operation it is for

  /** Frame `k` that the client wrote is a cancellation of the request before it in frame `j`. */
  predicate Cancels(sent: seq<Request>, k: nat, j: nat) {
    j < k < |sent| && sent[k].verb.Cancel? && sent[k].params == RequestId(sent[j].id)
  }

  /** A request whose cancellation the bridge has handled is flagged while it is active. */
  ghost predicate Heeds(sent: seq<Request>, handled: nat, s: Server.Session) {
    forall k: nat, j: nat ::
      k < handled && Cancels(sent, k, j) && s.active == Some(sent[j].id) ==> sent[j].id in s.tokens
  }

  ghost predicate CancelsHeeded(w: World) {
    Heeds(w.client.sent, Handled(w), w.server.session)
  }

  lemma SentStays(w: World, a: Action)
    ensures w.client.sent <= Next(w, a).client.sent
  {
    if Enabled(w, a) && ClientEvent(w, a).Some? {
      StepKeepsSent(w.client, ClientEvent(w, a).value);
    }
  }

  lemma StepKeepsSent(c: C.Client, e: C.Event)
    ensures c.sent <= C.Step(NoText, c, e).sent
  {
    if e.Chunk? { ReceivesOnly(c.(buffer := c.buffer + e.text)); }
  }

  lemma {:induction false} ReceivesOnly(c: C.Client)
    ensures C.Drain(NoText, c).sent == c.sent
    decreases |c.buffer|
  {
    if C.Newline(c.buffer) < |c.buffer| && C.ReceiveFirst(NoText, c).failure.None? {
      ReceivesOnly(C.ReceiveFirst(NoText, c));
    }
  }

  /** A recorded request leaves the active one, or becomes it; a cancellation of the active one flags it. */
  lemma RecordingHeeds(s: Server.Session, r: Request)
    requires Server.Decode(Frame(r), s.seen) == Ok(r)
    requires s.shutdownId.Some? && s.active.Some? ==> s.active.value in s.tokens
    ensures var t := Server.HandleLine(s, Frame(r)).session;
      && s.tokens <= t.tokens && (t.active == s.active || t.active == Some(r.id))
      && (s.active.Some? && r.verb.Cancel? && r.params == RequestId(s.active.value) ==> s.active.value in t.tokens)
      && t.seen == s.seen + {r.id}
      && (r.verb.Cancel? ==> t.active == s.active)
  {
  }

  lemma RecordedHeeds(sent: seq<Request>, n: nat, s: Server.Session, t: Server.Session)
    requires n < |sent| && forall i :: 0 <= i < |sent| ==> sent[i].id == RequestName(i + 1)
    requires Heeds(sent, n, s) && s.tokens <= t.tokens
    requires t.active == s.active || (t.active == Some(sent[n].id) && !sent[n].verb.Cancel?)
    requires s.active.Some? && sent[n].verb.Cancel? && sent[n].params == RequestId(s.active.value)
      ==> s.active.value in t.tokens
    ensures Heeds(sent, n + 1, t)
  {
    forall k: nat, j: nat | k < n + 1 && Cancels(sent, k, j) && t.active == Some(sent[j].id)
      ensures sent[j].id in t.tokens
    {
      if sent[j].id == sent[n].id { RequestNameInjective(j + 1, n + 1); }
    }
  }

  lemma TakeLineHeeds(w: World)
    requires Live(w) && SentInOrder(w) && TakenInOrder(w) && CancelsHeeded(w) && SA.EndingFlags(w.server)
    requires Enabled(w, Bridge(Sys.Take)) && w.server.queue[0].InputLine?
    requires Handled(w) < MAX_TRACKED_REQUEST_IDS
    ensures CancelsHeeded(Next(w, Bridge(Sys.Take)))
  {
    var n, s := Handled(w), w.server.session;
    NextLineDecodes(w);
    var r := w.client.sent[n];
    var t := Server.HandleLine(s, Frame(r)).session;
    RecordingHeeds(s, r);
    RecordedHeeds(w.client.sent, n, s, t);
    assert t.seen == s.seen + {r.id};
  }

  lemma TakeOtherHeeds(w: World)
    requires CancelsHeeded(w) && Sys.Shape(w.server) && Enabled(w, Bridge(Sys.Take))
    requires Server.Handle(w.server.session, w.server.queue[0]).session.seen == w.server.session.seen
    requires w.server.queue[0].InputLine? ==> Server.Handle(w.server.session, w.server.queue[0]).control.Abort?
    ensures CancelsHeeded(Next(w, Bridge(Sys.Take)))
  {
    var s, event := w.server.session, w.server.queue[0];
    if event.OperationFinished? {
      Sys.CompletionIsActive(w.server);
      Sys.OperationShape(s, event.id, event.result);
    } else {
      var t := Server.Handle(s, event).session;
      assert t.active == s.active && s.tokens <= t.tokens;
    }
  }

  lemma TakeKeepsHeeded(w: World)
    requires Live(w) && Linked(w) && CancelsHeeded(w) && SA.EndingFlags(w.server) && Sys.Shape(w.server)
    requires Enabled(w, Bridge(Sys.Take))
    ensures CancelsHeeded(Next(w, Bridge(Sys.Take)))
  {
    if w.server.queue[0].InputLine? {
      NextLineDecodes(w);
      if Handled(w) < MAX_TRACKED_REQUEST_IDS { TakeLineHeeds(w); } else { TakeOtherHeeds(w); }
    } else {
      assert w.server.queue[0] in w.server.queue;
      TakeOtherHeeds(w);
    }
  }

  lemma MoreSentKeepsHeeds(sent: seq<Request>, grown: seq<Request>, handled: nat, s: Server.Session)
    requires handled <= |sent| && sent <= grown && Heeds(sent, handled, s)
    ensures Heeds(grown, handled, s)
  {
    forall k: nat, j: nat | k < handled && Cancels(grown, k, j) && s.active == Some(grown[j].id)
      ensures grown[j].id in s.tokens
    {
      assert Cancels(sent, k, j);
    }
  }

  lemma NextKeepsHeeded(w: World, a: Action)
    requires Live(w) && Linked(w) && CancelsHeeded(w) && SA.EndingFlags(w.server) && Sys.Shape(w.server)
    ensures CancelsHeeded(Next(w, a))
  {
    if Enabled(w, a) {
      if a == Bridge(Sys.Take) {
        TakeKeepsHeeded(w);
      } else {
        SentStays(w, a);
        assert Next(w, a).server.session == w.server.session;
        MoreSentKeepsHeeds(w.client.sent, Next(w, a).client.sent, Handled(w), w.server.session);
      }
    }
  }

  lemma {:induction false} RunKeepsHeeded(actions: seq<Action>)
    requires Live(Run(actions))
    ensures CancelsHeeded(Run(actions))
  {
    if actions != [] {
      var init, a := actions[..|actions| - 1], actions[|actions| - 1];
      RunKeepsInv(init);
      FailureStays(Run(init), a);
      RunKeepsHeeded(init);
      ServerRuns(init);
      SA.RunKeepsEndingFlags(ServerActions(init));
      NextKeepsHeeded(Run(init), a);
    }
  }

  lemma {:induction false} SentKept(actions: seq<Action>, later: seq<Action>)
    ensures Run(actions).client.sent <= Run(actions + later).client.sent
  {
    if later == [] {
      assert actions + later == actions;
    } else {
      SentKept(actions, later[..|later| - 1]);
      RunMore(actions, later);
      SentStays(Run(actions + later[..|later| - 1]), later[|later| - 1]);
    }
  }

  /** A pending request of a live client is a frame it has written. */
  lemma PendingWasSent(w: World, id: Id) returns (j: nat)
    requires CP.Conserved(w.client) && SentInOrder(w) && id in w.client.pending
    ensures j < |w.client.sent| && w.client.sent[j].id == id
  {
    var c := w.client;
    assert id in multiset(CP.SettledIds(c.settled)) + multiset(c.pending);
    j :| j < c.nextRequest && Names(0, c.nextRequest)[j] == id;
  }

  /** What an abort of a ready client's request writes. */
  lemma AbortWrites(w: World, id: Id)
    requires Live(w) && Linked(w) && CP.Tidy(w.client) && w.client.state.ReadyState? && id in w.client.listeners
    ensures var v := Next(w, SignalAbort(id, false));
      v.client.sent == w.client.sent + [Request(RequestName(w.client.nextRequest + 1), Verb.Cancel, RequestId(id))]
  {
    assert !w.closed;
  }

  lemma LiveBefore(actions: seq<Action>, later: seq<Action>)
    requires Live(Run(actions + later))
    ensures Live(Run(actions))
  {
    if later == [] {
      assert actions + later == actions;
    } else {
      var init := later[..|later| - 1];
      RunMore(actions, later);
      RunKeepsInv(actions + init);
      FailureStays(Run(actions + init), later[|later| - 1]);
      LiveBefore(actions, init);
    }
  }

  /**
   An abort signalled to a ready client reaches the operation it is for: in every
   continuation of the run in which the bridge has handled the frame it writes,
   that operation is no longer active or its flag is set.
   */
  lemma {:induction false} AbortIsHeeded(actions: seq<Action>, id: Id, later: seq<Action>)
    requires Run(actions).client.state.ReadyState? && id in Run(actions).client.listeners
    requires var w := Run(actions + [SignalAbort(id, false)] + later);
      Live(w) && |Run(actions).client.sent| < Handled(w)
    ensures var s := Run(actions + [SignalAbort(id, false)] + later).server.session;
      s.active == Some(id) ==> id in s.tokens
  {
    var before, aborted := Run(actions), actions + [SignalAbort(id, false)];
    LiveBefore(aborted, later);
    LiveBefore(actions, [SignalAbort(id, false)]);
    RunKeepsInv(actions);
    AbortWrites(before, id);
    RunMore(actions, [SignalAbort(id, false)]);
    assert actions + [SignalAbort(id, false)][..0] == actions;
    SentKept(aborted, later);
    var j := PendingWasSent(before, id);
    RunKeepsHeeded(aborted + later);
    assert Cancels(Run(aborted + later).client.sent, |before.client.sent|, j);
  }

  lemma {:induction false} ServerRunsOn(actions: seq<Action>, later: seq<Action>) returns (more: seq<Sys.Action>)
    ensures ServerActions(actions + later) == ServerActions(actions) + more
  {
    if later == [] {
      more := [];
      assert actions + later == actions;
    } else {
      var init := later[..|later| - 1];
      var first := ServerRunsOn(actions, init);
      assert (actions + later)[..|actions + later| - 1] == actions + init;
      var last := ServerAction(Run(actions + init), later[|later| - 1]);
      AppendAssociates(ServerActions(actions), first, last);
      more := first + last;
    }
  }

  /**
   If moreover the worker of that operation is still at work then, the operation
   is never answered with a value, however the run goes on.
   */
  lemma {:induction false} AbortedWorkIsCancelled(actions: seq<Action>, id: Id, later: seq<Action>,
                                                  rest: seq<Action>, f: OutFrame)
    requires Run(actions).client.state.ReadyState? && id in Run(actions).client.listeners
    requires var w := Run(actions + [SignalAbort(id, false)] + later);
      && Live(w) && |Run(actions).client.sent| < Handled(w)
      && w.server.control.Continue? && Sys.Worker(id, Sys.Working) in w.server.workers
    requires f in Run(actions + [SignalAbort(id, false)] + later + rest).server.session.output
    requires f.Response? && f.id == id
    ensures f.outcome.Cancelled? || f.outcome.Error?
  {
    var upTo := actions + [SignalAbort(id, false)] + later;
    AbortIsHeeded(actions, id, later);
    ServerRuns(upTo);
    ServerRuns(upTo + rest);
    var more := ServerRunsOn(upTo, rest);
    Sys.RunKeepsShape(ServerActions(upTo));
    SP.WorkerIsAlone(Run(upTo).server);
    SA.FlaggedWorkIsCancelled(ServerActions(upTo), more, Sys.Worker(id, Sys.Working), f);
  }
}
