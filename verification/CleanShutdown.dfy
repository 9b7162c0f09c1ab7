/** How a session that is shut down ends, when the environment is not at fault. */
module CleanShutdown {
  import opened Common
  import opened Protocol
  import opened RequestIds
  import opened Composition
  import Server
  import Sys = ServerSystem
  import C = Client

  /** `shutdown` is the last frame a live client writes, so it is written once at most. */
  lemma {:induction false} ShutdownIsLastFrame(actions: seq<Action>, i: nat)
    requires var w := Run(actions); Live(w) && i < |w.client.sent| && w.client.sent[i].verb.Shutdown?
    ensures var w := Run(actions);
      && i == |w.client.sent| - 1
      && (w.client.state.Stopping? || w.client.state.Stopped?)
      && forall a :: Next(w, a).client.sent == w.client.sent
  {
    RunKeepsInv(actions);
    ShutdownEndsWriting(Run(actions), i);
  }

  lemma ShutdownEndsWriting(w: World, i: nat)
    requires Live(w) && Linked(w) && i < |w.client.sent| && w.client.sent[i].verb.Shutdown?
    ensures i == |w.client.sent| - 1 && (w.client.state.Stopping? || w.client.state.Stopped?)
    ensures forall a :: Next(w, a).client.sent == w.client.sent
  {
    forall a ensures Next(w, a).client.sent == w.client.sent {
      if Enabled(w, a) && ClientEvent(w, a).Some? {
        StoppingWritesNothing(w.client, ClientEvent(w, a).value);
      }
    }
  }

  lemma StoppingWritesNothing(c: C.Client, e: C.Event)
    requires c.state.Stopping? || c.state.Stopped?
    requires !e.Chunk?
    ensures C.Step(NoText, c, e).sent == c.sent
  {
  }

  /** When the bridge has stopped, every request ever written has its one response, the acknowledgement last. */
  lemma {:induction false} StopAnswersEveryRequest(actions: seq<Action>)
    requires var w := Run(actions); Live(w) && w.server.control.Stop?
    ensures var w := Run(actions);
      var sent, output := w.client.sent, w.server.session.output;
      && multiset(ResponseIds(output)) == multiset(Names(0, |sent|))
      && |sent| > 0 && |output| > 0 && IsShutdown(sent[|sent| - 1])
      && output[|output| - 1] == Response(sent[|sent| - 1].id, Answer(Nothing))
  {
    RunKeepsInv(actions);
    StopIsComplete(Run(actions));
    StopAcknowledges(Run(actions));
  }

  lemma StopIsComplete(w: World)
    requires Live(w) && Linked(w) && Sys.Inv(w.server) && w.server.control.Stop?
    ensures multiset(ResponseIds(w.server.session.output)) == multiset(Names(0, |w.client.sent|))
  {
    assert multiset(ResponseIds(w.server.session.output)) == multiset(w.server.session.seen);
  }

  lemma StopAcknowledges(w: World)
    requires Live(w) && Linked(w) && w.server.control.Stop?
    ensures var sent, output := w.client.sent, w.server.session.output;
      && |sent| > 0 && |output| > 0 && IsShutdown(sent[|sent| - 1])
      && output[|output| - 1] == Response(sent[|sent| - 1].id, Answer(Nothing))
  {
  }

  /** A live client whose child has closed has stopped, with every promise settled. */
  lemma {:induction false} LiveCloseIsClean(actions: seq<Action>)
    requires var w := Run(actions); Live(w) && w.closed
    ensures var w := Run(actions);
      w.client.state.Stopped? && w.client.pending == [] && w.server.control.Stop?
  {
    RunKeepsInv(actions);
  }

  // ----- every such run finishes

  function QueueWeight(queue: seq<Server.InputEvent>): nat {
    if queue == [] then 0
    else (if queue[0].InputLine? then 6 else 2) + QueueWeight(queue[1..])
  }

  lemma {:induction false} QueueWeightSnoc(queue: seq<Server.InputEvent>, e: Server.InputEvent)
    ensures QueueWeight(queue + [e]) == QueueWeight(queue) + if e.InputLine? then 6 else 2
  {
    if queue == [] {
      assert queue + [e] == [e];
    } else {
      QueueWeightSnoc(queue[1..], e);
      assert (queue + [e])[1..] == queue[1..] + [e];
    }
  }

  /** At most one worker exists in a running system, so its weight stands for all. */
  function WorkWeight(workers: seq<Sys.Worker>): nat {
    if workers == [] then 0 else if workers[0].phase.Working? then 4 else 3
  }

  /** How many steps are left at most: each frame, line, worker and response has still to move on. */
  function Rank(w: World): int {
    var s := w.server.session;
    7 * (|w.client.sent| - w.taken) + QueueWeight(w.server.queue) + WorkWeight(w.server.workers)
    + (if s.shutdownId.Some? then 2 else 0) + (|s.output| - w.delivered)
    + (if w.eof then 0 else 1) + (if w.closed then 0 else 1)
  }

  /** A step of the two processes and the pipes, as opposed to a call or a fault. */
  predicate Moves(a: Action) {
    a.ReadRequest? || a.Bridge? || a.Deliver? || a.EndOfOutput? || a.Exit?
  }

  /** The client is shutting down, nothing has gone wrong, and the session is within its request limit. */
  ghost predicate ShuttingDownCleanly(w: World) {
    && Inv(w) && Live(w) && |w.client.sent| <= MAX_TRACKED_REQUEST_IDS
    && (w.client.state.Stopping? || w.client.state.Stopped?)
  }

  lemma NeverAborts(w: World)
    requires Live(w) && Linked(w) && |w.client.sent| <= MAX_TRACKED_REQUEST_IDS
    ensures !w.server.control.Abort?
  {
  }

  /** Still live, still stopping or stopped, and nothing more written. */
  predicate KeepsStopping(w: World, v: World) {
    && Live(v) && v.client.sent == w.client.sent
    && (v.client.state.Stopping? || v.client.state.Stopped?)
  }

  lemma DeliveryKeepsStopping(w: World)
    requires ShuttingDownCleanly(w) && Enabled(w, Deliver)
    ensures KeepsStopping(w, Next(w, Deliver))
  {
    DeliveryNeverSurprises(w);
    NeverAborts(w);
    if !Live(Next(w, Deliver)) {
      FailsOnlyOnAbort(w);
    }
    ReceivingWritesNothing(w);
  }

  lemma FailsOnlyOnAbort(w: World)
    requires Inv(w) && Live(w) && Enabled(w, Deliver) && !Live(Next(w, Deliver))
    ensures w.server.control.Abort?
  {
    var f := w.server.session.output[w.delivered];
    NextFrame(w.server, w.delivered);
    OutputNotEnded(w);
    assert f in w.server.session.output;
    if w.delivered == 0 {
      GreetingKeepsLink(w, Next(w, Deliver).client);
    } else if f.Response? {
      NextResponseIsPending(w);
      ResponseSettles(w.client, f);
    }
  }

  lemma ReceivingWritesNothing(w: World)
    requires Enabled(w, Deliver) && Live(Next(w, Deliver))
    requires w.client.state.Stopping? || w.client.state.Stopped?
    ensures KeepsStopping(w, Next(w, Deliver))
  {
  }

  /** Calls on a stopping client do nothing but detach listeners; a clean end stops it at most. */
  lemma EventInStopping(c: C.Client, e: C.Event)
    requires c.state.Stopping? || c.state.Stopped?
    requires c.failure.None? && c.buffer == ""
    requires e.CallRequest? || e.AbortSignalled? || e.CallShutdown?
             || (c.pending == [] && (e.StdoutEnd? || e == C.Close(0)))
    ensures var d := C.Step(NoText, c, e);
      d.failure.None? && d.sent == c.sent && (d.state.Stopping? || d.state.Stopped?)
  {
  }

  lemma EndOnlyAfterStop(w: World, a: Action)
    requires Live(w) && Linked(w) && Enabled(w, a) && (a.EndOfOutput? || a.Exit?)
    ensures w.server.control.Stop? && w.delivered == |w.server.session.output|
  {
  }

  lemma EventKeepsStopping(w: World, a: Action)
    requires ShuttingDownCleanly(w) && Enabled(w, a) && ClientEvent(w, a).Some? && !a.Fault?
    ensures KeepsStopping(w, Next(w, a))
  {
    assert w.client.buffer == "";
    if a.EndOfOutput? || a.Exit? {
      EndOnlyAfterStop(w, a);
      NothingPendingAtEnd(w);
    }
    EventInStopping(w.client, ClientEvent(w, a).value);
  }

  /** Without faults a clean shutdown stays clean. */
  lemma {:induction false} StaysClean(w: World, a: Action)
    requires ShuttingDownCleanly(w) && !a.Fault?
    ensures ShuttingDownCleanly(Next(w, a))
  {
    NextKeepsInv(w, a);
    if Enabled(w, a) {
      if a.Deliver? {
        DeliveryKeepsStopping(w);
      } else if ClientEvent(w, a).Some? {
        EventKeepsStopping(w, a);
      }
    }
  }

  /** What one line may add to the work left: a response, a worker, or the deferred shutdown. */
  lemma LineCost(s: Server.Session, r: Request)
    requires Server.Decode(Frame(r), s.seen).Ok? && s.shutdownId.None?
    ensures var t := Server.HandleLine(s, Frame(r)).session;
      && |s.output| <= |t.output| && |s.spawned| <= |t.spawned| <= |s.spawned| + 1
      && (|t.output| - |s.output|) + 4 * (|t.spawned| - |s.spawned|) + (if t.shutdownId.Some? then 2 else 0) <= 4
  {
  }

  lemma WorkersAfterTake(s: Sys.System)
    requires Sys.Enabled(s, Sys.Take)
    requires |s.session.spawned| <= |Server.Handle(s.session, s.queue[0]).session.spawned|
    ensures var t := Sys.Next(s, Sys.Take);
      WorkWeight(t.workers) <= WorkWeight(s.workers) + 4 * (|t.session.spawned| - |s.session.spawned|)
  {
  }

  /** A taken event weighs more than what it leaves: frames, a worker, a deferred shutdown. */
  lemma TakenWeight(w: World, v: World, e: Server.Effect, left: nat)
    requires Takes(w, v, e)
    requires |w.server.session.spawned| <= |e.session.spawned|
    requires WorkWeight(v.server.workers)
      <= WorkWeight(w.server.workers) + 4 * (|e.session.spawned| - |w.server.session.spawned|)
    requires var s, t := w.server.session, e.session;
      && (|t.output| - |s.output|) + 4 * (|t.spawned| - |s.spawned|) + (if t.shutdownId.Some? then 2 else 0)
         <= left + (if s.shutdownId.Some? then 2 else 0)
    requires left < if w.server.queue[0].InputLine? then 6 else 2
    ensures Rank(v) < Rank(w)
  {
  }

  lemma TakeLineAdvances(w: World)
    requires Enabled(w, Bridge(Sys.Take)) && w.server.queue[0].InputLine?
    requires Live(w) && Linked(w) && |w.client.sent| <= MAX_TRACKED_REQUEST_IDS
    ensures Rank(Next(w, Bridge(Sys.Take))) < Rank(w)
  {
    var r := w.client.sent[Handled(w)];
    TakeEffect(w);
    NextLineDecodes(w);
    WithinLimit(w);
    LineCost(w.server.session, r);
    WorkersAfterTake(w.server);
    TakenWeight(w, Next(w, Bridge(Sys.Take)), Server.HandleLine(w.server.session, Frame(r)), 4);
  }

  /** The session's limit is not spent while a line waits, and no shutdown is deferred. */
  lemma WithinLimit(w: World)
    requires Live(w) && Linked(w) && |w.client.sent| <= MAX_TRACKED_REQUEST_IDS && Handled(w) < w.taken
    requires w.server.control.Continue?
    ensures Handled(w) < MAX_TRACKED_REQUEST_IDS && w.server.session.shutdownId.None?
  {
  }

  lemma TakeCompletionAdvances(w: World)
    requires Enabled(w, Bridge(Sys.Take)) && w.server.queue[0].OperationFinished?
    requires Sys.Shape(w.server)
    ensures Rank(Next(w, Bridge(Sys.Take))) < Rank(w)
  {
    var s, event := w.server.session, w.server.queue[0];
    TakeEffect(w);
    HeadIsActive(w.server);
    Sys.OperationShape(s, event.id, event.result);
    WorkersAfterTake(w.server);
    TakenWeight(w, Next(w, Bridge(Sys.Take)), Server.HandleOperation(s, event.id, event.result), 1);
  }

  /** Reading, deciding and publishing move one item to a lighter place. */
  lemma WorkAdvances(w: World, a: Action)
    requires Live(w) && Linked(w) && Sys.Shape(w.server) && Enabled(w, a)
    requires a.ReadRequest? || (a.Bridge? && !a.action.Take?)
    ensures Rank(Next(w, a)) < Rank(w)
  {
    if a.ReadRequest? {
      QueueWeightSnoc(w.server.queue, Server.InputLine(Frame(w.client.sent[w.taken])));
    } else {
      var i := a.action.worker;
      assert |Sys.WorkerIds(w.server.workers)| <= 1;
      assert i == 0 && w.server.workers == [w.server.workers[0]];
      if a.action.Publish? {
        var x := w.server.workers[i];
        QueueWeightSnoc(w.server.queue, Server.OperationFinished(x.id, x.phase.result));
      }
    }
  }

  /** Every step of the processes and the pipes brings a clean shutdown nearer its end. */
  lemma MovesAdvance(w: World, a: Action)
    requires Live(w) && Linked(w) && |w.client.sent| <= MAX_TRACKED_REQUEST_IDS && Sys.Shape(w.server)
    requires Enabled(w, a) && Moves(a)
    ensures Rank(Next(w, a)) < Rank(w)
  {
    if a == Bridge(Sys.Take) {
      if w.server.queue[0].InputLine? {
        TakeLineAdvances(w);
      } else {
        assert w.server.queue[0] in w.server.queue;
        TakeCompletionAdvances(w);
      }
    } else if a.ReadRequest? || a.Bridge? {
      WorkAdvances(w, a);
    } else {
      if ClientEvent(w, a).Some? { EndWritesNothing(w.client, ClientEvent(w, a).value); }
      ReceivingAdvances(w, a);
    }
  }

  lemma EndWritesNothing(c: C.Client, e: C.Event)
    requires e.StdoutEnd? || e.Close?
    ensures C.Step(NoText, c, e).sent == c.sent
  {
  }

  lemma ReceivingAdvances(w: World, a: Action)
    requires Enabled(w, a) && (a.Deliver? || a.EndOfOutput? || a.Exit?)
    requires Next(w, a).client.sent == w.client.sent
    ensures Rank(Next(w, a)) < Rank(w)
  {
  }

  /** The work left is never negative. */
  lemma RankIsNatural(w: World)
    requires Live(w) && Linked(w)
    ensures Rank(w) >= 0
  {
  }

  /** A clean shutdown that has not reached the close of the child can move. */
  lemma SomethingMoves(w: World)
    requires Live(w) && Linked(w) && Sys.Shape(w.server) && !w.server.control.Abort? && !w.closed
    requires w.client.state.Stopping? || w.client.state.Stopped?
    ensures exists a :: Moves(a) && Enabled(w, a)
  {
    if w.server.control.Stop? {
      EndMoves(w);
    } else if w.server.queue != [] {
      assert Enabled(w, Bridge(Sys.Take));
    } else if w.taken < |w.client.sent| {
      assert Enabled(w, ReadRequest);
    } else {
      WorkerIsLeft(w);
      if w.server.workers[0].phase.Working? {
        assert Enabled(w, Bridge(Sys.Decide(0, Server.WorkFailed(""))));
      } else {
        assert Enabled(w, Bridge(Sys.Publish(0)));
      }
    }
  }

  lemma EndMoves(w: World)
    requires w.delivered <= |w.server.session.output| && w.server.control.Stop? && !w.closed
    ensures exists a :: Moves(a) && Enabled(w, a)
  {
    if w.delivered < |w.server.session.output| {
      assert Enabled(w, Deliver);
    } else if !w.eof {
      assert Enabled(w, EndOfOutput);
    } else {
      assert Enabled(w, Exit);
    }
  }

  /** When everything written has been handled and the bridge still runs, a worker holds it up. */
  lemma WorkerIsLeft(w: World)
    requires Live(w) && Linked(w) && Sys.Shape(w.server) && w.server.control.Continue?
    requires w.server.queue == [] && w.taken == |w.client.sent|
    requires w.client.state.Stopping? || w.client.state.Stopped?
    ensures w.server.workers != []
  {
    assert |Frames(w.client.sent[Handled(w)..w.taken])| == 0;
    assert Sys.WorkerIds(w.server.workers) == Held(w.server.session.active);
  }

  function From(w: World, actions: seq<Action>): World
    decreases |actions|
  {
    if actions == [] then w else From(Next(w, actions[0]), actions[1..])
  }

  /** How many of the actions are steps of the processes or the pipes that take place. */
  function MovesMade(w: World, actions: seq<Action>): nat
    decreases |actions|
  {
    if actions == [] then 0
    else (if Moves(actions[0]) && Enabled(w, actions[0]) then 1 else 0) + MovesMade(Next(w, actions[0]), actions[1..])
  }

  /** Calls made meanwhile leave the work as it is. */
  lemma CallsLeaveRank(w: World, a: Action)
    requires ShuttingDownCleanly(w) && !a.Fault? && !Moves(a)
    ensures Rank(Next(w, a)) == Rank(w)
  {
    if Enabled(w, a) {
      EventKeepsStopping(w, a);
    }
  }

  /**
   Once `shutdown` has been called, in a session within its request limit and
   without faults of the environment: every run makes finitely many steps,
   whatever calls come between; while the child has not closed some step is
   possible; and when it has closed the client has stopped with nothing pending.
   */
  lemma {:induction false} CleanShutdownFinishes(w: World, actions: seq<Action>)
    requires ShuttingDownCleanly(w) && forall a :: a in actions ==> !a.Fault?
    ensures MovesMade(w, actions) <= Rank(w)
    ensures var v := From(w, actions);
      if v.closed then v.client.state.Stopped? && v.client.pending == []
      else exists a :: Moves(a) && Enabled(v, a)
    decreases |actions|
  {
    if actions == [] {
      RankIsNatural(w);
      NeverAborts(w);
      if w.closed { ClosedIsStopped(w); } else { SomethingMoves(w); }
    } else {
      var a := actions[0];
      StaysClean(w, a);
      if Moves(a) {
        if Enabled(w, a) { MovesAdvance(w, a); }
      } else {
        CallsLeaveRank(w, a);
      }
      CleanShutdownFinishes(Next(w, a), actions[1..]);
    }
  }

  /** Calling `shutdown` on a ready client begins such a shutdown. */
  lemma {:induction false} ShutdownBegins(actions: seq<Action>)
    requires var w := Run(actions);
      && Live(w) && w.client.state.ReadyState? && !w.closed && w.client.nextRequest < MAX_TRACKED_REQUEST_IDS
    ensures ShuttingDownCleanly(Next(Run(actions), BeginShutdown(false)))
  {
    RunKeepsInv(actions);
    NextKeepsInv(Run(actions), BeginShutdown(false));
    SentCounts(Run(actions));
  }

  lemma SentCounts(w: World)
    requires Live(w) && Linked(w) && w.client.state.ReadyState? && !w.closed
    ensures var v := Next(w, BeginShutdown(false));
      Live(v) && |v.client.sent| == w.client.nextRequest + 1 && v.client.state.Stopping?
  {
  }

  lemma ClosedIsStopped(w: World)
    requires Inv(w) && Live(w) && w.closed
    ensures w.client.state.Stopped? && w.client.pending == []
  {
  }
}
