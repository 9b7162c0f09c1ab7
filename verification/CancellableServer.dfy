/**
 The bridge process with its workers opened up: beside the server, the
 fine-grained race of the current operation's token against its child
 processes. `ServerSystem` takes a worker's decision as one step whose result
 fits the flag; here the decision is whatever the race arrives at, and every run
 is proved to be a run of `ServerSystem`.
 */
module CancellableServer {
  import opened Common
  import opened Protocol
  import opened Server
  import Sys = ServerSystem
  import SP = ServerProperties
  import K = Cancellation

  /** `race` is the token and the worker of the operation started last. */
  datatype Joint = Joint(server: Sys.System, race: Option<K.State>)

  /**
   A step of the loop, the reader or the channel, with the number of child
   processes an operation started by it will run; or a step of the race. The
   result is what the worker will report, known once it can no longer be cancelled.
   */
  datatype Action =
    | Loop(action: Sys.Action, children: nat)
    | Race(step: K.Action, result: WorkResult)

  /** The worker has passed the last check of its last child, or is done. */
  predicate Past(c: K.State) {
    (c.runner.Completed? && c.left == 0) || c.runner.Ended?
  }

  /** The result a worker reports for the way its operation ended. */
  predicate Reports(ending: K.Ending, result: WorkResult) {
    match ending
    case Succeeded => result.Success?
    case WasCancelled => result.WasCancelled?
    case HasFailed => result.WorkFailed?
  }

  /** What a worker that is past its last check will report; its output may still be refused. */
  predicate Agrees(c: K.State, result: WorkResult) {
    if c.runner.Ended? then Reports(c.runner.ending, result) else !result.WasCancelled?
  }

  /** No thread of the loop is inside `cancel`. */
  predicate LoopIsFree(j: Joint) {
    j.race.Some? ==> j.race.value.canceller.Idle?
  }

  predicate Enabled(j: Joint, a: Action) {
    match a
    case Loop(b, children) =>
      && Sys.Enabled(j.server, b) && !b.Decide? && children > 0
      && (b.Take? ==> LoopIsFree(j))
      && (b.Publish? ==> j.race.Some? && j.race.value.runner.Ended?)
    case Race(b, result) =>
      && j.server.control.Continue? && j.server.workers != [] && j.race.Some? && K.Enabled(j.race.value, b)
      && (b.Swap? ==> j.race.value.flag)
      && (Past(K.Next(j.race.value, b)) ==> Agrees(K.Next(j.race.value, b), Reported(j, result)))
  }

  /** The result already settled on, or the one now chosen. */
  function Reported(j: Joint, result: WorkResult): WorkResult {
    if j.server.workers != [] && j.server.workers[0].phase.Decided? then j.server.workers[0].phase.result else result
  }

  /** Setting the flag of the active operation is the swap of its token. */
  function TakeRace(j: Joint, t: Sys.System, children: nat): Option<K.State>
    requires children > 0
  {
    if t.session.spawned != j.server.session.spawned then Some(K.Start(children))
    else if t.session.tokens != j.server.session.tokens && j.race.Some? then Some(K.Next(j.race.value, K.Swap))
    else j.race
  }

  function Next(j: Joint, a: Action): Joint {
    if !Enabled(j, a) then j else
    match a
    case Loop(b, children) =>
      var t := Sys.Next(j.server, b);
      Joint(t, if b.Take? then TakeRace(j, t, children) else j.race)
    case Race(b, result) =>
      var c := K.Next(j.race.value, b);
      var w := j.server.workers[0];
      var decided := j.server.(workers := j.server.workers[0 := Sys.Worker(w.id, Sys.Decided(result))]);
      Joint(if Past(c) && !Past(j.race.value) then decided else j.server, Some(c))
  }

  function Run(actions: seq<Action>): Joint {
    if actions == [] then Joint(Sys.Start(), None)
    else Next(Run(actions[..|actions| - 1]), actions[|actions| - 1])
  }

  // ----- the invariant

  /** The race is the active operation's, and the server knows of it what it should. */
  predicate Tracks(s: Sys.System, id: Id, c: K.State) {
    && (c.flag <==> id in s.session.tokens)
    && (id in s.early <==> c.flag && !K.TooLate(c))
    && (if s.workers == [] then c.runner.Ended?
        else match s.workers[0].phase
             case Working => !Past(c)
             case Decided(r) => Past(c) && Agrees(c, r))
  }

  ghost predicate Matched(j: Joint) {
    && (j.race.Some? ==> K.Inv(j.race.value))
    && (j.server.control.Continue? && j.server.session.active.Some? ==>
          j.race.Some? && Tracks(j.server, j.server.session.active.value, j.race.value))
  }

  ghost predicate Inv(j: Joint) {
    Sys.Inv(j.server) && SP.CancelInv(j.server) && Matched(j)
  }

  /** A worker that is still racing holds the active id. */
  lemma WorkerIsActive(s: Sys.System)
    requires Sys.Shape(s) && s.control.Continue? && s.workers != []
    ensures |s.workers| == 1 && s.session.active == Some(s.workers[0].id)
  {
    SP.WorkerIsAlone(s);
  }

  /** Whatever the race decides fits the flag at that moment: the guard the server's model takes for granted. */
  lemma DecisionFitsFlag(c: K.State, b: K.Action, result: WorkResult)
    requires K.Inv(c) && !Past(c) && Past(K.Next(c, b)) && Agrees(K.Next(c, b), result)
    ensures Sys.Possible(result, K.Next(c, b).flag)
  {
    K.NextKeepsInv(c, b);
  }

  /** Only the loop sets the flag, so a step of the race leaves it as it is. */
  lemma RaceKeepsFlag(c: K.State, b: K.Action)
    requires b.Swap? ==> c.flag
    ensures K.Next(c, b).flag == c.flag && (c.flag ==> K.TooLate(K.Next(c, b)) == K.TooLate(c))
  {
  }

  /** Once past, a worker stays past, and what it reports is settled. */
  lemma PastStays(c: K.State, b: K.Action)
    requires Past(c)
    ensures Past(K.Next(c, b))
  {
  }

  /** The server's view of one step. */
  function ServerAction(j: Joint, a: Action): Option<Sys.Action> {
    if !Enabled(j, a) then None
    else
      match a
      case Loop(b, _) => Some(b)
      case Race(b, result) =>
        if Past(K.Next(j.race.value, b)) && !Past(j.race.value) then Some(Sys.Decide(0, result)) else None
  }

  /** Every step is a step of the server's own model, enabled there, or leaves the server as it is. */
  lemma StepRefines(j: Joint, a: Action)
    requires Inv(j)
    ensures match ServerAction(j, a)
      case None => Next(j, a).server == j.server
      case Some(b) => Sys.Enabled(j.server, b) && Next(j, a).server == Sys.Next(j.server, b)
  {
    if Enabled(j, a) && a.Race? {
      WorkerIsActive(j.server);
      var c := j.race.value;
      if !Past(c) && Past(K.Next(c, a.step)) {
        DecisionFitsFlag(c, a.step, a.result);
        RaceKeepsFlag(c, a.step);
      }
    }
  }

  lemma RaceKeepsMatched(j: Joint, a: Action)
    requires Sys.Shape(j.server) && Matched(j) && Enabled(j, a) && a.Race?
    ensures Matched(Next(j, a))
  {
    var c := j.race.value;
    WorkerIsActive(j.server);
    K.NextKeepsInv(c, a.step);
    RaceKeepsFlag(c, a.step);
    if Past(c) { PastStays(c, a.step); }
  }

  lemma OtherKeepsMatched(j: Joint, a: Action)
    requires Sys.Shape(j.server) && Matched(j) && Enabled(j, a) && a.Loop? && !a.action.Take?
    ensures Matched(Next(j, a))
  {
    if a.action.Publish? { WorkerIsActive(j.server); }
  }

  /** What one event does to the active id, the flags and the workers. */
  lemma TakeEffect(s: Sys.System)
    requires Sys.Shape(s) && SP.OpenUnanswered(s.session) && SP.FlagsRecorded(s) && Sys.Enabled(s, Sys.Take)
    ensures var t := Sys.Next(s, Sys.Take);
      && (t.session.spawned != s.session.spawned ==>
            && s.session.active.None? && s.workers == [] && t.session.active.Some?
            && t.workers == [Sys.Worker(t.session.active.value, Sys.Working)]
            && t.session.tokens == s.session.tokens && t.early == s.early
            && t.session.active.value !in t.session.tokens && t.session.active.value !in t.early)
      && (t.session.spawned == s.session.spawned && t.control.Continue? && t.session.active.Some? ==>
            && t.session.active == s.session.active && t.workers == s.workers
            && s.session.tokens <= t.session.tokens <= s.session.tokens + {s.session.active.value})
  {
    var t := Sys.Next(s, Sys.Take);
    if s.queue[0].InputLine? {
      Sys.LineShape(s.session, s.queue[0].line);
      SP.LineFlags(s.session, s.queue[0].line);
      SP.WorkerIsAlone(s);
    } else if s.queue[0].OperationFinished? {
      Sys.CompletionIsActive(s);
      Sys.OperationShape(s.session, s.queue[0].id, s.queue[0].result);
    }
  }

  lemma TakeKeepsMatched(j: Joint, children: nat)
    requires Sys.Inv(j.server) && SP.CancelInv(j.server) && Matched(j) && Enabled(j, Loop(Sys.Take, children))
    ensures Matched(Next(j, Loop(Sys.Take, children)))
  {
    SP.AccountedLeavesOpen(j.server.session);
    TakeEffect(j.server);
    TakeTracks(j, children);
  }

  lemma TakeTracks(j: Joint, children: nat)
    requires Sys.Shape(j.server) && Matched(j) && Enabled(j, Loop(Sys.Take, children))
    requires var s, t := j.server, Sys.Next(j.server, Sys.Take);
      && (t.session.spawned != s.session.spawned ==>
            && t.session.active.Some? && t.workers == [Sys.Worker(t.session.active.value, Sys.Working)]
            && t.session.active.value !in t.session.tokens && t.session.active.value !in t.early)
      && (t.session.spawned == s.session.spawned && t.control.Continue? && t.session.active.Some? ==>
            && t.session.active == s.session.active && t.workers == s.workers
            && s.session.tokens <= t.session.tokens <= s.session.tokens + {s.session.active.value})
    ensures Matched(Next(j, Loop(Sys.Take, children)))
  {
    var s, t := j.server, Sys.Next(j.server, Sys.Take);
    K.RunKeepsInv(children, []);
    if j.race.Some? { K.NextKeepsInv(j.race.value, K.Swap); }
    if s.workers != [] { WorkerIsActive(s); }
  }

  lemma NextKeepsInv(j: Joint, a: Action)
    requires Inv(j)
    ensures Inv(Next(j, a))
  {
    StepRefines(j, a);
    if ServerAction(j, a).Some? {
      Sys.NextKeepsInv(j.server, ServerAction(j, a).value);
      SP.NextKeepsCancelInv(j.server, ServerAction(j, a).value);
    }
    if Enabled(j, a) {
      if a.Race? {
        RaceKeepsMatched(j, a);
      } else if a.action.Take? {
        TakeKeepsMatched(j, a.children);
      } else {
        OtherKeepsMatched(j, a);
      }
    }
  }

  lemma {:induction false} RunKeepsInv(actions: seq<Action>)
    ensures Inv(Run(actions))
  {
    if actions == [] {
      Sys.RunKeepsInv([]);
      SP.RunKeepsCancelInv([]);
    } else {
      RunKeepsInv(actions[..|actions| - 1]);
      NextKeepsInv(Run(actions[..|actions| - 1]), actions[|actions| - 1]);
    }
  }

  // ----- what every run shows

  /** The actions of the server's model that a run amounts to. */
  function ServerActions(actions: seq<Action>): seq<Sys.Action> {
    if actions == [] then []
    else
      var init := actions[..|actions| - 1];
      ServerActions(init) + Held(ServerAction(Run(init), actions[|actions| - 1]))
  }

  /**
   The server's model with its one-step decisions is a faithful abstraction: the
   server of every run of the fine-grained race is in the state its own model
   reaches by the corresponding actions.
   */
  lemma {:induction false} RunRefinesServer(actions: seq<Action>)
    ensures Run(actions).server == Sys.Run(ServerActions(actions))
  {
    if actions != [] {
      var init, last := actions[..|actions| - 1], actions[|actions| - 1];
      RunRefinesServer(init);
      ReachableStepRefines(init, last);
      OneMore(ServerActions(init), Run(init).server, ServerAction(Run(init), last), Next(Run(init), last).server);
    }
  }

  lemma ReachableStepRefines(actions: seq<Action>, a: Action)
    ensures match ServerAction(Run(actions), a)
      case None => Next(Run(actions), a).server == Run(actions).server
      case Some(b) => Next(Run(actions), a).server == Sys.Next(Run(actions).server, b)
  {
    RunKeepsInv(actions);
    StepRefines(Run(actions), a);
  }

  lemma OneMore(actions: seq<Sys.Action>, s: Sys.System, b: Option<Sys.Action>, t: Sys.System)
    requires Sys.Run(actions) == s && t == match b case None => s case Some(a) => Sys.Next(s, a)
    ensures Sys.Run(actions + Held(b)) == t
  {
    if b.Some? {
      assert (actions + [b.value])[..|actions|] == actions;
    } else {
      assert actions + [] == actions;
    }
  }

  /**
   `early` means what it says: the active operation is in it exactly when the
   token's flag was set before the worker had passed the last check of its last child.
   */
  lemma {:induction false} EarlyIsFlaggedInTime(actions: seq<Action>)
    requires var s := Run(actions).server; s.control.Continue? && s.session.active.Some?
    ensures var j := Run(actions);
      && j.race.Some?
      && (j.server.session.active.value in j.server.early <==> j.race.value.flag && !K.TooLate(j.race.value))
  {
    RunKeepsInv(actions);
  }

  /** An operation's decided result is `cancelled` exactly when its flag was set in time and it did not fail. */
  lemma {:induction false} DecidedByRace(actions: seq<Action>)
    requires var s := Run(actions).server; s.control.Continue? && s.workers != [] && s.workers[0].phase.Decided?
    ensures var j := Run(actions); var r := j.server.workers[0].phase.result;
      && j.race.Some? && Past(j.race.value)
      && (r.WasCancelled? <==> j.race.value.flag && !K.TooLate(j.race.value) && !r.WorkFailed?)
  {
    RunKeepsInv(actions);
    WorkerIsActive(Run(actions).server);
  }

  /** What a worker may report after a step that takes it past its last check. */
  function Fitting(c: K.State): WorkResult {
    if !c.runner.Ended? then Success("")
    else
      match c.runner.ending
      case Succeeded => Success("")
      case WasCancelled => WorkResult.WasCancelled
      case HasFailed => WorkFailed("")
  }

  /** The step a race makes when nothing forces another: the worker goes on, and does not fail. */
  lemma ProgressOf(c: K.State) returns (b: K.Action)
    requires K.Inv(c) && !c.runner.Ended?
    ensures K.Progress(c, b) && !b.GiveUp?
  {
    K.ProgressIsPossible(c);
    b :| K.Progress(c, b);
    if b.GiveUp? {
      b := if c.runner.Begin? then K.CheckFlag else if c.runner.Checked? then K.Spawn else K.Continue;
    }
  }

  /**
   The worker of the joint system never stands still: until it has ended, it can
   make progress, or a cancellation already begun can, or its child can exit.
   */
  lemma {:induction false} WorkerCanProgress(actions: seq<Action>)
    requires var s := Run(actions).server; s.control.Continue? && s.workers != []
    requires Run(actions).race.Some? && !Run(actions).race.value.runner.Ended?
    ensures exists a: Action :: a.Race? && Enabled(Run(actions), a) && K.Progress(Run(actions).race.value, a.step)
  {
    RunKeepsInv(actions);
    InvCanProgress(Run(actions));
  }

  lemma InvCanProgress(j: Joint)
    requires Inv(j) && j.server.control.Continue? && j.server.workers != []
    requires j.race.Some? && !j.race.value.runner.Ended?
    ensures exists a: Action :: a.Race? && Enabled(j, a) && K.Progress(j.race.value, a.step)
  {
    WorkerIsActive(j.server);
    var c := j.race.value;
    var b := AgreedProgress(j);
    assert Enabled(j, Race(b, Fitting(K.Next(c, b))));
  }

  /** Some progress agrees with whatever the worker has settled on. */
  lemma AgreedProgress(j: Joint) returns (b: K.Action)
    requires Inv(j) && j.server.control.Continue? && j.server.workers != []
    requires j.race.Some? && !j.race.value.runner.Ended?
    ensures var c := K.Next(j.race.value, b);
      K.Progress(j.race.value, b) && (Past(c) ==> Agrees(c, Reported(j, Fitting(c))))
  {
    WorkerIsActive(j.server);
    var c := j.race.value;
    if Past(c) && j.server.workers[0].phase.result.WorkFailed? {
      b := K.GiveUp;
    } else {
      b := ProgressOf(c);
    }
  }

  // ----- the guard is exact

  lemma RaceStep(actions: seq<K.Action>, s: K.State, b: K.Action) returns (longer: seq<K.Action>)
    requires K.Run(1, actions) == s
    ensures longer == actions + [b] && K.Run(1, longer) == K.Next(s, b)
  {
    longer := actions + [b];
    assert longer[..|actions|] == actions;
  }

  /** A child that is started, installed and not cancelled. */
  lemma LaunchedRun() returns (actions: seq<K.Action>)
    ensures K.Run(1, actions) == K.Start(1).(runner := K.Waiting, child := K.Alive, slot := true, started := 1)
  {
    var s0 := K.Start(1);
    var s1 := s0.(runner := K.Checked);
    var s2 := s0.(runner := K.Spawned, child := K.Alive, started := 1);
    var s3 := s2.(runner := K.Installed, lock := K.ByRunner, slot := true);
    var s4 := s3.(runner := K.Inspected(false));
    actions := RaceStep([], s0, K.CheckFlag);
    actions := RaceStep(actions, s1, K.Spawn);
    actions := RaceStep(actions, s2, K.Install);
    actions := RaceStep(actions, s3, K.Inspect);
    actions := RaceStep(actions, s4, K.UnlockInstalled);
  }

  lemma ReapedRun() returns (actions: seq<K.Action>)
    ensures K.Run(1, actions) == K.Start(1).(runner := K.Joined, child := K.Exited(false), started := 1)
  {
    actions := LaunchedRun();
    var s5 := K.Run(1, actions);
    var s6 := s5.(child := K.Exited(false));
    var s7 := s6.(runner := K.Polling, lock := K.ByRunner);
    var s8 := s6.(runner := K.Reaped);
    var s9 := s8.(runner := K.Clearing, lock := K.ByRunner);
    actions := RaceStep(actions, s5, K.ChildExits);
    actions := RaceStep(actions, s6, K.LockToPoll);
    actions := RaceStep(actions, s7, K.Poll);
    actions := RaceStep(actions, s8, K.LockToClear);
    actions := RaceStep(actions, s9, K.Clear);
  }

  /** A child that is never cancelled runs to its end. */
  lemma UndisturbedRun() returns (actions: seq<K.Action>)
    ensures var c := K.Run(1, actions); c.runner == K.Ended(K.Succeeded) && !c.flag
  {
    actions := ReapedRun();
    var s10 := K.Run(1, actions);
    var s11 := s10.(runner := K.Completed, completedKilled := [false]);
    actions := RaceStep(actions, s10, K.CheckAgain);
    actions := RaceStep(actions, s11, K.Continue);
  }

  /**
   The server's guard on decisions is exact: a result fits the flag if and only
   if some race of an operation ends with it, flagged in time or not accordingly.
   */
  lemma {:induction false} PossibleIffRaced(result: WorkResult, flagged: bool)
    ensures Sys.Possible(result, flagged) <==>
      exists children: nat, actions :: children > 0 && EndsWith(K.Run(children, actions), result, flagged)
  {
    if Sys.Possible(result, flagged) {
      var actions: seq<K.Action>;
      if result.Success? {
        actions := UndisturbedRun();
      } else {
        if flagged { actions := RaceStep([], K.Start(1), K.Swap); } else { actions := []; }
        actions := RaceStep(actions, K.Run(1, actions), if result.WasCancelled? then K.CheckFlag else K.GiveUp);
      }
      assert EndsWith(K.Run(1, actions), result, flagged);
    }
    forall children: nat, actions | children > 0 && EndsWith(K.Run(children, actions), result, flagged)
      ensures Sys.Possible(result, flagged)
    {
      K.RunKeepsInv(children, actions);
    }
  }

  predicate EndsWith(c: K.State, result: WorkResult, flagged: bool) {
    c.runner.Ended? && Reports(c.runner.ending, result) && flagged == (c.flag && !K.TooLate(c))
  }
}
