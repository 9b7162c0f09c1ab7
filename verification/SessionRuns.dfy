/**
 Everything that may use one session's bridge, interleaved: native tools, step
 injections, queued validations, the start in flight, the idle timer, the
 child's failures and the session's disposal.

 A flow is suspended either on something outside, or on a microtask that is
 already due. Due microtasks run before any timer fires, so the idle timer is
 enabled only when none is.
 */
module SessionRuns {
  import opened Common
  import opened SessionManager

  datatype Kind = Tool | Injection | Validation

  /**
   `Resumed`, `Holding` and `Answered` wait for a microtask: to read the client,
   to take a lease for it, and to release. An injection goes through `Using`
   twice when it refreshes the layout first; `last` marks its final request.
   */
  datatype Point =
    | Queued
    | AwaitingStart
    | Resumed
    | Holding(client: nat)
    | Using(client: nat, last: bool)
    | Answered(given: Option<nat>, last: bool)
    | Done

  datatype Flow = Flow(kind: Kind, at: Point)

  datatype Session = Session(core: Core, flows: seq<Flow>)

  datatype Action =
    | BeginTool | BeginInjection | BeginValidation
    | TurnComes(flow: nat)
    | ReadClient(flow: nat)
    | TakeLease(flow: nat, last: bool)
    | Answer(flow: nat)
    | Finish(flow: nat)
    | LaunchFails | LaunchSpawns | ConnectFails | ConnectSucceeds | CloseEnds
    | TimerFires
    | BridgeFails(bridge: nat)
    | Disposed

  predicate DueNow(f: Flow) {
    f.at.Resumed? || f.at.Holding? || f.at.Answered?
  }

  predicate At(s: Session, i: nat) {
    i < |s.flows|
  }

  predicate Enabled(s: Session, a: Action) {
    match a
    case BeginTool => true
    case BeginInjection => true
    case BeginValidation => true
    case TurnComes(i) => At(s, i) && s.flows[i].at.Queued?
    case ReadClient(i) => At(s, i) && s.flows[i].at.Resumed?
    case TakeLease(i, _) => At(s, i) && s.flows[i].at.Holding?
    case Answer(i) => At(s, i) && s.flows[i].at.Using?
    case Finish(i) => At(s, i) && s.flows[i].at.Answered?
    case LaunchFails => s.core.starting.Launching?
    case LaunchSpawns => s.core.starting.Launching?
    case ConnectFails => s.core.starting.Awaiting? && s.core.starting.bridge < |s.core.bridges|
    case ConnectSucceeds => s.core.starting.Awaiting? && s.core.starting.bridge < |s.core.bridges|
    case CloseEnds => s.core.starting.Closing?
    case TimerFires =>
      s.core.timer && (forall f :: f in s.flows ==> !DueNow(f))
      && (s.core.client.Some? ==> s.core.client.value < |s.core.bridges|)
    case BridgeFails(b) => b < |s.core.bridges| && s.core.bridges[b].Live?
    case Disposed => s.core.client.Some? ==> s.core.client.value < |s.core.bridges|
  }

  /** Where a flow stands after asking for the bridge. */
  function Entry(c: Core): Point {
    if c.disposed || c.client.Some? then Resumed else AwaitingStart
  }

  function Begin(s: Session, kind: Kind): Session {
    Session(StartBridge(s.core), s.flows + [Flow(kind, Entry(s.core))])
  }

  function Move(s: Session, i: nat, core: Core, at: Point): Session
    requires At(s, i)
  {
    Session(core, s.flows[i := Flow(s.flows[i].kind, at)])
  }

  /** The end of a start resumes everyone who waits for it. */
  function Wake(core: Core, flows: seq<Flow>): Session {
    Session(core, seq(|flows|, i requires 0 <= i < |flows| =>
                        if flows[i].at.AwaitingStart? then Flow(flows[i].kind, Resumed) else flows[i]))
  }

  function Read(s: Session, i: nat): Session
    requires At(s, i)
  {
    var ready := ReadyClient(s.core);
    match s.flows[i].kind
    case Tool =>
      if ready.None? then Move(s, i, Release(Acquire(s.core)), Done)
      else Move(s, i, Acquire(s.core), Using(ready.value, true))
    case Injection =>
      if ready.None? then Move(s, i, s.core, Done) else Move(s, i, s.core, Holding(ready.value))
    case Validation =>
      if ready.None? then Move(s, i, s.core, Answered(None, true)) else Move(s, i, s.core, Using(ready.value, true))
  }

  function FinishFlow(s: Session, i: nat): Session
    requires At(s, i) && s.flows[i].at.Answered?
  {
    var f := s.flows[i];
    if f.kind.Validation? then Move(s, i, Settle(s.core), Done)
    else if f.kind.Injection? && !f.at.last && f.at.given.Some? then
      Move(s, i, Release(s.core), Holding(f.at.given.value))
    else Move(s, i, Release(s.core), Done)
  }

  function Next(s: Session, a: Action): Session {
    if !Enabled(s, a) then s else
    match a
    case BeginTool => Begin(s, Tool)
    case BeginInjection => Begin(s, Injection)
    case BeginValidation => Session(Enqueue(s.core), s.flows + [Flow(Validation, Queued)])
    case TurnComes(i) => Move(s, i, StartBridge(s.core), Entry(s.core))
    case ReadClient(i) => Read(s, i)
    case TakeLease(i, last) => Move(s, i, Acquire(s.core), Using(s.flows[i].at.client, last))
    case Answer(i) => Move(s, i, s.core, Answered(Some(s.flows[i].at.client), s.flows[i].at.last))
    case Finish(i) => FinishFlow(s, i)
    case LaunchFails => Wake(LaunchFailed(s.core), s.flows)
    case LaunchSpawns => s.(core := LaunchSpawned(s.core))
    case ConnectFails => Wake(ConnectFailed(s.core), s.flows)
    case ConnectSucceeds =>
      if s.core.disposed then s.(core := ConnectReady(s.core)) else Wake(ConnectReady(s.core), s.flows)
    case CloseEnds => Wake(CloseDone(s.core), s.flows)
    case TimerFires => s.(core := Reap(s.core))
    case BridgeFails(b) => s.(core := s.core.(bridges := s.core.bridges[b := Failed]))
    case Disposed => s.(core := Dispose(s.core))
  }

  function Run(ttl: bool, actions: seq<Action>): Session {
    if actions == [] then Session(NewCore(ttl), [])
    else Next(Run(ttl, actions[..|actions| - 1]), actions[|actions| - 1])
  }

  // ----- counts

  predicate Leases(f: Flow) {
    !f.kind.Validation? && (f.at.Using? || f.at.Answered?)
  }

  predicate Pends(f: Flow) {
    f.kind.Validation? && !f.at.Done?
  }

  function Count(flows: seq<Flow>, p: Flow -> bool): nat {
    if flows == [] then 0
    else Count(flows[..|flows| - 1], p) + if p(flows[|flows| - 1]) then 1 else 0
  }

  lemma CountSnoc(flows: seq<Flow>, f: Flow, p: Flow -> bool)
    ensures Count(flows + [f], p) == Count(flows, p) + if p(f) then 1 else 0
  {
    assert (flows + [f])[..|flows|] == flows;
  }

  lemma {:induction false} CountUpdate(flows: seq<Flow>, i: nat, f: Flow, p: Flow -> bool)
    requires i < |flows|
    ensures Count(flows[i := f], p) == Count(flows, p) - (if p(flows[i]) then 1 else 0) + if p(f) then 1 else 0
  {
    var n := |flows| - 1;
    if i < n {
      CountUpdate(flows[..n], i, f, p);
      assert flows[i := f][..n] == flows[..n][i := f];
    } else {
      assert flows[i := f][..n] == flows[..n];
    }
  }

  lemma {:induction false} CountSame(a: seq<Flow>, b: seq<Flow>, p: Flow -> bool)
    requires |a| == |b| && forall i :: 0 <= i < |a| ==> p(a[i]) == p(b[i])
    ensures Count(a, p) == Count(b, p)
  {
    if a != [] {
      CountSame(a[..|a| - 1], b[..|b| - 1], p);
    }
  }

  lemma {:induction false} CountPositive(flows: seq<Flow>, p: Flow -> bool, f: Flow)
    requires f in flows && p(f)
    ensures Count(flows, p) > 0
  {
    if flows[|flows| - 1] != f {
      assert f in flows[..|flows| - 1];
      CountPositive(flows[..|flows| - 1], p, f);
    }
  }

  ghost predicate Exact(s: Session) {
    s.core.leases == Count(s.flows, Leases) && s.core.queued == Count(s.flows, Pends)
  }

  // ----- invariants of the core

  /** Every bridge is the one connecting, the one attached, or has failed or been asked to shut down. */
  ghost predicate BridgesAccounted(c: Core) {
    && (!c.starting.NotStarting? ==> c.client.None?)
    && (c.client.Some? ==> c.client.value < |c.bridges|
                           && (c.bridges[c.client.value].Live? || c.bridges[c.client.value].Failed?))
    && (c.starting.Awaiting? ==> c.starting.bridge < |c.bridges|)
    && (forall b :: 0 <= b < |c.bridges| ==>
          && (c.bridges[b].Connecting? <==> c.starting == Awaiting(b))
          && (c.bridges[b].Live? ==> c.client == Some(b)))
  }

  predicate TimerFits(c: Core) {
    && (c.timer ==> c.ttl && !c.disposed)
    && (c.client.Some? && c.ttl ==> c.timer)
    && (c.disposed ==> c.client.None?)
  }

  ghost predicate FlowsFit(s: Session) {
    forall f :: f in s.flows ==>
      && (f.at.AwaitingStart? ==> !s.core.starting.NotStarting?)
      && (f.kind.Validation? ==> !f.at.Holding?)
      && (f.at.Queued? ==> f.kind.Validation?)
      && (f.at.Answered? && f.at.given.None? ==> f.kind.Validation?)
  }

  /** The client a flow was handed and has not yet given back. */
  function Held(f: Flow): Option<nat> {
    match f.at
    case Holding(c) => Some(c)
    case Using(c, _) => Some(c)
    case Answered(c, _) => c
    case _ => None
  }

  ghost predicate HoldersSpared(s: Session) {
    forall f :: f in s.flows && Held(f).Some? ==>
      Held(f).value < |s.core.bridges| && s.core.bridges[Held(f).value] != ShutDown(Reaper)
  }

  ghost predicate Inv(s: Session) {
    Exact(s) && BridgesAccounted(s.core) && TimerFits(s.core) && FlowsFit(s) && HoldersSpared(s)
  }

  // ----- each action

  lemma BeginKeepsExact(s: Session, a: Action)
    requires Exact(s) && (a.BeginTool? || a.BeginInjection? || a.BeginValidation?)
    ensures Exact(Next(s, a))
  {
    var n := |s.flows|;
    Appended(s, Next(s, a).flows[n]);
    assert Next(s, a).flows == s.flows + [Next(s, a).flows[n]];
  }

  predicate MovesFlow(a: Action) {
    a.TurnComes? || a.ReadClient? || a.TakeLease? || a.Answer? || a.Finish?
  }

  lemma MoveKeepsExact(s: Session, a: Action)
    requires Exact(s) && FlowsFit(s) && Enabled(s, a) && MovesFlow(a)
    ensures Exact(Next(s, a))
  {
    var i, t := a.flow, Next(s, a);
    assert s.flows[i] in s.flows;
    assert t.flows == s.flows[i := t.flows[i]];
    Moved(s, i, t.flows[i]);
    if Leases(s.flows[i]) { CountPositive(s.flows, Leases, s.flows[i]); }
  }

  lemma NextKeepsExact(s: Session, a: Action)
    requires Exact(s) && FlowsFit(s) && Enabled(s, a)
    ensures Exact(Next(s, a))
  {
    if a.BeginTool? || a.BeginInjection? || a.BeginValidation? {
      BeginKeepsExact(s, a);
    } else if MovesFlow(a) {
      MoveKeepsExact(s, a);
    } else {
      Woken(Next(s, a).core, s.flows);
    }
  }

  lemma Appended(s: Session, f: Flow)
    ensures Count(s.flows + [f], Leases) == Count(s.flows, Leases) + if Leases(f) then 1 else 0
    ensures Count(s.flows + [f], Pends) == Count(s.flows, Pends) + if Pends(f) then 1 else 0
  {
    CountSnoc(s.flows, f, Leases);
    CountSnoc(s.flows, f, Pends);
  }

  lemma Moved(s: Session, i: nat, f: Flow)
    requires At(s, i)
    ensures Count(s.flows[i := f], Leases)
      == Count(s.flows, Leases) - (if Leases(s.flows[i]) then 1 else 0) + if Leases(f) then 1 else 0
    ensures Count(s.flows[i := f], Pends)
      == Count(s.flows, Pends) - (if Pends(s.flows[i]) then 1 else 0) + if Pends(f) then 1 else 0
  {
    CountUpdate(s.flows, i, f, Leases);
    CountUpdate(s.flows, i, f, Pends);
  }

  lemma Woken(core: Core, flows: seq<Flow>)
    ensures Count(Wake(core, flows).flows, Leases) == Count(flows, Leases)
    ensures Count(Wake(core, flows).flows, Pends) == Count(flows, Pends)
  {
    CountSame(Wake(core, flows).flows, flows, Leases);
    CountSame(Wake(core, flows).flows, flows, Pends);
  }

  /** The blocks that begin, use and end a flow leave the bridges alone. */
  lemma FlowActionsKeepCore(s: Session, a: Action)
    requires BridgesAccounted(s.core) && TimerFits(s.core) && Enabled(s, a)
    requires a.BeginTool? || a.BeginInjection? || a.BeginValidation? || MovesFlow(a)
    ensures BridgesAccounted(Next(s, a).core) && TimerFits(Next(s, a).core)
    ensures Next(s, a).core.bridges == s.core.bridges
  {
  }

  lemma StartActionsKeepCore(s: Session, a: Action)
    requires BridgesAccounted(s.core) && TimerFits(s.core) && Enabled(s, a)
    requires a.LaunchFails? || a.LaunchSpawns? || a.ConnectFails? || a.ConnectSucceeds? || a.CloseEnds?
    ensures BridgesAccounted(Next(s, a).core) && TimerFits(Next(s, a).core)
  {
  }

  lemma EndActionsKeepCore(s: Session, a: Action)
    requires BridgesAccounted(s.core) && TimerFits(s.core) && Enabled(s, a)
    requires a.TimerFires? || a.BridgeFails? || a.Disposed?
    ensures BridgesAccounted(Next(s, a).core) && TimerFits(Next(s, a).core)
  {
  }

  lemma NextKeepsCore(s: Session, a: Action)
    requires BridgesAccounted(s.core) && TimerFits(s.core) && Enabled(s, a)
    ensures BridgesAccounted(Next(s, a).core) && TimerFits(Next(s, a).core)
  {
    if a.LaunchFails? || a.LaunchSpawns? || a.ConnectFails? || a.ConnectSucceeds? || a.CloseEnds? {
      StartActionsKeepCore(s, a);
    } else if a.TimerFires? || a.BridgeFails? || a.Disposed? {
      EndActionsKeepCore(s, a);
    } else {
      FlowActionsKeepCore(s, a);
    }
  }

  lemma NextKeepsFlows(s: Session, a: Action)
    requires BridgesAccounted(s.core) && FlowsFit(s) && Enabled(s, a)
    ensures FlowsFit(Next(s, a))
  {
  }

  /** When the timer fires nobody who holds a client is between lease and lease. */
  lemma FiringFindsHoldersBusy(s: Session)
    requires Exact(s) && FlowsFit(s) && Enabled(s, TimerFires)
    ensures (exists f :: f in s.flows && (Held(f).Some? || Pends(f))) ==> Busy(s.core)
  {
    if f :| f in s.flows && (Held(f).Some? || Pends(f)) {
      assert !DueNow(f);
      if f.kind.Validation? {
        CountPositive(s.flows, Pends, f);
      } else {
        CountPositive(s.flows, Leases, f);
      }
    }
  }

  /** Whatever happens to the bridges, only a firing timer makes the reaper's mark. */
  lemma OnlyTimerReaps(s: Session, a: Action, b: nat)
    requires BridgesAccounted(s.core) && Enabled(s, a) && b < |s.core.bridges|
    ensures b < |Next(s, a).core.bridges|
    ensures Next(s, a).core.bridges[b] == ShutDown(Reaper) && s.core.bridges[b] != ShutDown(Reaper)
      ==> a.TimerFires? && !Busy(s.core)
  {
  }

  /** A flow that comes to hold a client was handed the live, attached one, or held it before. */
  lemma HandedOver(s: Session, a: Action, f: Flow)
    requires BridgesAccounted(s.core) && Enabled(s, a) && f in Next(s, a).flows && Held(f).Some?
    ensures (exists g :: g in s.flows && Held(g) == Held(f))
      || (Held(f) == s.core.client && Held(f).value < |s.core.bridges| && s.core.bridges[Held(f).value].Live?
          && a.ReadClient?)
  {
    var t := Next(s, a);
    var k :| 0 <= k < |t.flows| && t.flows[k] == f;
    if k < |s.flows| && Held(s.flows[k]) == Held(f) {
      assert s.flows[k] in s.flows;
    }
  }

  lemma NextSparesHolders(s: Session, a: Action)
    requires Inv(s) && Enabled(s, a)
    ensures HoldersSpared(Next(s, a))
  {
    var t := Next(s, a);
    if a.TimerFires? { FiringFindsHoldersBusy(s); }
    forall f | f in t.flows && Held(f).Some?
      ensures Held(f).value < |t.core.bridges| && t.core.bridges[Held(f).value] != ShutDown(Reaper)
    {
      HandedOver(s, a, f);
      OnlyTimerReaps(s, a, Held(f).value);
    }
  }

  lemma NextKeepsInv(s: Session, a: Action)
    requires Inv(s)
    ensures Inv(Next(s, a)) && Next(s, a).core.ttl == s.core.ttl
  {
    if Enabled(s, a) {
      NextKeepsExact(s, a);
      NextKeepsCore(s, a);
      NextKeepsFlows(s, a);
      NextSparesHolders(s, a);
    }
  }

  lemma NothingBegun(ttl: bool)
    ensures Inv(Session(NewCore(ttl), []))
  {
  }

  lemma {:induction false} RunKeepsInv(ttl: bool, actions: seq<Action>)
    ensures Inv(Run(ttl, actions)) && Run(ttl, actions).core.ttl == ttl
  {
    if actions == [] {
      NothingBegun(ttl);
    } else {
      RunKeepsInv(ttl, actions[..|actions| - 1]);
      NextKeepsInv(Run(ttl, actions[..|actions| - 1]), actions[|actions| - 1]);
    }
  }

  // ----- what every run guarantees

  /** The counters are the numbers of unreleased leases and of unsettled validations. */
  lemma {:induction false} CountersAreExact(ttl: bool, actions: seq<Action>)
    ensures var s := Run(ttl, actions);
      s.core.leases == Count(s.flows, Leases) && s.core.queued == Count(s.flows, Pends)
  {
    RunKeepsInv(ttl, actions);
  }

  /** A client handed to a flow that has not given it back is never shut down by the idle timer. */
  lemma ReaperSparesHolders(ttl: bool, actions: seq<Action>, i: nat)
    requires var s := Run(ttl, actions); At(s, i) && Held(s.flows[i]).Some?
    ensures var s := Run(ttl, actions); var c := Held(s.flows[i]).value;
      c < |s.core.bridges| && s.core.bridges[c] != ShutDown(Reaper)
  {
    RunKeepsInv(ttl, actions);
    assert Run(ttl, actions).flows[i] in Run(ttl, actions).flows;
  }

  /** No flow holds a client, is about to take or give back one, or has an unsettled validation. */
  ghost predicate Unused(s: Session) {
    forall f :: f in s.flows ==> Held(f).None? && !Pends(f) && !DueNow(f)
  }

  lemma {:induction false} NoneCounts(flows: seq<Flow>, p: Flow -> bool)
    requires forall f :: f in flows ==> !p(f)
    ensures Count(flows, p) == 0
  {
    if flows != [] { NoneCounts(flows[..|flows| - 1], p); }
  }

  lemma FiringDecides(s: Session, b: nat)
    requires Inv(s) && s.core.client == Some(b) && Enabled(s, TimerFires)
    ensures Busy(s.core) <==> !Unused(s)
  {
    FiringFindsHoldersBusy(s);
    if Unused(s) {
      NoneCounts(s.flows, Leases);
      NoneCounts(s.flows, Pends);
    }
  }

  /**
   Whenever the timer fires on an attached client, it detaches the client if and
   only if nobody uses it: then the bridge has failed or is asked to shut down.
   Otherwise it does nothing but set itself again.
   */
  lemma {:induction false} ReapsIffUnused(ttl: bool, actions: seq<Action>, b: nat)
    requires Run(ttl, actions).core.client == Some(b) && Enabled(Run(ttl, actions), TimerFires)
    ensures var s, t := Run(ttl, actions), Next(Run(ttl, actions), TimerFires);
      if Unused(s) then
        && t.core.client.None? && b < |t.core.bridges|
        && t.core.bridges[b] == (if s.core.bridges[b].Failed? then Failed else ShutDown(Reaper))
      else t == s.(core := s.core.(armings := s.core.armings + 1)) && t.core.timer
  {
    RunKeepsInv(ttl, actions);
    FiringDecides(Run(ttl, actions), b);
  }

  /** The end of a request, a validation, a start, or of a tool's vain attempt is activity; so is a vain firing. */
  ghost predicate IsActivity(s: Session, a: Action)
    requires Enabled(s, a)
  {
    match a
    case Finish(_) => true
    case LaunchFails => true
    case ConnectFails => true
    case ConnectSucceeds => true
    case CloseEnds => true
    case ReadClient(i) => s.flows[i].kind.Tool? && ReadyClient(s.core).None?
    case TimerFires => s.core.client.Some? && !Unused(s)
    case _ => false
  }

  /**
   The timer slides: with recycling on and the session not disposed, it is set
   anew at each activity and at nothing else.
   */
  lemma {:induction false} ActivitySlidesTimer(ttl: bool, actions: seq<Action>, a: Action)
    requires Enabled(Run(ttl, actions), a)
    ensures var s, t := Run(ttl, actions), Next(Run(ttl, actions), a);
      if IsActivity(s, a) && ttl && !s.core.disposed then t.core.timer && t.core.armings == s.core.armings + 1
      else t.core.armings == s.core.armings
  {
    RunKeepsInv(ttl, actions);
    if a.TimerFires? && Run(ttl, actions).core.client.Some? {
      FiringDecides(Run(ttl, actions), Run(ttl, actions).core.client.value);
    }
  }

  // ----- starts and disposal

  /**
   Who asks for the bridge finds it attached or a start in flight, and waits for
   nothing else; a disposed session gives none.
   */
  lemma {:induction false} AskingStarts(ttl: bool, actions: seq<Action>, a: Action)
    requires a.BeginTool? || a.BeginInjection? || (a.TurnComes? && Enabled(Run(ttl, actions), a))
    ensures var t := Next(Run(ttl, actions), a);
      var f := t.flows[if a.TurnComes? then a.flow else |t.flows| - 1];
      && t.core.client == Run(ttl, actions).core.client
      && (t.core.disposed || t.core.client.Some? || !t.core.starting.NotStarting?)
      && f.at == if t.core.disposed || t.core.client.Some? then Resumed else AwaitingStart
  {
    RunKeepsInv(ttl, actions);
  }

  /**
   A start that succeeds attaches its bridge, alive and watched by the timer, and
   resumes everyone who waited; one that fails leaves nothing attached or in
   flight, so that the next flow begins a new one.
   */
  lemma {:induction false} StartResumesWaiters(ttl: bool, actions: seq<Action>, a: Action)
    requires Enabled(Run(ttl, actions), a) && !Run(ttl, actions).core.disposed
    requires a.ConnectSucceeds? || a.ConnectFails? || a.LaunchFails?
    ensures var s, t := Run(ttl, actions), Next(Run(ttl, actions), a);
      && t.core.starting.NotStarting? && |t.flows| == |s.flows|
      && (if a.ConnectSucceeds? then
            && t.core.client == Some(s.core.starting.bridge) && s.core.starting.bridge < |t.core.bridges|
            && t.core.bridges[s.core.starting.bridge].Live? && (ttl ==> t.core.timer)
          else t.core.client.None?)
      && (a.ConnectFails? ==> t.core.bridges == s.core.bridges[s.core.starting.bridge := Failed])
      && (forall i :: 0 <= i < |s.flows| ==>
            t.flows[i] == if s.flows[i].at.AwaitingStart? then Flow(s.flows[i].kind, Resumed) else s.flows[i])
  {
    RunKeepsInv(ttl, actions);
  }

  /**
   A flow that reads the client is given it exactly when it is attached and
   alive; otherwise it is done, or reports that.
   */
  lemma {:induction false} ReadyIsHandedOut(ttl: bool, actions: seq<Action>, i: nat)
    requires Enabled(Run(ttl, actions), ReadClient(i))
    ensures var s, t := Run(ttl, actions), Next(Run(ttl, actions), ReadClient(i));
      var c := s.core.client;
      if c.Some? && c.value < |s.core.bridges| && s.core.bridges[c.value].Live? then Held(t.flows[i]) == c
      else Held(t.flows[i]).None? && (t.flows[i].at.Done? || t.flows[i].kind.Validation?)
  {
    RunKeepsInv(ttl, actions);
    assert Run(ttl, actions).flows[i] in Run(ttl, actions).flows;
  }

  /** Once disposed, a session has no client and no live bridge, and begins no start. */
  ghost predicate Gone(c: Core, d: Core) {
    && d.disposed && d.client.None? && !d.timer
    && |d.bridges| <= |c.bridges| + (if c.starting.Launching? then 1 else 0)
    && (forall b :: 0 <= b < |d.bridges| ==> !d.bridges[b].Live?)
    && (c.starting.NotStarting? ==> d.starting.NotStarting?)
  }

  lemma DisposedCore(s: Session)
    requires Inv(s) && Enabled(s, Disposed)
    ensures var t := Next(s, Disposed);
      && Inv(t) && Gone(s.core, t.core)
      && (s.core.client.Some? ==>
            var b := s.core.client.value;
            t.core.bridges[b] == if s.core.bridges[b].Failed? then Failed else ShutDown(Disposer))
  {
    NextKeepsInv(s, Disposed);
  }

  /** Between two disposed cores: nothing new is begun. */
  ghost predicate Winds(c: Core, d: Core) {
    && d.disposed
    && |d.bridges| + (if d.starting.Launching? then 1 else 0) <= |c.bridges| + (if c.starting.Launching? then 1 else 0)
    && (c.starting.NotStarting? ==> d.starting.NotStarting?)
  }

  lemma NextWinds(s: Session, a: Action)
    requires Inv(s) && s.core.disposed
    ensures Winds(s.core, Next(s, a).core)
  {
  }

  lemma {:induction false} RunWinds(ttl: bool, actions: seq<Action>, later: seq<Action>)
    requires Run(ttl, actions).core.disposed
    ensures Winds(Run(ttl, actions).core, Run(ttl, actions + later).core)
  {
    if later == [] {
      assert actions + later == actions;
    } else {
      var init := later[..|later| - 1];
      RunWinds(ttl, actions, init);
      assert (actions + later)[..|actions + later| - 1] == actions + init;
      RunKeepsInv(ttl, actions + init);
      NextWinds(Run(ttl, actions + init), later[|later| - 1]);
    }
  }

  /**
   Disposal is for good: it asks the attached bridge to shut down unless it has
   failed, and in every continuation nothing is attached, no bridge is alive, and
   no bridge is started but the one a launch under way may still bring.
   */
  lemma {:induction false} DisposedForGood(ttl: bool, actions: seq<Action>, later: seq<Action>)
    ensures var s, t := Run(ttl, actions), Run(ttl, actions + [Disposed] + later);
      && (s.core.client.Some? ==>
            var b, at := s.core.client.value, Run(ttl, actions + [Disposed]).core;
            b < |s.core.bridges| && b < |at.bridges|
            && at.bridges[b] == if s.core.bridges[b].Failed? then Failed else ShutDown(Disposer))
      && Gone(s.core, t.core)
  {
    var s := Run(ttl, actions);
    RunKeepsInv(ttl, actions);
    assert (actions + [Disposed])[..|actions|] == actions;
    DisposedCore(s);
    RunWinds(ttl, actions + [Disposed], later);
    RunKeepsInv(ttl, actions + [Disposed] + later);
  }

  /** At most one start is in flight, and none while a client is attached. */
  lemma {:induction false} SingleFlight(ttl: bool, actions: seq<Action>, a: nat, b: nat)
    requires a < |Run(ttl, actions).core.bridges| && b < |Run(ttl, actions).core.bridges|
    requires Run(ttl, actions).core.bridges[a].Connecting? && Run(ttl, actions).core.bridges[b].Connecting?
    ensures a == b && Run(ttl, actions).core.client.None?
  {
    RunKeepsInv(ttl, actions);
    Accounting(Run(ttl, actions).core, a);
    Accounting(Run(ttl, actions).core, b);
  }

  /** Nothing is attached while a start is under way. */
  lemma {:induction false} StartingMeansDetached(ttl: bool, actions: seq<Action>)
    requires !Run(ttl, actions).core.starting.NotStarting?
    ensures Run(ttl, actions).core.client.None?
  {
    RunKeepsInv(ttl, actions);
  }

  /** Every bridge ever started is the one being started, the attached one, or failed or asked to shut down. */
  lemma BridgesAreAccounted(ttl: bool, actions: seq<Action>, b: nat)
    requires b < |Run(ttl, actions).core.bridges|
    ensures var c := Run(ttl, actions).core;
      match c.bridges[b]
      case Connecting => c.starting == Awaiting(b) && c.client.None?
      case Live => c.client == Some(b) && c.starting.NotStarting?
      case Failed => true
      case ShutDown(_) => c.client != Some(b)
  {
    RunKeepsInv(ttl, actions);
    Accounting(Run(ttl, actions).core, b);
  }

  lemma Accounting(c: Core, b: nat)
    requires BridgesAccounted(c) && b < |c.bridges|
    ensures match c.bridges[b]
      case Connecting => c.starting == Awaiting(b) && c.client.None?
      case Live => c.client == Some(b) && c.starting.NotStarting?
      case Failed => true
      case ShutDown(_) => c.client != Some(b)
  {
  }

  /** With recycling on, an attached client always has an armed timer; a disposed session has neither. */
  lemma TimerWatchesClient(ttl: bool, actions: seq<Action>)
    ensures var c := Run(ttl, actions).core;
      && (c.client.Some? && ttl ==> c.timer)
      && (c.disposed ==> c.client.None? && !c.timer)
      && (!ttl ==> !c.timer)
  {
    RunKeepsInv(ttl, actions);
  }

  /** Nobody waits for a start that is not in flight. */
  lemma {:induction false} NoLostWakeup(ttl: bool, actions: seq<Action>, i: nat)
    requires var s := Run(ttl, actions); At(s, i) && s.flows[i].at.AwaitingStart?
    ensures !Run(ttl, actions).core.starting.NotStarting?
  {
    RunKeepsInv(ttl, actions);
    assert Run(ttl, actions).flows[i] in Run(ttl, actions).flows;
  }
}
