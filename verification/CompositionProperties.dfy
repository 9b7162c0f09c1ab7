/** What holds of every run of the client and the bridge together. */
module CompositionProperties {
  import opened Common
  import opened Protocol
  import opened Text
  import opened RequestIds
  import opened Composition
  import Server
  import Sys = ServerSystem
  import C = Client
  import CP = ClientProperties

  /**
   In every reachable state of a live client, its pending ids are exactly the
   disjoint union of the ids in the request pipe, in the server's queue, active,
   deferred as the shutdown, and answered but not yet received.
   */
  lemma {:induction false} PendingIsPartitioned(actions: seq<Action>)
    requires Live(Run(actions)) && !Run(actions).server.control.Abort?
    ensures PendingInPlaces(Run(actions))
  {
    RunKeepsInv(actions);
    PendingIsInFlight(Run(actions));
  }

  /** Failures the environment causes, none of which says that the bridge broke the protocol. */
  predicate FromEnvironment(f: C.Failure) {
    f.SpawnFailed? || f.StartupTimedOut? || f.InputFailed? || f.UnexpectedStderr? || f.ShutdownTimedOut?
  }

  /** A recorded failure is final, and is the environment's or the spent request limit. */
  predicate Blameless(c: C.Client) {
    c.failure.Some? ==>
      && c.state.FailedState?
      && (FromEnvironment(c.failure.value) || c.failure.value == C.Reported(CodeName(RequestLimit)))
  }

  /** `shutdown()` is called on a ready client and its write throws. */
  predicate Misfires(w: World, a: Action) {
    Enabled(w, a) && a.BeginShutdown? && a.throws && w.client.state.ReadyState?
  }

  lemma CallIsBlameless(c: C.Client, e: C.Event)
    requires Blameless(c) && (e.CallRequest? || e.AbortSignalled? || e.CallShutdown? || IsFault(e))
    ensures Blameless(C.Step(NoText, c, e)) <==> !(e.CallShutdown? && e.throws && c.state.ReadyState?)
  {
  }

  lemma FailedStays(c: C.Client, e: C.Event)
    requires c.state.FailedState? && CP.Tidy(c)
    ensures C.Step(NoText, c, e).failure == c.failure && C.Step(NoText, c, e).state.FailedState?
  {
  }

  lemma DeliveryIsBlameless(w: World)
    requires Inv(w) && Blameless(w.client) && Enabled(w, Deliver)
    ensures Blameless(Next(w, Deliver).client)
  {
    if Live(w) {
      DeliveryNeverSurprises(w);
      var f := Wire(w.server.session.output[w.delivered]);
      FailureMeansFailed(w.client, f);
    } else {
      FailedIgnores(w.client, Wire(w.server.session.output[w.delivered]));
    }
  }

  lemma FailureMeansFailed(c: C.Client, f: C.InFrame)
    requires c.failure.None? && CP.Tidy(c) && !C.Ended(c)
    ensures C.ReceiveFrame(c, f).failure.Some? ==> C.ReceiveFrame(c, f).state.FailedState?
  {
  }

  lemma FailedIgnores(c: C.Client, f: C.InFrame)
    requires c.state.FailedState? && CP.Tidy(c)
    ensures C.ReceiveFrame(c, f).failure == c.failure && C.ReceiveFrame(c, f).state.FailedState?
  {
  }

  lemma NextIsBlameless(w: World, a: Action)
    requires Inv(w) && Blameless(w.client)
    ensures Blameless(Next(w, a).client) <==> !Misfires(w, a)
  {
    if Enabled(w, a) {
      if a.Deliver? {
        DeliveryIsBlameless(w);
      } else if a.EndOfOutput? || a.Exit? {
        if Live(w) { EndKeepsLink(w, a); } else { FailedStays(w.client, ClientEvent(w, a).value); }
      } else if ClientEvent(w, a).Some? {
        CallIsBlameless(w.client, ClientEvent(w, a).value);
      }
    }
  }

  lemma RunStep(actions: seq<Action>, k: nat)
    requires k < |actions|
    ensures Run(actions[..k + 1]) == Next(Run(actions[..k]), actions[k])
  {
    assert actions[..k + 1][..k] == actions[..k];
  }

  lemma {:induction false} PrefixIsBlameless(actions: seq<Action>, k: nat)
    requires k <= |actions| && forall i: nat :: i < k ==> !Misfires(Run(actions[..i]), actions[i])
    ensures Blameless(Run(actions[..k]).client)
  {
    if k > 0 {
      PrefixIsBlameless(actions, k - 1);
      RunKeepsInv(actions[..k - 1]);
      RunStep(actions, k - 1);
      NextIsBlameless(Run(actions[..k - 1]), actions[k - 1]);
    }
  }

  /**
   An honest bridge is never blamed: throughout a run the client fails only for
   what the environment did, or because the session's request limit is spent,
   and stays failed, if and only if no write throws inside `shutdown()` of a
   ready client. In particular no response is unexpected, no frame malformed,
   and no exit taken for a crash.
   */
  lemma {:induction false} BridgeIsNeverBlamed(actions: seq<Action>)
    ensures (forall k: nat :: k <= |actions| ==> Blameless(Run(actions[..k]).client))
       <==> (forall k: nat :: k < |actions| ==> !Misfires(Run(actions[..k]), actions[k]))
  {
    if forall k: nat :: k < |actions| ==> !Misfires(Run(actions[..k]), actions[k]) {
      forall k: nat | k <= |actions| ensures Blameless(Run(actions[..k]).client) {
        PrefixIsBlameless(actions, k);
      }
    }
    if forall k: nat :: k <= |actions| ==> Blameless(Run(actions[..k]).client) {
      forall k: nat | k < |actions| ensures !Misfires(Run(actions[..k]), actions[k]) {
        RunKeepsInv(actions[..k]);
        RunStep(actions, k);
        NextIsBlameless(Run(actions[..k]), actions[k]);
        assert Blameless(Run(actions[..k + 1]).client);
      }
    }
  }

  /**
   With such a throw the failed client is taken back to `stopping`, and then
   blames the bridge: the answer to a request it has already rejected is unexpected.
   */
  lemma ThrowingShutdownMisleads(c: C.Client, id: Id, value: Value)
    requires c.state.ReadyState? && CP.Tidy(c) && c.failure.None? && c.pending == [id]
    ensures var failed := C.Step(NoText, c, C.CallShutdown(true));
      && failed.failure == Some(C.InputFailed) && failed.state.Stopping? && failed.pending == []
      && C.ReceiveFrame(failed, C.ResponseOf(id, C.IsOk(value))).failure == Some(C.ResponseUnexpected(id))
  {
  }

  /** One more action at the end of a run. */
  lemma RunOf(actions: seq<Action>, w: World, a: Action) returns (longer: seq<Action>)
    requires Run(actions) == w
    ensures longer == actions + [a] && Run(longer) == Next(w, a)
  {
    longer := actions + [a];
    assert longer[..|actions|] == actions;
  }

  lemma StatusIsAnswered(s: Sys.System, id: Id)
    requires 0 < Utf8Bytes(id) <= MAX_REQUEST_ID_BYTES
    requires s == Sys.Start().(queue := [Server.InputLine(Frame(Request(id, Verb.Status, NoParams)))])
    ensures var t := Sys.Next(s, Sys.Take);
      t.control.Continue? && t.session.output == [Ready, Response(id, Answer(PayloadIdentity))]
  {
    assert Server.Decode(s.queue[0].line, s.session.seen) == Ok(Request(id, Verb.Status, NoParams));
  }

  /** A ready client that has made one request and waits for its answer. */
  function Asking(): C.Client {
    var id := RequestName(1);
    C.NewClient().(state := C.ReadyState, startupTimer := false, readyLog := [true], nextRequest := 1,
                   pending := [id], sent := [Request(id, Verb.Status, NoParams)])
  }

  lemma AskedRun() returns (actions: seq<Action>)
    ensures Run(actions) == World(Asking(), Sys.Start(), 0, 1, false, false)
  {
    var w0 := Begin();
    var w1 := World(C.NewClient().(state := C.ReadyState, startupTimer := false, readyLog := [true]),
                    Sys.Start(), 0, 1, false, false);
    assert Next(w0, Deliver) == w1;
    actions := RunOf([], w0, Deliver);
    actions := RunOf(actions, w1, Ask(Verb.Status, NoParams, false, false, false));
  }

  /** The request is read and answered; the answer has not been received. */
  lemma AnsweredRun() returns (actions: seq<Action>, server: Sys.System)
    ensures Run(actions) == World(Asking(), server, 1, 1, false, false)
    ensures server.session.output == [Ready, Response(RequestName(1), Answer(PayloadIdentity))]
  {
    actions := AskedRun();
    var w1 := Run(actions);
    var s := Sys.Start().(queue := [Server.InputLine(Frame(Request(RequestName(1), Verb.Status, NoParams)))]);
    assert Next(w1, ReadRequest) == World(Asking(), s, 1, 1, false, false);
    actions := RunOf(actions, w1, ReadRequest);
    RequestNameFits(1);
    StatusIsAnswered(s, RequestName(1));
    server := Sys.Next(s, Sys.Take);
    actions := RunOf(actions, World(Asking(), s, 1, 1, false, false), Bridge(Sys.Take));
  }

  /** A run from the start in which an honest bridge is blamed for an unexpected response. */
  lemma {:induction false} ThrowingShutdownBlamesBridge()
    ensures exists actions :: Run(actions).client.failure == Some(C.ResponseUnexpected(RequestName(1)))
  {
    var actions, server := AnsweredRun();
    var w := Run(actions);
    var failed := C.CallShutdownOn(Asking(), true);
    ThrowingShutdownMisleads(Asking(), RequestName(1), PayloadIdentity);
    actions := RunOf(actions, w, BeginShutdown(true));
    actions := RunOf(actions, World(failed, server, 1, 1, false, false), Deliver);
  }

  // ----- error codes on the wire

  /** What tells the bridge's own codes apart: their length, and one or two characters. */
  function CodeMark(code: ErrorCode): (nat, char, char)
    requires !code.Upstream?
  {
    match code
    case FrameInvalid => (34, 'f', ' ')
    case ProtocolMismatch => (38, 'p', ' ')
    case RequestIdInvalid => (39, 'r', '-')
    case RequestIdReused => (38, 'r', ' ')
    case RequestLimit => (34, 'r', ' ')
    case ShuttingDown => (34, 's', ' ')
    case MethodUnsupported => (39, 'm', ' ')
    case ParamsInvalid => (35, 'p', ' ')
    case Busy => (25, 'b', ' ')
    case RequestNotActive => (39, 'r', 't')
    case OperationOrphaned => (39, 'o', 'o')
    case OperationMismatch => (39, 'o', 'm')
    case InputClosed => (33, 'i', ' ')
    case InputInvalid => (34, 'i', ' ')
  }

  lemma CodeHasMark(code: ErrorCode)
    requires !code.Upstream?
    ensures |CodeName(code)| == CodeMark(code).0 && CodeName(code)[21] == CodeMark(code).1
    ensures CodeMark(code).2 != ' ' ==> CodeName(code)[31] == CodeMark(code).2
  {
  }

  /** The client can tell the bridge's own error codes apart. */
  lemma CodesTellApart(a: ErrorCode, b: ErrorCode)
    requires !a.Upstream? && !b.Upstream? && CodeName(a) == CodeName(b)
    ensures a == b
  {
    CodeHasMark(a);
    CodeHasMark(b);
  }
}
