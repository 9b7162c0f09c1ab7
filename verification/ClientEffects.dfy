/**
 What each event of the client writes, whom a failure rejects and for what, and
 which events end it. Like its properties, this holds against any peer.
 */
module ClientEffects {
  import opened Common
  import opened Text
  import opened Protocol
  import opened RequestIds
  import opened Client
  import opened ClientProperties

  // ----- what is written

  lemma {:induction false} DrainWritesNothing(decode: string -> InFrame, c: Client)
    ensures Drain(decode, c).sent == c.sent && Drain(decode, c).nextRequest == c.nextRequest
    decreases |c.buffer|
  {
    if Newline(c.buffer) < |c.buffer| && ReceiveFirst(decode, c).failure.None? {
      DrainWritesNothing(decode, ReceiveFirst(decode, c));
    }
  }

  /** Whether an event makes the client write a frame, and which. */
  predicate Asks(c: Client, e: Event, verb: Verb, params: Params) {
    c.state.ReadyState? &&
    match e
    case CallRequest(v, p, aborted, _, throws) => !aborted && !throws && v == verb && p == params
    case AbortSignalled(id, throws) =>
      id in c.listeners && id in c.pending && !throws && verb == Verb.Cancel && params == RequestId(id)
    case CallShutdown(throws) => !throws && verb == Verb.Shutdown && params == NoParams
    case _ => false
  }

  /**
   Only a ready client writes, one frame an event and under a new id: what it is
   asked for, the cancellation of a pending request it is told to abort, or the
   shutdown. Anything else writes nothing.
   */
  lemma WhatIsWritten(decode: string -> InFrame, c: Client, e: Event)
    ensures var d := Step(decode, c, e);
      && (forall verb, params ::
            d.sent == c.sent + [Request(RequestName(c.nextRequest + 1), verb, params)] <==> Asks(c, e, verb, params))
      && (d.sent != c.sent ==> exists verb, params :: Asks(c, e, verb, params))
  {
    if e.Chunk? {
      DrainWritesNothing(decode, c.(buffer := c.buffer + e.text));
    }
    var d := Step(decode, c, e);
    forall verb, params
      ensures d.sent == c.sent + [Request(RequestName(c.nextRequest + 1), verb, params)] <==> Asks(c, e, verb, params)
    {
      var r := Request(RequestName(c.nextRequest + 1), verb, params);
      if d.sent == c.sent + [r] { assert d.sent[|c.sent|] == r; }
      if Asks(c, e, verb, params) { assert d.sent == c.sent + [r]; }
    }
    if d.sent != c.sent {
      var r := d.sent[|c.sent|];
      assert Asks(c, e, r.verb, r.params);
    }
  }

  /** An abort cancels the request it is for, once: the client writes that id, and a second abort is not heard. */
  lemma AbortCancelsItsRequest(decode: string -> InFrame, c: Client, id: Id, again: bool)
    requires c.state.ReadyState? && id in c.listeners && id in c.pending
    ensures var d := Step(decode, c, AbortSignalled(id, false));
      && d.sent == c.sent + [Request(RequestName(c.nextRequest + 1), Verb.Cancel, RequestId(id))]
      && d.pending == c.pending + [RequestName(c.nextRequest + 1)]
      && Step(decode, d, AbortSignalled(id, again)) == d
  {
  }

  // ----- whom a failure rejects

  /** Every settlement added to `c` that a failure caused names the failure recorded. */
  ghost predicate BlamesItsFailure(c: Client, d: Client) {
    && c.settled <= d.settled
    && (forall i :: |c.settled| <= i < |d.settled| && d.settled[i].how.RejectedBy? ==>
          d.failure == Some(d.settled[i].how.failure))
  }

  lemma FailBlames(c: Client, failure: Failure)
    requires !Ended(c)
    ensures BlamesItsFailure(c, Fail(c, failure)) && Fail(c, failure).failure == Some(failure)
  {
  }

  lemma ReceiveBlames(c: Client, frame: InFrame)
    requires c.failure.None? && !Ended(c)
    ensures BlamesItsFailure(c, ReceiveFrame(c, frame))
    ensures ReceiveFrame(c, frame).failure.None? ==> !Ended(ReceiveFrame(c, frame))
  {
    if frame.ResponseOf? && frame.id in c.pending {
      ResponseEffect(c, frame.id, frame.status);
      var settled := Settle(c, frame.id, HowSettled(frame.status));
      FailBlames(settled, ResponseInvalid);
    } else {
      FailBlames(c, FailureOf(frame));
    }
  }

  lemma {:induction false} DrainBlames(decode: string -> InFrame, c: Client)
    requires c.failure.None? && !Ended(c)
    ensures BlamesItsFailure(c, Drain(decode, c))
    decreases |c.buffer|
  {
    var k := Newline(c.buffer);
    if k < |c.buffer| {
      var received := ReceiveFirst(decode, c);
      ReceiveBlames(c.(buffer := c.buffer[k + 1..]), decode(TrimReturn(c.buffer[..k])));
      if received.failure.None? { DrainBlames(decode, received); }
    }
  }

  lemma StepBlames(decode: string -> InFrame, c: Client, e: Event)
    requires c.failure.None? && Tidy(c)
    ensures BlamesItsFailure(c, Step(decode, c, e))
  {
    if Ended(c) {
      EndedIsAbsorbing(decode, c, e);
    } else if e.Chunk? {
      var joined := c.(buffer := c.buffer + e.text);
      FailBlames(joined, OutputTooLarge);
      DrainBlames(decode, joined);
    }
  }

  lemma {:induction false} PendingOrSettled(settled: seq<Settled>, id: Id)
    requires id in SettledIds(settled)
    ensures exists i :: 0 <= i < |settled| && settled[i].id == id
  {
    var last := |settled| - 1;
    if settled[last].id != id {
      PendingOrSettled(settled[..last], id);
      var i :| 0 <= i < last && settled[..last][i].id == id;
      assert settled[i].id == id;
    }
  }

  /** What was pending and no longer is, has been settled since. */
  lemma AddedOnce(settled: multiset<Id>, pending: multiset<Id>, added: multiset<Id>, m: nat, n: nat, id: Id)
    requires m <= n && settled + pending == multiset(Names(0, m)) && settled + added == multiset(Names(0, n))
    requires id in pending
    ensures id in added
  {
    assert Names(0, n) == Names(0, m) + Names(m, n);
    NamesOnce(m, id);
    assert (settled + pending)[id] <= 1;
    assert (settled + added)[id] == multiset(Names(0, m))[id] + multiset(Names(m, n))[id];
  }

  lemma MadeIsSettled(before: seq<Settled>, added: seq<Settled>, pending: seq<Id>, m: nat, n: nat, id: Id)
    returns (i: nat)
    requires m <= n && id in pending
    requires multiset(SettledIds(before)) + multiset(pending) == multiset(Names(0, m))
    requires multiset(SettledIds(before + added)) == multiset(Names(0, n))
    ensures |before| <= i < |before + added| && (before + added)[i].id == id
  {
    SettledIdsConcat(before, added);
    AddedOnce(multiset(SettledIds(before)), multiset(pending), multiset(SettledIds(added)), m, n, id);
    PendingOrSettled(added, id);
    var k :| 0 <= k < |added| && added[k].id == id;
    i := |before| + k;
  }

  /**
   The event that fails a client settles every promise then pending, kills the
   child, and rejects for the recorded failure whatever no response has settled;
   an event other than output answers nothing, so it rejects them all.
   */
  lemma {:induction false} FailureRejectsPending(decode: string -> InFrame, events: seq<Event>, e: Event, id: Id)
    requires Run(decode, events).failure.None? && Run(decode, events + [e]).failure.Some?
    requires id in Run(decode, events).pending
    ensures var c, d := Run(decode, events), Run(decode, events + [e]);
      && d.killed && d.pending == []
      && exists i :: |c.settled| <= i < |d.settled| && d.settled[i].id == id
           && (d.settled[i].how == RejectedBy(d.failure.value) || (e.Chunk? && !d.settled[i].how.RejectedBy?))
  {
    var c := Run(decode, events);
    assert (events + [e])[..|events|] == events;
    RunKeepsInv(decode, events);
    RunKeepsInv(decode, events + [e]);
    RunKeepsFate(decode, events + [e]);
    var d := Step(decode, c, e);
    StepBlames(decode, c, e);
    NumbersGrow(decode, c, e);
    var added := d.settled[|c.settled|..];
    assert c.settled + added == d.settled;
    var i := MadeIsSettled(c.settled, added, c.pending, c.nextRequest, d.nextRequest, id);
    if !e.Chunk? { OnlyOutputAnswers(decode, c, e); }
  }

  lemma NumbersGrow(decode: string -> InFrame, c: Client, e: Event)
    ensures c.nextRequest <= Step(decode, c, e).nextRequest
  {
    if e.Chunk? { DrainWritesNothing(decode, c.(buffer := c.buffer + e.text)); }
  }

  lemma OnlyOutputAnswers(decode: string -> InFrame, c: Client, e: Event)
    requires !e.Chunk?
    ensures var d := Step(decode, c, e);
      c.settled <= d.settled && forall i :: |c.settled| <= i < |d.settled| ==> d.settled[i].how.RejectedBy?
  {
  }

  /** What a state says about the child, the start-up timer and the ready promise. */
  ghost predicate Fate(c: Client) {
    && (c.failure.Some? <==> c.killed)
    && (c.state.Starting? <==> c.startupTimer)
    && (c.state.ReadyState? || c.state.Stopping? || c.state.Stopped? ==> c.readyLog == [true])
    && (c.readyLog == [false] ==> c.state.FailedState? && c.nextRequest == 0)
    && (c.state.Starting? ==> c.nextRequest == 0 && c.failure.None?)
  }

  lemma FailKeepsFate(c: Client, failure: Failure)
    requires Tidy(c) && Fate(c)
    ensures Fate(Fail(c, failure))
  {
  }

  lemma ReceiveKeepsFate(c: Client, frame: InFrame)
    requires Tidy(c) && Fate(c)
    ensures Fate(ReceiveFrame(c, frame))
  {
    if frame.ResponseOf? && frame.id in c.pending {
      ResponseEffect(c, frame.id, frame.status);
    } else {
      FailKeepsFate(c, FailureOf(frame));
    }
  }

  lemma {:induction false} DrainKeepsFate(decode: string -> InFrame, c: Client)
    requires Inv(c) && Fate(c)
    ensures Fate(Drain(decode, c))
    decreases |c.buffer|
  {
    var k := Newline(c.buffer);
    if k < |c.buffer| {
      var d := c.(buffer := c.buffer[k + 1..]);
      assert Inv(d) && Fate(d);
      var frame := decode(TrimReturn(c.buffer[..k]));
      ReceiveKeepsInv(d, frame);
      ReceiveKeepsFate(d, frame);
      if ReceiveFrame(d, frame).failure.None? { DrainKeepsFate(decode, ReceiveFrame(d, frame)); }
    }
  }

  lemma CallKeepsFate(decode: string -> InFrame, c: Client, e: Event)
    requires Tidy(c) && Fate(c) && (e.CallRequest? || e.AbortSignalled? || e.CallShutdown?)
    ensures Fate(Step(decode, c, e))
  {
  }

  lemma StepKeepsFate(decode: string -> InFrame, c: Client, e: Event)
    requires Inv(c) && Fate(c)
    ensures Fate(Step(decode, c, e))
  {
    if e.Chunk? {
      var joined := c.(buffer := c.buffer + e.text);
      assert Inv(joined) && Fate(joined);
      DrainKeepsFate(decode, joined);
    } else if Terminal(e) {
      TerminalEffect(decode, c, e);
      FailKeepsFate(c, TerminalFailure(c, e));
    } else {
      CallKeepsFate(decode, c, e);
    }
  }

  lemma {:induction false} RunKeepsFate(decode: string -> InFrame, events: seq<Event>)
    ensures Fate(Run(decode, events))
  {
    if events != [] {
      RunKeepsInv(decode, events[..|events| - 1]);
      RunKeepsFate(decode, events[..|events| - 1]);
      StepKeepsFate(decode, Run(decode, events[..|events| - 1]), events[|events| - 1]);
    }
  }

  /**
   In every run the child is killed exactly when a failure is recorded, and the
   ready promise tells whether the client was ever ready: it has resolved in
   every state a ready client reaches, and one that was rejected never asked for
   anything.
   */
  lemma {:induction false} ReadyTellsTheStart(decode: string -> InFrame, events: seq<Event>)
    ensures var c := Run(decode, events);
      && (c.killed <==> c.failure.Some?)
      && (c.state.ReadyState? || c.state.Stopping? || c.state.Stopped? ==> c.readyLog == [true])
      && (c.nextRequest > 0 ==> c.readyLog == [true])
      && (c.state.Starting? <==> c.readyLog == [])
      && (Ended(c) && c.readyLog == [false] ==> c.state.FailedState? && c.settled == [])
  {
    RunKeepsFate(decode, events);
    RunKeepsInv(decode, events);
    var c := Run(decode, events);
    if c.nextRequest == 0 { NothingMade(c); }
    if !c.state.Starting? { OneBool(c.readyLog); }
  }

  lemma OneBool(log: seq<bool>)
    requires |log| == 1
    ensures log == [true] || log == [false]
  {
    if log[0] { assert log == [true]; } else { assert log == [false]; }
  }

  lemma NothingMade(c: Client)
    requires Conserved(c) && c.nextRequest == 0
    ensures c.settled == []
  {
    assert Names(0, 0) == [];
    SettledIdsLength(c.settled);
    assert multiset(SettledIds(c.settled)) + multiset(c.pending) == multiset{};
    assert |SettledIds(c.settled)| == |multiset(SettledIds(c.settled))| == 0;
  }

  lemma {:induction false} SettledIdsLength(settled: seq<Settled>)
    ensures |SettledIds(settled)| == |settled|
  {
    if settled != [] { SettledIdsLength(settled[..|settled| - 1]); }
  }

  // ----- what ends a client

  /** The failure an event ends a client that has not ended with, when it does. */
  function Ends(c: Client, e: Event): Option<Failure> {
    match e
    case SpawnError => Some(SpawnFailed)
    case Stderr => Some(UnexpectedStderr)
    case WriteFailed => Some(InputFailed)
    case StartupTimeout => if c.state.Starting? then Some(StartupTimedOut) else None
    case ShutdownTimeout => if c.state.Stopping? then Some(ShutdownTimedOut) else None
    case StdoutEnd =>
      if c.buffer != "" then Some(FrameIncomplete)
      else if c.state.Stopping? && c.pending == [] then None
      else Some(OutputClosed)
    case Close(code) => if c.state.Stopping? && c.pending == [] && code == 0 then None else Some(Crashed)
    case _ => None
  }

  /**
   In every run, each of these events ends a client that has not ended, with the
   failure it stands for: the timers only in the state they watch, the end of
   output and the exit unless the client is stopping with nothing owed.
   */
  lemma {:induction false} EachEndHasItsCause(decode: string -> InFrame, events: seq<Event>, e: Event)
    requires Terminal(e) && !Ended(Run(decode, events))
    ensures var c, d := Run(decode, events), Step(decode, Run(decode, events), e);
      && (Ends(c, e).Some? ==> d.state.FailedState? && d.failure == Ends(c, e))
      && (Ends(c, e).None? ==> d == if e.Close? then c.(state := Stopped) else c)
  {
    RunKeepsFate(decode, events);
  }

  /** Why a frame fails a client that has not ended, when it does. */
  predicate Offends(c: Client, frame: InFrame, failure: Failure) {
    match failure
    case FrameNotJson => frame.NotJson?
    case ApiMismatch => frame.OtherApi?
    case FrameTypeInvalid => frame.OtherType?
    case ReadyInvalid => frame.ReadyEvent? && (!frame.complete || !c.state.Starting?)
    case EventUnsupported => frame.OtherEvent?
    case Reported(code) =>
      || (frame.FailureEvent? && frame.code == code)
      || (code == ERROR_INVALID && frame.ResponseOf? && frame.id in c.pending && frame.status == IsError(code))
    case ResponseInvalid =>
      frame.IncompleteResponse? || (frame.ResponseOf? && frame.id in c.pending && frame.status.IsOther?)
    case ResponseUnexpected(id) => frame.ResponseOf? && frame.id == id && id !in c.pending
    case _ => false
  }

  /**
   A frame fails a client that has not ended for one reason, or for none: then it
   is the greeting that makes a starting client ready, or settles what it answers.
   */
  lemma EachFrameHasItsEffect(c: Client, frame: InFrame)
    requires c.failure.None? && !Ended(c)
    ensures var d := ReceiveFrame(c, frame);
      && (forall failure :: d.failure == Some(failure) <==> Offends(c, frame, failure))
      && (d.failure.Some? <==> d.state.FailedState?)
      && (d.failure.None? ==>
            if frame.ReadyEvent? then
              c.state.Starting? && d.state.ReadyState? && d.readyLog == c.readyLog + [true] && d.settled == c.settled
            else
              && frame.ResponseOf? && frame.id in c.pending && d.state == c.state
              && d.settled == c.settled + [Settled(frame.id, HowSettled(frame.status))])
  {
  }
}
