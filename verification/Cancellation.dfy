/**
 One cancellation token, raced over by the event loop that cancels and the
 worker that runs an operation of several child processes in a row.

 Every atomic access and every locked access is a step of its own; the two
 threads and the child interleave freely.
 */
module Cancellation {
  import opened Common

  datatype Child = NoChild | Alive | Signalled | Exited(killed: bool)

  datatype Holder = Free | ByCanceller | ByRunner

  /** Where the thread in `cancel` is; `first` is what its swap will report. */
  datatype Canceller = Idle | Swapped(first: bool) | Locked(first: bool)

  datatype Ending = Succeeded | WasCancelled | HasFailed

  /** Where the worker is: in one run of a child, or between two, or done. */
  datatype Runner =
    | Begin
    | Checked
    | Spawned
    | Installed
    | Inspected(sawFlag: bool)
    | Waiting
    | Polling
    | Reaped
    | Clearing
    | Joined
    | Completed
    | Ended(ending: Ending)

  /**
   `left` counts the child processes still to run after the current one. The
   rest is history: children started, how many there were at the first swap
   and where the worker was then, whether each completed run's child had been
   killed, and what each `cancel` reported.
   */
  datatype State = State(
    flag: bool,
    lock: Holder,
    slot: bool,
    child: Child,
    canceller: Canceller,
    runner: Runner,
    left: nat,
    started: nat,
    startedAtFlag: nat,
    runnerAtFlag: Runner,
    leftAtFlag: nat,
    completedKilled: seq<bool>,
    reports: seq<bool>)

  datatype Action =
    | Swap | LockToKill | KillAndUnlock
    | CheckFlag | Spawn | Install | Inspect | UnlockInstalled
    | LockToPoll | Poll | LockToClear | Clear | CheckAgain | Continue
    | GiveUp
    | ChildExits

  function Start(children: nat): State
    requires children > 0
  {
    State(false, Free, false, NoChild, Idle, Begin, children - 1, 0, 0, Begin, 0, [], [])
  }

  /** Killing is harmless unless the child is alive. */
  function Kill(c: Child): Child {
    if c.Alive? then Signalled else c
  }

  predicate Enabled(s: State, a: Action) {
    match a
    case Swap => s.canceller.Idle?
    case LockToKill => s.canceller.Swapped? && s.lock.Free?
    case KillAndUnlock => s.canceller.Locked?
    case CheckFlag => s.runner.Begin?
    case Spawn => s.runner.Checked?
    case Install => s.runner.Spawned? && s.lock.Free?
    case Inspect => s.runner.Installed?
    case UnlockInstalled => s.runner.Inspected?
    case LockToPoll => s.runner.Waiting? && s.lock.Free?
    case Poll => s.runner.Polling?
    case LockToClear => s.runner.Reaped? && s.lock.Free?
    case Clear => s.runner.Clearing?
    case CheckAgain => s.runner.Joined?
    case Continue => s.runner.Completed?
    case GiveUp => s.runner.Begin? || s.runner.Checked? || s.runner.Completed?
    case ChildExits => s.child.Alive? || s.child.Signalled?
  }

  function Next(s: State, a: Action): State {
    if !Enabled(s, a) then s else
    match a
    case Swap =>
      var t := s.(flag := true, canceller := Swapped(!s.flag));
      if s.flag then t
      else t.(startedAtFlag := s.started, runnerAtFlag := s.runner, leftAtFlag := s.left)
    case LockToKill => s.(lock := ByCanceller, canceller := Locked(s.canceller.first))
    case KillAndUnlock =>
      s.(child := if s.slot then Kill(s.child) else s.child,
         lock := Free, canceller := Idle, reports := s.reports + [s.canceller.first])
    case CheckFlag => s.(runner := if s.flag then Ended(WasCancelled) else Checked)
    case Spawn => s.(runner := Spawned, child := Alive, started := s.started + 1)
    case Install => s.(runner := Installed, lock := ByRunner, slot := true)
    case Inspect => s.(runner := Inspected(s.flag))
    case UnlockInstalled =>
      s.(runner := Waiting, lock := Free, child := if s.runner.sawFlag then Kill(s.child) else s.child)
    case LockToPoll => s.(runner := Polling, lock := ByRunner)
    case Poll => s.(runner := if s.child.Exited? then Reaped else Waiting, lock := Free)
    case LockToClear => s.(runner := Clearing, lock := ByRunner)
    case Clear => s.(runner := Joined, lock := Free, slot := false)
    case CheckAgain =>
      if s.flag then s.(runner := Ended(WasCancelled))
      else s.(runner := Completed, completedKilled := s.completedKilled + [s.child == Exited(true)])
    case Continue =>
      if s.left == 0 then s.(runner := Ended(Succeeded))
      else s.(runner := Begin, child := NoChild, left := s.left - 1)
    case GiveUp => s.(runner := Ended(HasFailed))
    case ChildExits => s.(child := Exited(s.child.Signalled?))
  }

  function Run(children: nat, actions: seq<Action>): State
    requires children > 0
  {
    if actions == [] then Start(children)
    else Next(Run(children, actions[..|actions| - 1]), actions[|actions| - 1])
  }

  // ----- the invariant

  predicate RunnerLocks(r: Runner) {
    r.Installed? || r.Inspected? || r.Polling? || r.Clearing?
  }

  predicate ChildInSlot(r: Runner) {
    RunnerLocks(r) || r.Waiting? || r.Reaped?
  }

  predicate WasKilled(c: Child) {
    c.Signalled? || c == Exited(true)
  }

  /** One thread at most is inside the lock, and the slot holds the child exactly between install and clear. */
  predicate Exclusive(s: State) {
    && (s.lock.ByRunner? <==> RunnerLocks(s.runner))
    && (s.lock.ByCanceller? <==> s.canceller.Locked?)
    && (s.slot <==> ChildInSlot(s.runner))
  }

  predicate ChildFits(s: State) {
    && (s.runner.Begin? || s.runner.Checked? ==> s.child.NoChild?)
    && (s.runner.Spawned? || s.slot ==> !s.child.NoChild?)
    && (s.runner.Reaped? || s.runner.Clearing? || s.runner.Joined? || s.runner.Completed? ==> s.child.Exited?)
    && (WasKilled(s.child) ==> s.flag)
  }

  /** A cancellation that has not reached an installed, living child is still on its way to it. */
  predicate NotLost(s: State) {
    && (!s.canceller.Idle? ==> s.flag)
    && (s.runner.Inspected? && s.runner.sawFlag ==> s.flag)
    && (s.runner.Inspected? && !s.runner.sawFlag && s.flag ==> s.canceller.Swapped?)
    && (s.flag && s.slot && s.child.Alive? && !s.runner.Installed? && s.runner != Inspected(true)
        ==> !s.canceller.Idle?)
  }

  /** What the token's history says about the worker. */
  predicate History(s: State) {
    && (s.flag ==> s.started <= s.startedAtFlag + (if s.runnerAtFlag.Checked? then 1 else 0))
    && (s.flag && s.runner.Checked? ==> s.started == s.startedAtFlag && s.runnerAtFlag.Checked?)
    && (s.flag && s.started > s.startedAtFlag && ChildInSlot(s.runner) && !s.runner.Installed? ==>
          s.runner == Inspected(true) || !s.child.Alive?)
    && (s.flag ==>
          if TooLate(s)
          then (s.runner.Completed? && s.left == 0) || (s.runner.Ended? && s.runner.ending != WasCancelled)
          else !(s.runner.Completed? && s.left == 0) && s.runner != Ended(Succeeded))
    && (s.runner == Ended(WasCancelled) ==> s.flag)
    && (forall k :: k in s.completedKilled ==> !k)
  }

  /** At the first swap the worker had passed the last check of its last child, or was done. */
  predicate TooLate(s: State) {
    (s.runnerAtFlag.Completed? && s.leftAtFlag == 0) || s.runnerAtFlag.Ended?
  }

  predicate Inv(s: State) {
    Exclusive(s) && ChildFits(s) && NotLost(s) && History(s) && Reported(s)
  }

  function Trues(s: seq<bool>): nat {
    if s == [] then 0 else Trues(s[..|s| - 1]) + if s[|s| - 1] then 1 else 0
  }

  /** The first swap is the only one that reports acceptance. */
  predicate Reported(s: State) {
    Trues(s.reports) + (if !s.canceller.Idle? && s.canceller.first then 1 else 0) == if s.flag then 1 else 0
  }

  lemma NextKeepsReports(s: State, a: Action)
    requires Inv(s)
    ensures Reported(Next(s, a))
  {
    if a.KillAndUnlock? && Enabled(s, a) {
      assert (s.reports + [s.canceller.first])[..|s.reports|] == s.reports;
    }
  }

  lemma NextKeepsExclusion(s: State, a: Action)
    requires Exclusive(s) && ChildFits(s) && NotLost(s)
    ensures Exclusive(Next(s, a)) && ChildFits(Next(s, a))
  {
  }

  lemma NextKeepsNotLost(s: State, a: Action)
    requires Exclusive(s) && ChildFits(s) && NotLost(s)
    ensures NotLost(Next(s, a))
  {
  }

  lemma NextKeepsHistory(s: State, a: Action)
    requires Inv(s)
    ensures History(Next(s, a))
  {
  }

  lemma NextKeepsInv(s: State, a: Action)
    requires Inv(s)
    ensures Inv(Next(s, a))
  {
    NextKeepsExclusion(s, a);
    NextKeepsNotLost(s, a);
    NextKeepsHistory(s, a);
    NextKeepsReports(s, a);
  }

  lemma {:induction false} RunKeepsInv(children: nat, actions: seq<Action>)
    requires children > 0
    ensures Inv(Run(children, actions))
  {
    if actions != [] {
      RunKeepsInv(children, actions[..|actions| - 1]);
      NextKeepsInv(Run(children, actions[..|actions| - 1]), actions[|actions| - 1]);
    }
  }

  // ----- what every interleaving guarantees

  /**
   No cancellation is lost: with the flag set, the child installed, no `cancel`
   under way and the lock free, the child has exited or has been told to.
   */
  lemma NoLostCancellation(children: nat, actions: seq<Action>)
    requires children > 0
    requires var s := Run(children, actions); s.flag && s.slot && s.lock.Free? && s.canceller.Idle?
    ensures !Run(children, actions).child.Alive?
  {
    RunKeepsInv(children, actions);
  }

  /** No run whose child was killed by a cancellation counts as completed. */
  lemma KilledNeverCompletes(children: nat, actions: seq<Action>, i: nat)
    requires children > 0 && i < |Run(children, actions).completedKilled|
    ensures !Run(children, actions).completedKilled[i]
  {
    RunKeepsInv(children, actions);
  }

  /**
   Once the token is set no further child is started, but for one whose start
   had passed the first check; that one never waits alive.
   */
  lemma AtMostOneRacingChild(children: nat, actions: seq<Action>)
    requires children > 0 && Run(children, actions).flag
    ensures var s := Run(children, actions);
      && s.started <= s.startedAtFlag + (if s.runnerAtFlag.Checked? then 1 else 0)
      && (s.started > s.startedAtFlag && (s.runner.Waiting? || s.runner.Polling? || s.runner.Reaped?)
          ==> !s.child.Alive?)
  {
    RunKeepsInv(children, actions);
  }

  /**
   A cancelled operation that does not fail ends `cancelled`, unless the flag
   was set only after the last check of its last child.
   */
  lemma EndsCancelledUnlessTooLate(children: nat, actions: seq<Action>)
    requires children > 0
    requires var s := Run(children, actions); s.flag && s.runner.Ended? && s.runner.ending != HasFailed
    ensures var s := Run(children, actions);
      s.runner.ending == WasCancelled <==> !((s.runnerAtFlag.Completed? && s.leftAtFlag == 0) || s.runnerAtFlag.Ended?)
  {
    RunKeepsInv(children, actions);
  }

  /** An operation that was never cancelled does not end `cancelled`. */
  lemma {:induction false} CancelledOnlyByCancel(children: nat, actions: seq<Action>)
    requires children > 0 && Run(children, actions).runner == Ended(WasCancelled)
    ensures Run(children, actions).flag
  {
    RunKeepsInv(children, actions);
  }

  /** However often `cancel` is called, it reports acceptance once. */
  lemma AcceptedOnce(children: nat, actions: seq<Action>)
    requires children > 0
    ensures Trues(Run(children, actions).reports) <= 1
  {
    RunKeepsInv(children, actions);
  }

  // ----- every race ends

  function Stage(c: State): nat {
    match c.runner
    case Begin => 13
    case Checked => 12
    case Spawned => 10
    case Installed => 9
    case Inspected(_) => 8
    case Waiting => 7
    case Polling => if c.child.Exited? then 6 else 7
    case Reaped => 5
    case Clearing => 4
    case Joined => 3
    case Completed => 2
    case Ended(_) => 0
  }

  /** How many steps are left at most, polls of a child that has not exited aside. */
  function Rank(c: State): nat {
    20 * c.left + Stage(c)
    + (if c.child.Alive? || c.child.Signalled? then 1 else 0)
    + (if c.canceller.Swapped? then 2 else if c.canceller.Locked? then 1 else 0)
  }

  /** A poll, or the lock for one, that finds the child still there. */
  predicate PollsInVain(c: State, a: Action) {
    (a.LockToPoll? || a.Poll?) && !c.child.Exited?
  }

  /** A step of the worker, the child, or a cancellation already begun. */
  predicate Progress(c: State, a: Action) {
    Enabled(c, a) && !a.Swap? && !PollsInVain(c, a)
  }

  lemma ProgressAdvances(c: State, a: Action)
    ensures if Progress(c, a) then Rank(Next(c, a)) < Rank(c)
            else Rank(Next(c, a)) <= Rank(c) + (if a.Swap? then 2 else 0)
  {
  }

  /** No deadlock: before its end a race can always make progress, be it only by the exit of its child. */
  lemma ProgressIsPossible(c: State)
    requires Inv(c) && !c.runner.Ended?
    ensures exists a :: Progress(c, a)
  {
    if !c.canceller.Idle? && c.canceller.Locked? {
      assert Progress(c, KillAndUnlock);
    } else {
      match c.runner
      case Begin => assert Progress(c, CheckFlag);
      case Checked => assert Progress(c, Spawn);
      case Spawned => assert Progress(c, Install);
      case Installed => assert Progress(c, Inspect);
      case Inspected(_) => assert Progress(c, UnlockInstalled);
      case Waiting => assert Progress(c, if c.child.Exited? then LockToPoll else ChildExits);
      case Polling => assert Progress(c, if c.child.Exited? then Poll else ChildExits);
      case Reaped => assert Progress(c, LockToClear);
      case Clearing => assert Progress(c, Clear);
      case Joined => assert Progress(c, CheckAgain);
      case Completed => assert Progress(c, Continue);
    }
  }

  function From(c: State, actions: seq<Action>): State
    decreases |actions|
  {
    if actions == [] then c else From(Next(c, actions[0]), actions[1..])
  }

  function ProgressMade(c: State, actions: seq<Action>): nat
    decreases |actions|
  {
    if actions == [] then 0
    else (if Progress(c, actions[0]) then 1 else 0) + ProgressMade(Next(c, actions[0]), actions[1..])
  }

  function Swaps(actions: seq<Action>): nat
    decreases |actions|
  {
    if actions == [] then 0 else (if actions[0].Swap? then 1 else 0) + Swaps(actions[1..])
  }

  /**
   From any reachable state a race makes at most as much progress as its rank
   and two steps more for each further cancellation; and it has ended, or can
   make more.
   */
  lemma {:induction false} RaceFinishes(c: State, actions: seq<Action>)
    requires Inv(c)
    ensures ProgressMade(c, actions) <= Rank(c) + 2 * Swaps(actions)
    ensures From(c, actions).runner.Ended? || exists a :: Progress(From(c, actions), a)
    decreases |actions|
  {
    if actions == [] {
      if !c.runner.Ended? { ProgressIsPossible(c); }
    } else {
      ProgressAdvances(c, actions[0]);
      NextKeepsInv(c, actions[0]);
      RaceFinishes(Next(c, actions[0]), actions[1..]);
    }
  }

  /**
   Once the token is set and the lock is free, a race that waits for nothing but
   its child waits for one that was killed.
   */
  lemma WaitsOnlyForKilled(c: State)
    requires Inv(c) && c.flag && c.lock.Free? && !c.runner.Ended?
    requires forall a :: Progress(c, a) ==> a.ChildExits?
    ensures c.child.Signalled?
  {
    ProgressIsPossible(c);
    assert Progress(c, LockToKill) || !c.canceller.Swapped?;
    assert !Progress(c, CheckFlag) && !Progress(c, Spawn) && !Progress(c, Install) && !Progress(c, LockToClear);
    assert !Progress(c, CheckAgain) && !Progress(c, Continue);
  }

  // ----- the two threads' own code

  /** What the other thread and the child may do to the slot between two accesses by the worker. */
  predicate MayBecome(before: Option<Child>, after: Option<Child>, flag: bool) {
    match before
    case None => after.None?
    case Some(b) =>
      && after.Some? && !after.value.NoChild?
      && (b.Exited? ==> after.value == b)
      && (WasKilled(b) ==> WasKilled(after.value))
      && (WasKilled(after.value) && !WasKilled(b) ==> flag)
  }

  function SlotOf(s: State): Option<Child> {
    if s.slot then Some(s.child) else None
  }

  /** Every step of the cancelling thread, and of the child, is such an interference. */
  lemma CancellerInterferes(s: State, a: Action)
    requires Inv(s) && (a.Swap? || a.LockToKill? || a.KillAndUnlock? || a.ChildExits?)
    ensures (s.flag ==> Next(s, a).flag) && MayBecome(SlotOf(s), SlotOf(Next(s, a)), Next(s, a).flag)
  {
  }

  datatype Outcome = Finished(status: Child) | Cancelled | Unavailable

  /** What the worker may do to the slot while a cancellation waits for the lock. */
  datatype Meanwhile = Nothing | Clears | Installs

  function LeftBy(worker: Meanwhile, child: Option<Child>): Option<Child> {
    match worker
    case Nothing => child
    case Clears => None
    case Installs => Some(Alive)
  }

  class CancellationToken {
    var cancelled: bool
    var child: Option<Child>
    /** How many children were started. */
    var started: nat

    constructor ()
      ensures !cancelled && child.None? && started == 0
    {
      cancelled, child, started := false, None, 0;
    }

    /**
     The swap, then the locked kill; the worker may clear the slot or install a
     child in between. The child found there, if any, is killed and stays in the slot.
     */
    method Cancel(worker: Meanwhile) returns (first: bool)
      modifies this`cancelled, this`child
      ensures first == !old(cancelled) && cancelled
      ensures var found := LeftBy(worker, old(child));
        if found == Some(Alive) then child == Some(Signalled) else child == found
    {
      first := !cancelled;
      cancelled := true;
      Worker(worker);
      if child.Some? {
        child := Some(Kill(child.value));
      }
    }

    /** What the worker does to the slot while a cancellation waits for the lock. */
    method Worker(worker: Meanwhile)
      modifies this`child
      ensures child == LeftBy(worker, old(child))
    {
      match worker {
        case Nothing =>
        case Clears => child := None;
        case Installs => child := Some(Alive);
      }
    }

    /** Anything the canceller and the child may do while the worker holds no lock. */
    method Others()
      requires child.Some? ==> !child.value.NoChild?
      modifies this`cancelled, this`child
      ensures old(cancelled) ==> cancelled
      ensures MayBecome(old(child), child, cancelled)
    {
      Flagging();
      var kills: bool, exits: bool := *, *;
      if child.Some? && cancelled && kills {
        child := Some(Kill(child.value));
      }
      if child.Some? && !child.value.Exited? && exits {
        child := Some(Exited(child.value.Signalled?));
      }
    }

    /** The flag may be set at any time, also while the worker holds the lock. */
    method Flagging()
      modifies this`cancelled
      ensures old(cancelled) ==> cancelled
    {
      if * {
        cancelled := true;
      }
    }

    /**
     One child, run to its end: `available` says whether it can be started, and
     it has exited after `polls` polls at the latest.
     */
    method RunCancellable(available: bool, polls: nat) returns (outcome: Outcome)
      requires child.None?
      modifies this
      ensures child.None?
      ensures old(cancelled) ==> cancelled && outcome.Cancelled?
      ensures outcome.Cancelled? ==> cancelled
      ensures outcome.Finished? ==> available && !cancelled && outcome.status == Exited(false)
      ensures outcome.Unavailable? ==> !available
      ensures started == old(started) || (started == old(started) + 1 && available && !old(cancelled))
      ensures outcome.Finished? ==> started == old(started) + 1
    {
      Others();
      if cancelled {
        return Cancelled;
      }
      Others();
      if !available {
        return Unavailable;
      }
      child, started := Some(Alive), started + 1;
      Flagging();
      if cancelled {
        child := Some(Kill(child.value));
      }
      var status := WaitForExit(polls);
      Others();
      if cancelled {
        return Cancelled;
      }
      return Finished(status);
    }

    method WaitForExit(polls: nat) returns (status: Child)
      requires child.Some? && !child.value.NoChild?
      requires WasKilled(child.value) ==> cancelled
      modifies this`cancelled, this`child
      ensures old(cancelled) ==> cancelled
      ensures child.None? && status.Exited? && (status.killed ==> cancelled)
      ensures old(child).value.Exited? ==> status == old(child).value
      ensures WasKilled(old(child).value) ==> status == Exited(true)
    {
      var left := polls;
      while true
        invariant child.Some? && !child.value.NoChild?
        invariant WasKilled(child.value) ==> cancelled
        invariant old(cancelled) ==> cancelled
        invariant old(child).value.Exited? ==> child == old(child)
        invariant WasKilled(old(child).value) ==> WasKilled(child.value)
        decreases left
      {
        Others();
        if left == 0 && !child.value.Exited? {
          child := Some(Exited(child.value.Signalled?));
        }
        status := child.value;
        if status.Exited? {
          Others();
          child := None;
          return;
        }
        left := left - 1;
      }
    }
  }
}
