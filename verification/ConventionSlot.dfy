/**
 The single slot of the convention reminder: an append-only session log, the
 surface of log entries the model sees, and the digest of the last injection.

 `Slot` and the functions on it are the specification; class `ReminderSlot`
 searches the log and appends to it, and is proved to do the same.
 */
module ConventionSlot {
  import opened Common

  /** The merged prompt context of a step; `prompt` is none when no scope has a convention. */
  datatype Context = Context(prompt: Option<string>, paths: seq<string>)

  /** How reminders are rendered and prompts digested; both are given. */
  datatype Rendering = Rendering(render: Context -> string, digest: string -> string)

  datatype LogEntry = UserMessage(own: bool, text: string) | OtherEntry

  /** `carried` is history: the context the slot on the surface renders, while there is one. */
  datatype Slot = Slot(
    log: seq<LogEntry>,
    surface: set<nat>,
    lastDigest: Option<string>,
    carried: Option<Context>)

  /** The outcome of the search for the slot: no own message, one that left the surface, or the slot. */
  datatype Search = NoOwn | Shadowed | Found(seq_: nat)

  function OwnEntry(e: LogEntry): bool {
    e.UserMessage? && e.own
  }

  function DigestOf(r: Rendering, c: Context): string {
    r.digest(if c.prompt.Some? then c.prompt.value else "")
  }

  /** Searches the log from its end: the latest own message decides. */
  function FindSlot(log: seq<LogEntry>, surface: set<nat>): Search {
    if log == [] then NoOwn
    else
      var last := |log| - 1;
      if !OwnEntry(log[last]) then FindSlot(log[..last], surface)
      else if last in surface then Found(last)
      else Shadowed
  }

  /**
   A step that received `c` from the bridge. `logged` says whether the host
   keeps a message the step hands back; a replacement is appended directly.
   */
  function Inject(r: Rendering, s: Slot, c: Context, logged: bool): Slot {
    if c.prompt.None? then s
    else if s.lastDigest == Some(DigestOf(r, c)) then s
    else
      var reminder := r.render(c);
      var found := FindSlot(s.log, s.surface);
      var digested := s.(lastDigest := Some(DigestOf(r, c)));
      if found.Found? then
        if found.seq_ < |s.log| && s.log[found.seq_] == UserMessage(true, reminder) then digested.(carried := Some(c))
        else
          digested.(log := s.log + [UserMessage(true, reminder)],
                    surface := s.surface - {found.seq_} + {|s.log|},
                    carried := Some(c))
      else if logged then
        digested.(log := s.log + [UserMessage(true, reminder)],
                  surface := s.surface + {|s.log|},
                  carried := Some(c))
      else digested
  }

  datatype Action =
    | Step(context: Context, logged: bool)
    | FailedStep
    | HostMessage(text: string)
    | HostEntry
    | Compact(removed: set<nat>)
    | Notice(text: string)

  function Next(r: Rendering, s: Slot, a: Action): Slot {
    match a
    case Step(c, logged) => Inject(r, s, c, logged)
    case FailedStep => s
    case HostMessage(text) => Append(s, UserMessage(false, text))
    case HostEntry => Append(s, OtherEntry)
    case Compact(removed) =>
      var kept := s.surface - removed;
      s.(surface := kept, carried := if FindSlot(s.log, kept).Found? then s.carried else None)
    case Notice(text) => Append(s, UserMessage(true, text))
  }

  function Append(s: Slot, e: LogEntry): Slot {
    s.(log := s.log + [e], surface := s.surface + {|s.log|})
  }

  /** The plugin's state for a session it has not seen, over the log and the surface it finds. */
  function Fresh(log: seq<LogEntry>, surface: set<nat>): Slot {
    Slot(log, surface, None, None)
  }

  function Run(r: Rendering, start: Slot, actions: seq<Action>): Slot {
    if actions == [] then start
    else Next(r, Run(r, start, actions[..|actions| - 1]), actions[|actions| - 1])
  }

  // ----- the slot object

  class ReminderSlot {
    const rendering: Rendering
    var log: seq<LogEntry>
    var surface: set<nat>
    var lastDigest: Option<string>
    ghost var carried: Option<Context>

    ghost function Abs(): Slot
      reads this
    {
      Slot(log, surface, lastDigest, carried)
    }

    constructor (rendering: Rendering, log: seq<LogEntry>, surface: set<nat>)
      ensures Abs() == Fresh(log, surface) && this.rendering == rendering
    {
      this.rendering, this.log, this.surface := rendering, log, surface;
      lastDigest, carried := None, None;
    }

    method FindConventionSlot() returns (found: Search)
      ensures found == FindSlot(log, surface)
    {
      var index: nat := |log|;
      assert log[..|log|] == log;
      while index > 0
        invariant index <= |log|
        invariant FindSlot(log, surface) == FindSlot(log[..index], surface)
      {
        index := index - 1;
        assert log[..index + 1][..index] == log[..index];
        if log[index].UserMessage? && log[index].own {
          return if index in surface then Found(index) else Shadowed;
        }
      }
      return NoOwn;
    }

    /** Replaces the slot in place, or hands back a message for the host to log. */
    method InjectContext(context: Context, logged: bool)
      modifies this
      ensures Abs() == Inject(rendering, old(Abs()), context, logged)
    {
      if context.prompt.None? {
        return;
      }
      var digest := rendering.digest(context.prompt.value);
      if lastDigest == Some(digest) {
        return;
      }
      var reminder := rendering.render(context);
      var found := FindConventionSlot();
      if found.Found? {
        FoundIsLatest(log, surface);
        if log[found.seq_] == UserMessage(true, reminder) {
          lastDigest := Some(digest);
          carried := Some(context);
          return;
        }
        surface := surface - {found.seq_} + {|log|};
        log := log + [UserMessage(true, reminder)];
        lastDigest := Some(digest);
        carried := Some(context);
        return;
      }
      lastDigest := Some(digest);
      if logged {
        surface := surface + {|log|};
        log := log + [UserMessage(true, reminder)];
        carried := Some(context);
      }
    }
  }

  // ----- properties

  /** The slot found is the latest own message. */
  lemma {:induction false} FoundIsLatest(log: seq<LogEntry>, surface: set<nat>)
    ensures match FindSlot(log, surface)
      case NoOwn => forall i :: 0 <= i < |log| ==> !OwnEntry(log[i])
      case Shadowed => exists k :: 0 <= k < |log| && OwnEntry(log[k]) && k !in surface
                                   && forall i :: k < i < |log| ==> !OwnEntry(log[i])
      case Found(k) => k < |log| && OwnEntry(log[k]) && k in surface
                       && forall i :: k < i < |log| ==> !OwnEntry(log[i])
  {
    if log != [] && !OwnEntry(log[|log| - 1]) {
      var init := log[..|log| - 1];
      FoundIsLatest(init, surface);
      assert forall i :: 0 <= i < |init| ==> init[i] == log[i];
    }
  }

  /** The own reminders on the surface. */
  ghost predicate Visible(s: Slot, i: nat) {
    i < |s.log| && i in s.surface && OwnEntry(s.log[i])
  }

  /** No own message on the surface is older than another own message of the log. */
  ghost predicate OnlyLatestVisible(s: Slot) {
    forall i: nat, j: nat :: Visible(s, i) && i < j < |s.log| ==> !OwnEntry(s.log[j])
  }

  /** A log and a surface a session may be resumed with: whatever own reminder is shown is the latest own message. */
  ghost predicate Resumable(s: Slot) {
    (forall i :: i in s.surface ==> i < |s.log|) && OnlyLatestVisible(s)
  }

  /**
   Once a digest is recorded, a reminder on the surface renders a context with
   that digest. Before, the surface may show a reminder of an earlier run.
   */
  ghost predicate Inv(r: Rendering, s: Slot) {
    && Resumable(s)
    && match s.carried
       case Some(c) => s.lastDigest == Some(DigestOf(r, c))
                       && exists i: nat :: Visible(s, i) && s.log[i].text == r.render(c)
       case None => s.lastDigest.Some? ==> forall i: nat :: !Visible(s, i)
  }

  lemma FindTellsVisible(s: Slot)
    requires Resumable(s)
    ensures match FindSlot(s.log, s.surface)
      case Found(k) => Visible(s, k) && forall i: nat :: Visible(s, i) ==> i == k
      case _ => forall i: nat :: !Visible(s, i)
  {
    FoundIsLatest(s.log, s.surface);
    var found := FindSlot(s.log, s.surface);
    if found.Found? { assert Visible(s, found.seq_); }
  }

  lemma StepKeepsInv(r: Rendering, s: Slot, c: Context, logged: bool)
    requires Inv(r, s)
    ensures Inv(r, Inject(r, s, c, logged))
  {
    FindTellsVisible(s);
    var t := Inject(r, s, c, logged);
    if t.log != s.log {
      assert forall i: nat :: Visible(t, i) && i != |s.log| ==> Visible(s, i);
      assert forall i: nat :: Visible(t, i) ==> i == |s.log|;
      assert Visible(t, |s.log|) && t.log[|s.log|].text == r.render(c);
    } else {
      assert forall i: nat :: Visible(t, i) <==> Visible(s, i);
      var found := FindSlot(s.log, s.surface);
      if found.Found? { assert Visible(t, found.seq_); }
    }
  }

  lemma HostKeepsInv(r: Rendering, s: Slot, a: Action)
    requires Inv(r, s) && !a.Step? && !a.Notice?
    ensures Inv(r, Next(r, s, a))
  {
    var t := Next(r, s, a);
    if a.Compact? {
      assert forall i: nat :: Visible(t, i) ==> Visible(s, i);
      FoundIsLatest(t.log, t.surface);
      FindTellsVisible(s);
      var found := FindSlot(t.log, t.surface);
      if found.Found? { assert Visible(t, found.seq_); }
    } else {
      assert forall i: nat :: Visible(t, i) <==> Visible(s, i);
    }
  }

  lemma {:induction false} RunKeepsInv(r: Rendering, start: Slot, actions: seq<Action>)
    requires Inv(r, start) && forall a :: a in actions ==> !a.Notice?
    ensures Inv(r, Run(r, start, actions))
  {
    if actions != [] {
      var last := actions[|actions| - 1];
      assert last in actions;
      RunKeepsInv(r, start, actions[..|actions| - 1]);
      var s := Run(r, start, actions[..|actions| - 1]);
      if last.Step? { StepKeepsInv(r, s, last.context, last.logged); } else { HostKeepsInv(r, s, last); }
    }
  }

  /**
   In every run without logged notices, of a new session or a resumed one, the
   own reminders on the surface are at most the latest own message.
   */
  lemma {:induction false} OneReminderAtMost(r: Rendering, log: seq<LogEntry>, surface: set<nat>, actions: seq<Action>,
                                             i: nat, j: nat)
    requires Resumable(Fresh(log, surface)) && forall a :: a in actions ==> !a.Notice?
    requires var s := Run(r, Fresh(log, surface), actions); Visible(s, i) && j < |s.log| && OwnEntry(s.log[j])
    ensures j <= i
    ensures Visible(Run(r, Fresh(log, surface), actions), j) ==> i == j
  {
    RunKeepsInv(r, Fresh(log, surface), actions);
    var s := Run(r, Fresh(log, surface), actions);
    assert Visible(s, i) && (Visible(s, j) || !Visible(s, j));
  }

  /** The surface shows one reminder, and it renders a context with this one's prompt digest. */
  ghost predicate ShowsCurrent(r: Rendering, s: Slot, c: Context) {
    exists i: nat, shown ::
      && Visible(s, i) && s.log[i].text == r.render(shown) && DigestOf(r, shown) == DigestOf(r, c)
      && forall j: nat :: Visible(s, j) ==> j == i
  }

  /**
   After a step that received conventions, the surface shows exactly one
   reminder with the current digest if and only if the slot was found on the
   surface, or the digest was new and the host logged the message.
   */
  lemma CurrentIffFoundOrLogged(r: Rendering, s: Slot, c: Context, logged: bool)
    requires Inv(r, s) && c.prompt.Some?
    ensures ShowsCurrent(r, Inject(r, s, c, logged), c)
      <==> FindSlot(s.log, s.surface).Found? || (s.lastDigest != Some(DigestOf(r, c)) && logged)
  {
    var t := Inject(r, s, c, logged);
    StepKeepsInv(r, s, c, logged);
    FindTellsVisible(s);
    FindTellsVisible(t);
    if t.carried.Some? {
      var i: nat :| Visible(t, i) && t.log[i].text == r.render(t.carried.value);
      assert Visible(t, i) && t.log[i].text == r.render(t.carried.value);
    }
  }

  /**
   The same for every run without logged notices, from any log and surface a
   session may be resumed with: the digest alone decides whether a slot that
   left the surface comes back.
   */
  lemma {:induction false} StepShowsCurrent(r: Rendering, log: seq<LogEntry>, surface: set<nat>, actions: seq<Action>,
                                            c: Context, logged: bool)
    requires Resumable(Fresh(log, surface)) && c.prompt.Some? && forall a :: a in actions ==> !a.Notice?
    ensures var s := Run(r, Fresh(log, surface), actions);
      ShowsCurrent(r, Run(r, Fresh(log, surface), actions + [Step(c, logged)]), c)
      <==> FindSlot(s.log, s.surface).Found? || (s.lastDigest != Some(DigestOf(r, c)) && logged)
  {
    RunKeepsInv(r, Fresh(log, surface), actions);
    assert (actions + [Step(c, logged)])[..|actions|] == actions;
    CurrentIffFoundOrLogged(r, Run(r, Fresh(log, surface), actions), c, logged);
  }

  /** A step that received no conventions leaves whatever reminder is on the surface, of this run or an earlier one. */
  lemma EmptyContextKeepsReminder(r: Rendering, s: Slot, c: Context, logged: bool)
    requires Resumable(s) && c.prompt.None?
    ensures (exists i: nat :: Visible(Inject(r, s, c, logged), i)) <==> FindSlot(s.log, s.surface).Found?
  {
    FindTellsVisible(s);
    assert Inject(r, s, c, logged) == s;
    var found := FindSlot(s.log, s.surface);
    if found.Found? { assert Visible(s, found.seq_); }
  }

  /** Repeating a step that received conventions writes nothing, whatever the host does with the first. */
  lemma RepeatWritesNothing(r: Rendering, s: Slot, c: Context, logged: bool, again: bool)
    requires c.prompt.Some?
    ensures var t := Inject(r, s, c, logged); Inject(r, t, c, again) == t
  {
  }

  /** Entry `i` of the log is an own message with this text. */
  predicate Reads(log: seq<LogEntry>, i: nat, text: string) {
    i < |log| && log[i] == UserMessage(true, text)
  }

  /**
   A step writes if and only if it received conventions with a new digest and
   either finds a slot that reads otherwise or, finding none, is logged by the
   host; and it records the digest whenever it received conventions.
   */
  lemma StepWritesIff(r: Rendering, s: Slot, c: Context, logged: bool)
    ensures var t, found := Inject(r, s, c, logged), FindSlot(s.log, s.surface);
      && (t.log != s.log <==>
            && c.prompt.Some? && s.lastDigest != Some(DigestOf(r, c))
            && if found.Found? then !Reads(s.log, found.seq_, r.render(c)) else logged)
      && (t.log != s.log ==> t.log == s.log + [UserMessage(true, r.render(c))])
      && t.lastDigest == if c.prompt.Some? then Some(r.digest(c.prompt.value)) else s.lastDigest
  {
  }

  /**
   A notice logged as an own user message keeps the surface to its latest own
   message exactly when no slot was on it.
   */
  lemma NoticeBreaksSlot(r: Rendering, s: Slot, text: string)
    requires Resumable(s)
    ensures OnlyLatestVisible(Next(r, s, Notice(text))) <==> !FindSlot(s.log, s.surface).Found?
  {
    FindTellsVisible(s);
    var t := Next(r, s, Notice(text));
    assert forall i: nat :: i < |s.log| ==> (Visible(t, i) <==> Visible(s, i));
    var found := FindSlot(s.log, s.surface);
    if found.Found? {
      assert Visible(t, found.seq_) && found.seq_ < |s.log| < |t.log| && OwnEntry(t.log[|s.log|]);
    }
  }

  // ----- what stays

  /** The surface holds entries of the log only. */
  ghost predicate InLog(s: Slot) {
    forall i :: i in s.surface ==> i < |s.log|
  }

  /** Whether an action is a compaction that takes entry `i` off the surface. */
  predicate Removes(a: Action, i: nat) {
    a.Compact? && i in a.removed
  }

  /**
   An action never rewrites the log and adds at most one entry to it. Of the
   surface it takes off own messages only, a compaction aside, and puts on it
   nothing but the entry it adds.
   */
  lemma OthersStay(r: Rendering, s: Slot, a: Action)
    requires InLog(s)
    ensures var t := Next(r, s, a);
      && InLog(t) && s.log <= t.log && |t.log| <= |s.log| + 1
      && (forall i :: i in s.surface && !OwnEntry(s.log[i]) && !Removes(a, i) ==> i in t.surface)
      && (forall i :: i in t.surface ==> i in s.surface || (i == |s.log| && i < |t.log|))
      && (forall i :: i in s.surface && a.Compact? ==> (i in t.surface <==> i !in a.removed))
  {
    if a.Step? { FoundIsLatest(s.log, s.surface); }
  }

  lemma {:induction false} EntryStays(r: Rendering, s: Slot, later: seq<Action>, i: nat)
    requires InLog(s) && i in s.surface && !OwnEntry(s.log[i])
    requires forall a :: a in later ==> !Removes(a, i)
    ensures var t := Run(r, s, later); InLog(t) && s.log <= t.log && i in t.surface
  {
    if later != [] {
      var init, last := later[..|later| - 1], later[|later| - 1];
      assert last in later;
      EntryStays(r, s, init, i);
      OthersStay(r, Run(r, s, init), last);
    }
  }

  lemma {:induction false} RunStaysInLog(r: Rendering, start: Slot, actions: seq<Action>)
    requires InLog(start)
    ensures InLog(Run(r, start, actions))
  {
    if actions != [] {
      RunStaysInLog(r, start, actions[..|actions| - 1]);
      OthersStay(r, Run(r, start, actions[..|actions| - 1]), actions[|actions| - 1]);
    }
  }

  lemma {:induction false} RunConcat(r: Rendering, start: Slot, a: seq<Action>, b: seq<Action>)
    ensures Run(r, start, a + b) == Run(r, Run(r, start, a), b)
  {
    if b == [] {
      assert a + b == a;
    } else {
      RunConcat(r, start, a, b[..|b| - 1]);
      assert (a + b)[..|a + b| - 1] == a + b[..|b| - 1];
    }
  }

  /**
   In every run, whatever the host logs, a user's message or any other entry, is
   on the surface as it was logged until a compaction takes it off: replacing the
   reminder touches nothing else.
   */
  lemma {:induction false} HostEntriesStay(r: Rendering, log: seq<LogEntry>, surface: set<nat>,
                                           earlier: seq<Action>, entry: Action, later: seq<Action>)
    requires InLog(Fresh(log, surface)) && (entry.HostMessage? || entry.HostEntry?)
    requires var at := |Run(r, Fresh(log, surface), earlier).log|; forall a :: a in later ==> !Removes(a, at)
    ensures var at := |Run(r, Fresh(log, surface), earlier).log|;
      var t := Run(r, Fresh(log, surface), earlier + [entry] + later);
      && at < |t.log| && at in t.surface
      && t.log[at] == if entry.HostMessage? then UserMessage(false, entry.text) else OtherEntry
  {
    var start := Fresh(log, surface);
    var s := Run(r, start, earlier);
    RunStaysInLog(r, start, earlier);
    assert (earlier + [entry])[..|earlier|] == earlier;
    RunConcat(r, start, earlier + [entry], later);
    EntryStays(r, Run(r, start, earlier + [entry]), later, |s.log|);
  }

  // ----- runs in which it fails

  lemma RunThree(r: Rendering, start: Slot, a: Action, b: Action, c: Action)
    ensures Run(r, start, [a, b]) == Next(r, Next(r, start, a), b)
    ensures Run(r, start, [a, b, c]) == Next(r, Next(r, Next(r, start, a), b), c)
  {
    assert [a][..0] == [] && [a, b][..1] == [a] && [a, b, c][..2] == [a, b];
    assert Run(r, start, [a]) == Next(r, start, a);
  }

  /**
   A new session whose reminder is compacted away: the next step received the
   same conventions, and the surface shows none of them.
   */
  lemma {:induction false} CompactedStaysAway(r: Rendering, c: Context)
    requires c.prompt.Some?
    ensures var s := Run(r, Fresh([], {}), [Step(c, true), Compact({0}), Step(c, true)]);
      !ShowsCurrent(r, s, c) && forall i: nat :: !Visible(s, i)
  {
    RunThree(r, Fresh([], {}), Step(c, true), Compact({0}), Step(c, true));
    var s1 := Next(r, Fresh([], {}), Step(c, true));
    assert s1 == Slot([UserMessage(true, r.render(c))], {0}, Some(DigestOf(r, c)), Some(c));
    var s2 := Next(r, s1, Compact({0}));
    assert s2.surface == {} && s2.lastDigest == Some(DigestOf(r, c));
    assert Next(r, s2, Step(c, true)) == s2;
  }

  /**
   A resumed session whose conventions are gone: the reminder of the earlier run
   is still shown after any number of steps that receive none.
   */
  lemma {:induction false} ResumedReminderStays(r: Rendering, stale: string, c: Context, steps: nat)
    requires c.prompt.None?
    ensures var start := Fresh([UserMessage(true, stale)], {0});
      Resumable(start) && Run(r, start, seq(steps, _ => Step(c, true))) == start && Visible(start, 0)
  {
    if steps > 0 {
      ResumedReminderStays(r, stale, c, steps - 1);
      assert seq(steps, _ => Step(c, true))[..steps - 1] == seq(steps - 1, _ => Step(c, true));
    }
  }

  /** A new session in which a notice is logged beside the reminder: the surface shows two own messages. */
  lemma {:induction false} NoticeShowsTwo(r: Rendering, c: Context, text: string)
    requires c.prompt.Some?
    ensures var s := Run(r, Fresh([], {}), [Step(c, true), Notice(text)]);
      Visible(s, 0) && Visible(s, 1) && !OnlyLatestVisible(s)
  {
    RunThree(r, Fresh([], {}), Step(c, true), Notice(text), FailedStep);
    var s1 := Next(r, Fresh([], {}), Step(c, true));
    assert s1 == Slot([UserMessage(true, r.render(c))], {0}, Some(DigestOf(r, c)), Some(c));
    var s := Next(r, s1, Notice(text));
    assert Visible(s, 0) && Visible(s, 1) && OwnEntry(s.log[1]);
  }
}
