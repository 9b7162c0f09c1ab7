/**
 The layout snapshot of each session, served to assemblies by agent object.

 Session states are heap objects reached through two maps, by session and by
 agent: what is served for an agent depends on the two maps agreeing. `Snap` and
 the functions on it say what one session's state becomes, action by action.
 */
module LayoutIndex {
  import opened Common

  type Agent = nat
  type SessionId = nat

  /**
   What happens to the plugin: an agent shows up; a step of its session asks for
   the map if it is due; the answer lands, or the request fails; a `.norm` file
   is edited. A step keeps the state it found when it began, so an answer lands in
   that state whatever agent object has taken the session over meanwhile.
   */
  datatype Action =
    | Seen(agent: Agent)
    | Asks(agent: Agent)
    | Lands(agent: Agent, prompt: Option<string>)
    | Fails(agent: Agent)
    | NormEdited(agent: Agent)

  // ----- specification

  /**
   One session's map: the agent object it is keyed by, whether it must be fetched
   again, its text, and how many requests for it are under way.
   */
  datatype Snap = Snap(agent: Option<Agent>, stale: bool, text: Option<string>, asked: nat)

  const NEW_SNAP := Snap(None, false, None, 0)

  function TextOf(prompt: Option<string>): string {
    if prompt.Some? then prompt.value else ""
  }

  function KeyedBy(s: Snap, agent: Agent): Snap {
    s.(agent := Some(agent), stale := s.stale || (s.agent.Some? && s.agent.value != agent))
  }

  /** The text returned replaces the stored one only when its digest differs. */
  function Stored(digest: string -> string, old_: Option<string>, text: string): Option<string> {
    if old_.Some? && digest(old_.value) == digest(text) then old_ else Some(text)
  }

  /** Whether a step of the session asks for the map again. */
  predicate Due(s: Snap) {
    s.stale || s.text.None?
  }

  /** What an action makes of session `id`. */
  function Step(digest: string -> string, sessionOf: Agent -> SessionId, id: SessionId, s: Snap, a: Action): Snap {
    if sessionOf(a.agent) != id then s
    else
      match a
      case Seen(agent) => KeyedBy(s, agent)
      case NormEdited(agent) => KeyedBy(s, agent).(stale := true)
      case Asks(_) => if s.agent.Some? && Due(s) then s.(asked := s.asked + 1) else s
      case Lands(_, prompt) =>
        if s.asked == 0 then s
        else s.(asked := s.asked - 1, stale := false, text := Stored(digest, s.text, TextOf(prompt)))
      case Fails(_) => if s.asked == 0 then s else s.(asked := s.asked - 1)
  }

  function After(digest: string -> string, sessionOf: Agent -> SessionId, id: SessionId, start: Snap,
                 actions: seq<Action>): Snap
  {
    if actions == [] then start
    else
      var before := After(digest, sessionOf, id, start, actions[..|actions| - 1]);
      Step(digest, sessionOf, id, before, actions[|actions| - 1])
  }

  /** The agent objects the plugin has looked up. */
  function Agents(actions: seq<Action>): set<Agent> {
    if actions == [] then {}
    else
      var last := actions[|actions| - 1];
      Agents(actions[..|actions| - 1]) + if last.Seen? || last.NormEdited? then {last.agent} else {}
  }

  /** The text served for a scope after these actions on a new plugin. */
  function Shown(digest: string -> string, sessionOf: Agent -> SessionId, actions: seq<Action>, scope: Option<Agent>)
    : string
  {
    if scope.None? || scope.value !in Agents(actions) then ""
    else TextOf(After(digest, sessionOf, sessionOf(scope.value), NEW_SNAP, actions).text)
  }

  // ----- the plugin's objects

  class SessionState {
    var scopeAgent: Agent
    var layoutDigest: Option<string>
    var layoutStale: bool
    var layout: Option<string>
    /** The steps suspended on a request for the map. */
    var refreshing: nat

    constructor (agent: Agent)
      ensures scopeAgent == agent && layoutDigest.None? && !layoutStale && layout.None? && refreshing == 0
    {
      scopeAgent, layoutDigest, layoutStale, layout, refreshing := agent, None, false, None, 0;
    }
  }

  class Plugin {
    const digest: string -> string
    /** The session each agent object belongs to, for good. */
    const sessionOf: Agent -> SessionId
    var sessions: map<SessionId, SessionState>
    var stateByScopeAgent: map<Agent, SessionState>

    ghost function Repr(): set<object>
      reads this
    {
      set s | s in sessions :: sessions[s]
    }

    /** A recorded digest is the digest of the stored text. */
    ghost predicate SnapshotFits(id: SessionId)
      requires id in sessions
      reads this, sessions[id]
    {
      var s := sessions[id];
      && (s.layoutDigest.Some? <==> s.layout.Some?)
      && (s.layout.Some? ==> s.layoutDigest.value == digest(s.layout.value))
    }

    ghost predicate Valid()
      reads this, Repr()
    {
      && (forall i, j :: i in sessions && j in sessions && i != j ==> sessions[i] != sessions[j])
      && (forall i :: i in sessions ==> SnapshotFits(i))
      && (forall a :: a in stateByScopeAgent ==>
            sessionOf(a) in sessions && stateByScopeAgent[a] == sessions[sessionOf(a)])
    }

    ghost function Snapshot(id: SessionId): Snap
      reads this, Repr()
    {
      if id in sessions then
        var s := sessions[id];
        Snap(Some(s.scopeAgent), s.layoutStale, s.layout, s.refreshing)
      else NEW_SNAP
    }

    constructor (digest: string -> string, sessionOf: Agent -> SessionId)
      ensures Valid() && sessions == map[] && stateByScopeAgent == map[]
      ensures this.digest == digest && this.sessionOf == sessionOf
    {
      this.digest, this.sessionOf := digest, sessionOf;
      sessions, stateByScopeAgent := map[], map[];
    }

    /** Makes the state of a session seen for the first time. */
    method CreateState(agent: Agent) returns (state: SessionState)
      requires Valid() && sessionOf(agent) !in sessions
      modifies this`sessions
      ensures Valid() && fresh(state) && sessions == old(sessions)[sessionOf(agent) := state]
      ensures forall id :: id != sessionOf(agent) ==> Snapshot(id) == old(Snapshot(id))
      ensures Snapshot(sessionOf(agent)) == KeyedBy(NEW_SNAP, agent)
    {
      state := new SessionState(agent);
      sessions := sessions[sessionOf(agent) := state];
    }

    /** A fresh agent object on a resident session: the map is fetched again. */
    method Rekey(state: SessionState, agent: Agent)
      requires Valid() && sessionOf(agent) in sessions && state == sessions[sessionOf(agent)]
      modifies state`scopeAgent, state`layoutStale
      ensures Valid()
      ensures forall id :: id != sessionOf(agent) ==> Snapshot(id) == old(Snapshot(id))
      ensures Snapshot(sessionOf(agent)) == KeyedBy(old(Snapshot(sessionOf(agent))), agent)
    {
      if state.scopeAgent != agent {
        state.scopeAgent := agent;
        state.layoutStale := true;
      }
    }

    method FindOrCreate(agent: Agent) returns (state: SessionState)
      requires Valid()
      modifies this`sessions, Repr()
      ensures Valid() && fresh(Repr() - old(Repr()))
      ensures sessionOf(agent) in sessions && state == sessions[sessionOf(agent)]
      ensures forall id :: Snapshot(id) == Step(digest, sessionOf, id, old(Snapshot(id)), Seen(agent))
    {
      if sessionOf(agent) !in sessions {
        state := CreateState(agent);
      } else {
        state := sessions[sessionOf(agent)];
        Rekey(state, agent);
      }
    }

    /** Finds or makes the state of the agent's session, and keys it by this agent. */
    method StateFor(agent: Agent) returns (state: SessionState)
      requires Valid()
      modifies this, Repr()
      ensures Valid() && fresh(Repr() - old(Repr()))
      ensures stateByScopeAgent.Keys == old(stateByScopeAgent.Keys) + {agent}
      ensures state == stateByScopeAgent[agent] == sessions[sessionOf(agent)]
      ensures forall id :: Snapshot(id) == Step(digest, sessionOf, id, old(Snapshot(id)), Seen(agent))
    {
      state := FindOrCreate(agent);
      stateByScopeAgent := stateByScopeAgent[agent := state];
    }

    /** The check at the head of a refresh; a request is under way when it says so. */
    method AskForMap(state: SessionState, ghost id: SessionId)
      requires Valid() && id in sessions && sessions[id] == state
      modifies state`refreshing
      ensures Valid()
      ensures forall i :: i != id ==> Snapshot(i) == old(Snapshot(i))
      ensures var s := old(Snapshot(id)); Snapshot(id) == if Due(s) then s.(asked := s.asked + 1) else s
    {
      assert SnapshotFits(id);
      if !state.layoutStale && state.layoutDigest.Some? {
        return;
      }
      state.refreshing := state.refreshing + 1;
    }

    /** Stores the map returned, unless its digest is the recorded one. */
    method MapReturned(state: SessionState, ghost id: SessionId, prompt: Option<string>)
      requires Valid() && id in sessions && sessions[id] == state && state.refreshing > 0
      modifies state
      ensures Valid()
      ensures forall i :: i != id ==> Snapshot(i) == old(Snapshot(i))
      ensures var s := old(Snapshot(id));
        Snapshot(id) == s.(asked := s.asked - 1, stale := false, text := Stored(digest, s.text, TextOf(prompt)))
    {
      assert SnapshotFits(id);
      state.refreshing := state.refreshing - 1;
      var new' := digest(TextOf(prompt));
      var changed := state.layoutDigest != Some(new');
      state.layoutDigest := Some(new');
      state.layoutStale := false;
      if !changed {
        return;
      }
      state.layout := Some(TextOf(prompt));
    }

    /** The provider: total, and empty for an unknown scope. */
    method ServeText(scope: Option<Agent>) returns (text: string)
      requires Valid()
      ensures text == if scope.None? || scope.value !in stateByScopeAgent then ""
                      else TextOf(Snapshot(sessionOf(scope.value)).text)
    {
      if scope.None? || scope.value !in stateByScopeAgent {
        return "";
      }
      var state := stateByScopeAgent[scope.value];
      text := if state.layout.Some? then state.layout.value else "";
    }

    /** A suspended step goes on in the state it began with. */
    method Resume(action: Action)
      requires Valid() && (action.Asks? || action.Lands? || action.Fails?)
      modifies Repr()
      ensures Valid()
      ensures forall id :: Snapshot(id) == Step(digest, sessionOf, id, old(Snapshot(id)), action)
    {
      var id := sessionOf(action.agent);
      if id !in sessions {
        return;
      }
      var state := sessions[id];
      if action.Asks? {
        AskForMap(state, id);
      } else if state.refreshing > 0 {
        if action.Lands? {
          MapReturned(state, id, action.prompt);
        } else {
          state.refreshing := state.refreshing - 1;
        }
      }
    }

    /** One action of the plugin: the session it belongs to makes its step, and no other moves. */
    method Perform(action: Action)
      requires Valid()
      modifies this, Repr()
      ensures Valid() && fresh(Repr() - old(Repr()))
      ensures stateByScopeAgent.Keys == old(stateByScopeAgent.Keys) + Agents([action])
      ensures forall id :: Snapshot(id) == Step(digest, sessionOf, id, old(Snapshot(id)), action)
    {
      assert [action][..0] == [];
      if action.Seen? || action.NormEdited? {
        var state := StateFor(action.agent);
        if action.NormEdited? {
          state.layoutStale := true;
        }
      } else {
        Resume(action);
      }
    }

    /** Any interleaving of sessions and of agents replaced in them. */
    method PerformAll(actions: seq<Action>)
      requires Valid()
      modifies this, Repr()
      ensures Valid() && fresh(Repr() - old(Repr()))
      ensures stateByScopeAgent.Keys == old(stateByScopeAgent.Keys) + Agents(actions)
      ensures forall id :: Snapshot(id) == After(digest, sessionOf, id, old(Snapshot(id)), actions)
    {
      assert actions[..0] == [];
      for k := 0 to |actions|
        invariant Valid() && fresh(Repr() - old(Repr()))
        invariant stateByScopeAgent.Keys == old(stateByScopeAgent.Keys) + Agents(actions[..k])
        invariant forall id :: Snapshot(id) == After(digest, sessionOf, id, old(Snapshot(id)), actions[..k])
      {
        assert actions[..k + 1][..k] == actions[..k];
        assert [actions[k]][..0] == [];
        Perform(actions[k]);
      }
      assert actions[..|actions|] == actions;
    }
  }

  /** What a new plugin serves after any interleaving. */
  method ServeAfter(digest: string -> string, sessionOf: Agent -> SessionId, actions: seq<Action>, scope: Option<Agent>)
    returns (text: string)
    ensures text == Shown(digest, sessionOf, actions, scope)
  {
    var plugin := new Plugin(digest, sessionOf);
    plugin.PerformAll(actions);
    text := plugin.ServeText(scope);
  }

  // ----- properties

  /** A refresh of this session returned this text. */
  predicate Returned(sessionOf: Agent -> SessionId, id: SessionId, a: Action, text: string) {
    a.Lands? && sessionOf(a.agent) == id && TextOf(a.prompt) == text
  }

  /** An answer to this session carried this very text. */
  predicate Answers(sessionOf: Agent -> SessionId, id: SessionId, a: Action, text: string) {
    a.Lands? && sessionOf(a.agent) == id && a.prompt == Some(text)
  }

  lemma {:induction false} StoredWasReturned(digest: string -> string, sessionOf: Agent -> SessionId, id: SessionId,
                                             actions: seq<Action>) returns (i: nat)
    requires After(digest, sessionOf, id, NEW_SNAP, actions).text.Some?
    ensures i < |actions|
    ensures Returned(sessionOf, id, actions[i], After(digest, sessionOf, id, NEW_SNAP, actions).text.value)
  {
    assert actions != [];
    var init, last := actions[..|actions| - 1], actions[|actions| - 1];
    var before := After(digest, sessionOf, id, NEW_SNAP, init);
    if After(digest, sessionOf, id, NEW_SNAP, actions).text == before.text {
      i := StoredWasReturned(digest, sessionOf, id, init);
    } else {
      i := |actions| - 1;
    }
  }

  /**
   For every interleaving of sessions and of agent objects replaced in them, the
   text served for an agent is empty or was returned for that agent's own session.
   */
  lemma {:induction false} ServedIsOwn(digest: string -> string, sessionOf: Agent -> SessionId, actions: seq<Action>,
                                       agent: Agent)
    ensures var text := Shown(digest, sessionOf, actions, Some(agent));
      text == "" || exists i :: 0 <= i < |actions| && Answers(sessionOf, sessionOf(agent), actions[i], text)
  {
    if Shown(digest, sessionOf, actions, Some(agent)) != "" {
      var i := StoredWasReturned(digest, sessionOf, sessionOf(agent), actions);
      assert Answers(sessionOf, sessionOf(agent), actions[i], Shown(digest, sessionOf, actions, Some(agent)));
    }
  }

  /** The actions that belong to a session. */
  function Own(sessionOf: Agent -> SessionId, id: SessionId, actions: seq<Action>): seq<Action> {
    if actions == [] then []
    else
      var last := actions[|actions| - 1];
      Own(sessionOf, id, actions[..|actions| - 1]) + if sessionOf(last.agent) == id then [last] else []
  }

  /** Other sessions never matter: what becomes of a session is what its own actions make of it. */
  lemma {:induction false} OthersDoNotMatter(digest: string -> string, sessionOf: Agent -> SessionId, id: SessionId,
                                             start: Snap, actions: seq<Action>)
    ensures After(digest, sessionOf, id, start, actions)
         == After(digest, sessionOf, id, start, Own(sessionOf, id, actions))
  {
    if actions != [] {
      var init, last := actions[..|actions| - 1], actions[|actions| - 1];
      OthersDoNotMatter(digest, sessionOf, id, start, init);
      var own := Own(sessionOf, id, init);
      if sessionOf(last.agent) == id {
        assert (own + [last])[..|own|] == own;
      } else {
        assert own + [] == own;
      }
    }
  }

  // ----- when the map is asked for again

  /** The agent object a session was last looked up by. */
  function KeyedLast(sessionOf: Agent -> SessionId, id: SessionId, actions: seq<Action>): Option<Agent> {
    if actions == [] then None
    else
      var last := actions[|actions| - 1];
      if (last.Seen? || last.NormEdited?) && sessionOf(last.agent) == id then Some(last.agent)
      else KeyedLast(sessionOf, id, actions[..|actions| - 1])
  }

  /** An edit of the session, or another agent object than `key` looking it up. */
  predicate Marks(sessionOf: Agent -> SessionId, id: SessionId, key: Option<Agent>, a: Action) {
    sessionOf(a.agent) == id && (a.NormEdited? || (a.Seen? && Some(a.agent) != key))
  }

  /** An answer of the session that finds a request under way. */
  predicate Takes(sessionOf: Agent -> SessionId, id: SessionId, s: Snap, a: Action) {
    a.Lands? && sessionOf(a.agent) == id && s.asked > 0
  }

  /** No answer is taken from `start` on. */
  predicate NoneTaken(digest: string -> string, sessionOf: Agent -> SessionId, id: SessionId, start: Snap,
                      actions: seq<Action>)
  {
    actions == []
    || (var init, last := actions[..|actions| - 1], actions[|actions| - 1];
        && NoneTaken(digest, sessionOf, id, start, init)
        && !Takes(sessionOf, id, After(digest, sessionOf, id, start, init), last))
  }

  lemma {:induction false} KeyIsKeyedLast(digest: string -> string, sessionOf: Agent -> SessionId, id: SessionId,
                                          actions: seq<Action>)
    ensures After(digest, sessionOf, id, NEW_SNAP, actions).agent == KeyedLast(sessionOf, id, actions)
    ensures After(digest, sessionOf, id, NEW_SNAP, actions).agent.None? ==>
      After(digest, sessionOf, id, NEW_SNAP, actions) == NEW_SNAP
  {
    if actions != [] {
      KeyIsKeyedLast(digest, sessionOf, id, actions[..|actions| - 1]);
    }
  }

  lemma {:induction false} SinceTaken(digest: string -> string, sessionOf: Agent -> SessionId, id: SessionId,
                                      taken: Snap, later: seq<Action>)
    requires taken.agent.Some? && !taken.stale && taken.text.Some?
    requires NoneTaken(digest, sessionOf, id, taken, later)
    ensures var s := After(digest, sessionOf, id, taken, later);
      && s.text == taken.text && s.agent.Some?
      && (s.stale <==> exists a :: a in later && Marks(sessionOf, id, taken.agent, a))
      && (!s.stale ==> s.agent == taken.agent)
  {
    if later != [] {
      var init, last := later[..|later| - 1], later[|later| - 1];
      assert last in later && later == init + [last];
      SinceTaken(digest, sessionOf, id, taken, init);
      if a :| a in init && Marks(sessionOf, id, taken.agent, a) { assert a in later; }
      if a :| a in later && Marks(sessionOf, id, taken.agent, a) { assert a in init || a == last; }
    }
  }

  lemma {:induction false} AfterConcat(digest: string -> string, sessionOf: Agent -> SessionId, id: SessionId,
                                       start: Snap, a: seq<Action>, b: seq<Action>)
    ensures After(digest, sessionOf, id, start, a + b)
         == After(digest, sessionOf, id, After(digest, sessionOf, id, start, a), b)
  {
    if b == [] {
      assert a + b == a;
    } else {
      AfterConcat(digest, sessionOf, id, start, a, b[..|b| - 1]);
      assert (a + b)[..|a + b| - 1] == a + b[..|b| - 1];
    }
  }

  /**
   The last answer taken decides what a session is served: a text with the digest
   of the one returned. And the map is asked for again exactly when, since that
   answer, the session was edited or looked up by an agent object other than the
   one it was keyed by then.
   */
  lemma {:induction false} LastAnswerDecides(digest: string -> string, sessionOf: Agent -> SessionId, answer: Action,
                                             earlier: seq<Action>, later: seq<Action>)
    requires var id := sessionOf(answer.agent);
      && Takes(sessionOf, id, After(digest, sessionOf, id, NEW_SNAP, earlier), answer)
      && NoneTaken(digest, sessionOf, id, After(digest, sessionOf, id, NEW_SNAP, earlier + [answer]), later)
    ensures var id := sessionOf(answer.agent);
      var s := After(digest, sessionOf, id, NEW_SNAP, earlier + [answer] + later);
      && s.text.Some?
      && digest(s.text.value) == digest(if answer.prompt.Some? then answer.prompt.value else "")
      && (Due(s) <==> exists a :: a in later && Marks(sessionOf, id, KeyedLast(sessionOf, id, earlier), a))
  {
    var id, upTo := sessionOf(answer.agent), earlier + [answer];
    AfterConcat(digest, sessionOf, id, NEW_SNAP, upTo, later);
    assert upTo[..|earlier|] == earlier;
    KeyIsKeyedLast(digest, sessionOf, id, earlier);
    SinceTaken(digest, sessionOf, id, After(digest, sessionOf, id, NEW_SNAP, upTo), later);
  }

  /** The last answer taken is what every agent object of the session is served, up to what the digest tells apart. */
  lemma {:induction false} ServedIsLastAnswer(digest: string -> string, sessionOf: Agent -> SessionId, answer: Action,
                                              earlier: seq<Action>, later: seq<Action>, agent: Agent)
    requires sessionOf(agent) == sessionOf(answer.agent) && agent in Agents(earlier + [answer] + later)
    requires var id := sessionOf(answer.agent);
      && Takes(sessionOf, id, After(digest, sessionOf, id, NEW_SNAP, earlier), answer)
      && NoneTaken(digest, sessionOf, id, After(digest, sessionOf, id, NEW_SNAP, earlier + [answer]), later)
    ensures var text := Shown(digest, sessionOf, earlier + [answer] + later, Some(agent));
      digest(text) == digest(if answer.prompt.Some? then answer.prompt.value else "")
  {
    LastAnswerDecides(digest, sessionOf, answer, earlier, later);
  }

  /** Until an answer is taken a session is served nothing, and its map is asked for. */
  lemma {:induction false} NothingBeforeAnswer(digest: string -> string, sessionOf: Agent -> SessionId, id: SessionId,
                                               actions: seq<Action>)
    requires NoneTaken(digest, sessionOf, id, NEW_SNAP, actions)
    ensures var s := After(digest, sessionOf, id, NEW_SNAP, actions); s.text.None? && Due(s)
  {
    if actions != [] {
      NothingBeforeAnswer(digest, sessionOf, id, actions[..|actions| - 1]);
    }
  }

  lemma {:induction false} SinceEdit(digest: string -> string, sessionOf: Agent -> SessionId, edited: Snap,
                                     agent: Agent, later: seq<Action>)
    requires edited.agent == Some(agent) && edited.stale
    requires forall a :: a in later ==> !Marks(sessionOf, sessionOf(agent), Some(agent), a)
    ensures var s := After(digest, sessionOf, sessionOf(agent), edited, later);
      s.agent == Some(agent)
      && if NoneTaken(digest, sessionOf, sessionOf(agent), edited, later) then s.stale else !s.stale && s.text.Some?
  {
    if later != [] {
      assert !Marks(sessionOf, sessionOf(agent), Some(agent), later[|later| - 1]);
      SinceEdit(digest, sessionOf, edited, agent, later[..|later| - 1]);
    }
  }

  /**
   An edit is meant to refresh the map on the next step. It does so if and only
   if no answer is taken after it, also not to a request made before it.
   */
  lemma {:induction false} EditIsHeededIff(digest: string -> string, sessionOf: Agent -> SessionId, agent: Agent,
                                           earlier: seq<Action>, later: seq<Action>)
    requires forall a :: a in later ==> !Marks(sessionOf, sessionOf(agent), Some(agent), a)
    ensures var id := sessionOf(agent);
      var upTo := earlier + [NormEdited(agent)];
      Due(After(digest, sessionOf, id, NEW_SNAP, upTo + later))
      <==> NoneTaken(digest, sessionOf, id, After(digest, sessionOf, id, NEW_SNAP, upTo), later)
  {
    var id, upTo := sessionOf(agent), earlier + [NormEdited(agent)];
    AfterConcat(digest, sessionOf, id, NEW_SNAP, upTo, later);
    assert upTo[..|earlier|] == earlier;
    SinceEdit(digest, sessionOf, After(digest, sessionOf, id, NEW_SNAP, upTo), agent, later);
  }

  /** A run of a new plugin in which an edit made while a request is under way is forgotten. */
  lemma {:induction false} EditIsForgotten(digest: string -> string, sessionOf: Agent -> SessionId, agent: Agent,
                                           prompt: Option<string>)
    ensures var actions := [Seen(agent), Asks(agent), NormEdited(agent), Lands(agent, prompt)];
      !Due(After(digest, sessionOf, sessionOf(agent), NEW_SNAP, actions))
  {
    var id := sessionOf(agent);
    var earlier, later := [Seen(agent), Asks(agent)], [Lands(agent, prompt)];
    assert earlier[..1] == [Seen(agent)] && [Seen(agent)][..0] == [];
    assert After(digest, sessionOf, id, NEW_SNAP, [Seen(agent)]) == KeyedBy(NEW_SNAP, agent);
    assert After(digest, sessionOf, id, NEW_SNAP, earlier).asked == 1;
    var upTo := earlier + [NormEdited(agent)];
    assert upTo[..2] == earlier;
    assert After(digest, sessionOf, id, NEW_SNAP, upTo).asked == 1;
    assert later[..0] == [];
    EditIsHeededIff(digest, sessionOf, agent, earlier, later);
    assert upTo + later == [Seen(agent), Asks(agent), NormEdited(agent), Lands(agent, prompt)];
  }
}
