/**
 The bounded recency set of convention targets (src/target-tracking.ts). The
 set is kept by moving the newest target to the front and cutting the tail; the
 main result says that this forgets nothing a full history would have kept.
 */
module Recency {
  import opened Common
  import opened Protocol

  const MAX_ACTIVE_TARGETS := 4
  const INITIAL_TARGET := "."

  /** One raw tool argument: missing or null, a string, or anything else. */
  datatype Field = Missing | Text(text: string) | OtherValue

  datatype Arguments = NotAnObject | Object(filePath: Field, path: Field)

  datatype ToolResult = ToolResult(tool: string, arguments: Arguments, failed: bool)

  function ProjectConventionTarget(dirname: string -> string, tool: string, arguments: Arguments): Option<string> {
    if arguments.NotAnObject? then None
    else
      var raw := if arguments.filePath.Missing? then arguments.path else arguments.filePath;
      if !raw.Text? || raw.text == "" then None
      else if tool == "read" || tool == "edit" || tool == "write" then Some(dirname(raw.text))
      else None
  }

  /** The target a tool result contributes, if any: failed results are not looked at. */
  function TargetOf(dirname: string -> string, r: ToolResult): Option<string> {
    if r.failed then None else ProjectConventionTarget(dirname, r.tool, r.arguments)
  }

  function Without(targets: seq<string>, x: string): seq<string> {
    if targets == [] then []
    else
      var rest := Without(targets[1..], x);
      if targets[0] == x then rest else [targets[0]] + rest
  }

  function Take<T>(s: seq<T>, n: nat): seq<T> {
    if |s| <= n then s else s[..n]
  }

  function PushTarget(targets: seq<string>, next: string): seq<string> {
    Take([next] + Without(targets, next), MAX_ACTIVE_TARGETS)
  }

  /** The active targets of one session, updated by each tool result. */
  class SessionState {
    var activeTargets: seq<string>

    constructor ()
      ensures activeTargets == [INITIAL_TARGET]
    {
      activeTargets := [INITIAL_TARGET];
    }

    method OnToolResult(dirname: string -> string, r: ToolResult)
      modifies this
      ensures activeTargets == Step(dirname, old(activeTargets), r)
    {
      if r.failed { return; }
      var target := ProjectConventionTarget(dirname, r.tool, r.arguments);
      if target.Some? {
        activeTargets := PushTarget(activeTargets, target.value);
      }
    }
  }

  function Step(dirname: string -> string, targets: seq<string>, r: ToolResult): seq<string> {
    match TargetOf(dirname, r)
    case None => targets
    case Some(t) => PushTarget(targets, t)
  }

  /** The active targets after a whole run of tool results. */
  function Active(dirname: string -> string, results: seq<ToolResult>): seq<string> {
    if results == [] then [INITIAL_TARGET]
    else Step(dirname, Active(dirname, results[..|results| - 1]), results[|results| - 1])
  }

  /** The unbounded history, newest target first, ending with the initial root. */
  function History(dirname: string -> string, results: seq<ToolResult>): seq<string> {
    if results == [] then [INITIAL_TARGET]
    else Held(TargetOf(dirname, results[|results| - 1])) + History(dirname, results[..|results| - 1])
  }

  /** Each element once, where it first occurs. */
  function FirstOccurrences(s: seq<string>): seq<string> {
    if s == [] then []
    else
      var init, last := s[..|s| - 1], s[|s| - 1];
      if last in init then FirstOccurrences(init) else FirstOccurrences(init) + [last]
  }

  lemma {:induction false} WithoutConcat(a: seq<string>, b: seq<string>, x: string)
    ensures Without(a + b, x) == Without(a, x) + Without(b, x)
  {
    if a == [] {
      assert a + b == b;
    } else {
      WithoutConcat(a[1..], b, x);
      assert (a + b)[1..] == a[1..] + b;
      AppendAssociates([a[0]], Without(a[1..], x), Without(b, x));
    }
  }

  /** Dropping one element keeps every other occurrence, and only those. */
  lemma {:induction false} WithoutKeeps(s: seq<string>, x: string)
    ensures x !in Without(s, x) && |Without(s, x)| <= |s|
    ensures forall y :: y in Without(s, x) <==> y in s && y != x
    ensures x !in s ==> Without(s, x) == s
  {
    if s != [] {
      WithoutKeeps(s[1..], x);
      assert s == [s[0]] + s[1..];
    }
  }

  /** A distinct sequence loses at most one element, so a cut of `n + 1` still holds the first `n`. */
  lemma {:induction false} WithoutAfterTake(s: seq<string>, x: string, n: nat)
    requires Distinct(s)
    ensures Take(Without(Take(s, n + 1), x), n) == Take(Without(s, x), n)
  {
    if |s| > n + 1 {
      var front, back := s[..n + 1], s[n + 1..];
      assert s == front + back;
      WithoutConcat(front, back, x);
      WithoutLosesAtMostOne(front, x);
      var kept := Without(front, x);
      assert |kept| >= n;
      assert Without(s, x)[..n] == kept[..n];
    }
  }

  lemma {:induction false} WithoutLosesAtMostOne(s: seq<string>, x: string)
    requires Distinct(s)
    ensures |Without(s, x)| >= |s| - 1
  {
    if s != [] {
      var rest := s[1..];
      assert Distinct(rest) by {
        forall i, j | 0 <= i < j < |rest| ensures rest[i] != rest[j] {
          assert rest[i] == s[i + 1] && rest[j] == s[j + 1];
        }
      }
      if s[0] == x {
        assert x !in rest;
        WithoutKeeps(rest, x);
      } else {
        WithoutLosesAtMostOne(rest, x);
      }
    }
  }

  lemma {:induction false} FirstOccurrencesKeeps(s: seq<string>)
    ensures Distinct(FirstOccurrences(s))
    ensures forall y :: y in FirstOccurrences(s) <==> y in s
    ensures s != [] ==> FirstOccurrences(s) != []
  {
    if s != [] {
      var init, last := s[..|s| - 1], s[|s| - 1];
      FirstOccurrencesKeeps(init);
      assert s == init + [last];
    }
  }

  lemma FirstOccurrencesSnoc(s: seq<string>, last: string)
    ensures FirstOccurrences(s + [last])
         == if last in s then FirstOccurrences(s) else FirstOccurrences(s) + [last]
  {
    assert (s + [last])[..|s|] == s;
  }

  /** Putting an element in front moves it there and removes it everywhere else. */
  lemma {:induction false} FirstOccurrencesCons(x: string, s: seq<string>)
    ensures FirstOccurrences([x] + s) == [x] + Without(FirstOccurrences(s), x)
  {
    var all := [x] + s;
    if s == [] {
      assert all[..0] == [];
    } else {
      var init, last := s[..|s| - 1], s[|s| - 1];
      FirstOccurrencesCons(x, init);
      SplitsLast(s);
      AppendAssociates([x], init, [last]);
      FirstOccurrencesSnoc([x] + init, last);
      assert last in [x] + init <==> last == x || last in init;
      WithoutConcat(FirstOccurrences(init), [last], x);
      AppendAssociates([x], Without(FirstOccurrences(init), x), Without([last], x));
      assert Without([last], x) == if last == x then [] else [last];
    }
  }

  /**
   The recency set refines the full history: after any run of tool results the
   active targets are the first four distinct entries of the reversed target
   history followed by the initial root.
   */
  lemma {:induction false} ActiveRefinesHistory(dirname: string -> string, results: seq<ToolResult>)
    ensures Active(dirname, results) == Take(FirstOccurrences(History(dirname, results)), MAX_ACTIVE_TARGETS)
  {
    if results == [] {
      assert History(dirname, results)[..0] == [];
    } else {
      var init, last := results[..|results| - 1], results[|results| - 1];
      ActiveRefinesHistory(dirname, init);
      var h := History(dirname, init);
      match TargetOf(dirname, last) {
        case None =>
          assert History(dirname, results) == h;
        case Some(t) =>
          var d := FirstOccurrences(h);
          FirstOccurrencesCons(t, h);
          FirstOccurrencesKeeps(h);
          WithoutAfterTake(d, t, MAX_ACTIVE_TARGETS - 1);
          TakeCons(t, Without(Take(d, MAX_ACTIVE_TARGETS), t), MAX_ACTIVE_TARGETS - 1);
          TakeCons(t, Without(d, t), MAX_ACTIVE_TARGETS - 1);
      }
    }
  }

  /** A tool result by which a file tool read or wrote the file at `path`. */
  predicate Touches(r: ToolResult, path: string) {
    && !r.failed && r.tool in ["read", "edit", "write"] && path != "" && r.arguments.Object?
    && (r.arguments.filePath == Text(path) || (r.arguments.filePath.Missing? && r.arguments.path == Text(path)))
  }

  /** A tool result contributes the directory of the file it touches, if it touches one, and nothing else. */
  lemma TargetIffTouched(dirname: string -> string, r: ToolResult, target: string)
    ensures TargetOf(dirname, r) == Some(target) <==> exists path :: Touches(r, path) && dirname(path) == target
  {
    if TargetOf(dirname, r) == Some(target) {
      var args := r.arguments;
      var path := if args.filePath.Missing? then args.path.text else args.filePath.text;
      assert Touches(r, path);
    }
  }

  lemma PushedIsFirst(targets: seq<string>, next: string)
    ensures var pushed := PushTarget(targets, next);
      pushed != [] && pushed[0] == next && forall t :: t in pushed ==> t == next || t in targets
  {
    WithoutKeeps(targets, next);
    var all := [next] + Without(targets, next);
    assert forall t :: t in Take(all, MAX_ACTIVE_TARGETS) ==> t in all;
  }

  /**
   The active targets are the initial root and directories of files the tools
   touched.
   */
  lemma {:induction false} ActiveAreTouched(dirname: string -> string, results: seq<ToolResult>, target: string)
    requires target in Active(dirname, results)
    ensures target == INITIAL_TARGET
      || exists k, path :: 0 <= k < |results| && Touches(results[k], path) && dirname(path) == target
  {
    if results != [] {
      var init, last := results[..|results| - 1], results[|results| - 1];
      if target in Active(dirname, init) {
        ActiveAreTouched(dirname, init, target);
        if target != INITIAL_TARGET {
          var k, path :| 0 <= k < |init| && Touches(init[k], path) && dirname(path) == target;
          assert Touches(results[k], path);
        }
      } else {
        PushedIsFirst(Active(dirname, init), TargetOf(dirname, last).value);
        TargetIffTouched(dirname, last, target);
      }
    }
  }

  /** The directory touched last comes first; a tool result that touches no file changes nothing. */
  lemma {:induction false} LastTouchedIsFirst(dirname: string -> string, results: seq<ToolResult>, r: ToolResult)
    ensures var before, after := Active(dirname, results), Active(dirname, results + [r]);
      && (forall path :: Touches(r, path) ==> after != [] && after[0] == dirname(path))
      && ((forall path :: !Touches(r, path)) ==> after == before)
  {
    assert (results + [r])[..|results|] == results;
    if TargetOf(dirname, r).Some? {
      TargetIffTouched(dirname, r, TargetOf(dirname, r).value);
      PushedIsFirst(Active(dirname, results), TargetOf(dirname, r).value);
    }
    forall path | Touches(r, path) ensures TargetOf(dirname, r) == Some(dirname(path)) {
      TargetIffTouched(dirname, r, dirname(path));
    }
  }

  lemma TakeCons(x: string, s: seq<string>, n: nat)
    ensures Take([x] + s, n + 1) == [x] + Take(s, n)
  {
  }

  lemma TargetIsNotEmpty(dirname: string -> string, r: ToolResult)
    requires forall p :: p != "" ==> dirname(p) != ""
    ensures TargetOf(dirname, r) != Some("")
  {
  }

  lemma {:induction false} HistoryHasNoEmptyTarget(dirname: string -> string, results: seq<ToolResult>)
    requires forall p :: p != "" ==> dirname(p) != ""
    ensures History(dirname, results) != [] && "" !in History(dirname, results)
  {
    if results != [] {
      var init, last := results[..|results| - 1], results[|results| - 1];
      HistoryHasNoEmptyTarget(dirname, init);
      TargetIsNotEmpty(dirname, last);
      assert "" !in Held(TargetOf(dirname, last));
    }
  }

  /**
   Whatever the tools did, the adapter's target set is one the bridge accepts:
   no run of tool results makes a multi-target prompt context fail validation.
   */
  lemma ActiveIsAlwaysAccepted(dirname: string -> string, results: seq<ToolResult>)
    requires forall p :: p != "" ==> dirname(p) != ""
    ensures ValidatePromptTargets(Active(dirname, results)).Ok?
    ensures forall root :: Accepts(Perform(PromptContextMulti), RootTargets(root, Active(dirname, results)))
  {
    var h := History(dirname, results);
    var d := FirstOccurrences(h);
    ActiveRefinesHistory(dirname, results);
    HistoryHasNoEmptyTarget(dirname, results);
    FirstOccurrencesKeeps(h);
    var active := Take(d, MAX_ACTIVE_TARGETS);
    assert Distinct(active);
    forall i | 0 <= i < |active| ensures active[i] != "" {
      assert active[i] == d[i] && d[i] in d;
    }
  }

  /** A target stays active until four other targets were touched after it. */
  lemma RecentTargetsStay(dirname: string -> string, results: seq<ToolResult>, t: string)
    requires t in History(dirname, results)
    ensures t in Active(dirname, results)
      <==> Newer(FirstOccurrences(History(dirname, results)), t) < MAX_ACTIVE_TARGETS
  {
    var h := History(dirname, results);
    ActiveRefinesHistory(dirname, results);
    FirstOccurrencesKeeps(h);
    NewerIsPosition(FirstOccurrences(h), t);
    var d, n := FirstOccurrences(h), Newer(FirstOccurrences(h), t);
    if n < MAX_ACTIVE_TARGETS {
      assert Active(dirname, results)[n] == t;
    }
  }

  /** How many elements stand before `t`. */
  function Newer(s: seq<string>, t: string): nat {
    if s == [] || s[0] == t then 0 else 1 + Newer(s[1..], t)
  }

  lemma {:induction false} NewerIsPosition(s: seq<string>, t: string)
    requires t in s && Distinct(s)
    ensures Newer(s, t) < |s| && s[Newer(s, t)] == t
    ensures forall i :: 0 <= i < |s| && s[i] == t ==> i == Newer(s, t)
  {
    if s[0] != t {
      var rest := s[1..];
      assert s == [s[0]] + rest;
      assert Distinct(rest) by {
        forall i, j | 0 <= i < j < |rest| ensures rest[i] != rest[j] {
          assert rest[i] == s[i + 1] && rest[j] == s[j + 1];
        }
      }
      NewerIsPosition(rest, t);
    }
  }
}
