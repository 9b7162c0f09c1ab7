/**
 The bounded feedback a write or edit gets back (src/validation-feedback.ts):
 at most eight findings, one line each, and at most 8192 UTF-8 bytes.
 A `char` is one Unicode scalar value.
 */
module Feedback {
  import opened Common
  import opened Text
  import opened Validation
  import RequestIds

  const MAX_BYTES := 8 * 1024
  const MAX_FINDINGS := 8

  // The fixed lines are written in short pieces, which is how the solver sees that none holds a line break.
  const TITLE := "[dsh-norm-spec " + "post-edit " + "validation: " + "soft feedback]"
  const NOT_BLOCKED :=
    "The write/edit " + "already " + "completed. " + "This feedback " + "did not block " + "or revert it."
  const FULL_DETAILS :=
    "Run the bundled " + "`norm validate " + "--all --strict` " + "command for " + "complete details."
  const TRUNCATED := "... feedback " + "truncated. " + FULL_DETAILS
  const SUFFIX := "\n" + TRUNCATED

  /** White space as the `\s` class and `trim` understand it. */
  predicate IsSpace(c: char) {
    var v := c as int;
    || 0x09 <= v <= 0x0D || v == 0x20 || v == 0xA0 || v == 0x1680 || 0x2000 <= v <= 0x200A
    || v == 0x2028 || v == 0x2029 || v == 0x202F || v == 0x205F || v == 0x3000 || v == 0xFEFF
  }

  /** Every run of white space replaced by one blank. */
  function Collapse(s: string): string {
    if s == [] then []
    else if !IsSpace(s[0]) then [s[0]] + Collapse(s[1..])
    else if |s| > 1 && IsSpace(s[1]) then Collapse(s[1..])
    else " " + Collapse(s[1..])
  }

  function TrimStart(s: string): string {
    if s != [] && IsSpace(s[0]) then TrimStart(s[1..]) else s
  }

  function TrimEnd(s: string): string {
    if s != [] && IsSpace(s[|s| - 1]) then TrimEnd(s[..|s| - 1]) else s
  }

  function OneLine(value: string, maximum: nat): string
    requires maximum > 0
  {
    var normalized := TrimEnd(TrimStart(Collapse(value)));
    if |normalized| <= maximum then normalized else normalized[..maximum - 1] + "…"
  }

  /** No white space but single blanks is left, so in particular no line break. */
  predicate Blank(s: string) {
    forall i :: 0 <= i < |s| && IsSpace(s[i]) ==> s[i] == ' '
  }

  lemma {:induction false} CollapseIsBlank(s: string)
    ensures Blank(Collapse(s))
  {
    if s != [] {
      CollapseIsBlank(s[1..]);
    }
  }

  lemma {:induction false} TrimStartKeepsBlank(s: string)
    requires Blank(s)
    ensures Blank(TrimStart(s))
    ensures TrimStart(s) != [] ==> !IsSpace(TrimStart(s)[0])
  {
    if s != [] && IsSpace(s[0]) {
      TrimStartKeepsBlank(s[1..]);
    }
  }

  lemma {:induction false} TrimEndIsPrefix(s: string)
    ensures TrimEnd(s) <= s
    ensures TrimEnd(s) != [] ==> !IsSpace(TrimEnd(s)[|TrimEnd(s)| - 1])
  {
    if s != [] && IsSpace(s[|s| - 1]) {
      TrimEndIsPrefix(s[..|s| - 1]);
    }
  }

  /** A shortened text fits its limit and stays on one line, whatever the upstream wrote. */
  lemma OneLineFits(value: string, maximum: nat)
    requires maximum > 0
    ensures |OneLine(value, maximum)| <= maximum
    ensures Blank(OneLine(value, maximum))
  {
    var trimmed := TrimStart(Collapse(value));
    CollapseIsBlank(value);
    TrimStartKeepsBlank(Collapse(value));
    TrimEndIsPrefix(trimmed);
    PrefixIsBlank(trimmed, TrimEnd(trimmed));
    CutIsBlank(TrimEnd(trimmed), maximum);
  }

  lemma PrefixIsBlank(s: string, prefix: string)
    requires Blank(s) && prefix <= s
    ensures Blank(prefix)
  {
    forall i | 0 <= i < |prefix| && IsSpace(prefix[i]) ensures prefix[i] == ' ' {
      assert prefix[i] == s[i];
    }
  }

  lemma CutIsBlank(s: string, maximum: nat)
    requires Blank(s) && maximum > 0
    ensures |s| > maximum ==> Blank(s[..maximum - 1] + "…")
  {
    assert !IsSpace('…');
  }

  /** What a text shows in ink. */
  function Ink(s: string): string {
    if s == [] then [] else Ink(s[..|s| - 1]) + if IsSpace(s[|s| - 1]) then [] else [s[|s| - 1]]
  }

  lemma {:induction false} InkConcat(a: string, b: string)
    ensures Ink(a + b) == Ink(a) + Ink(b)
  {
    if b == [] {
      assert a + b == a;
    } else {
      var init := b[..|b| - 1];
      assert (a + b)[..|a + b| - 1] == a + init;
      InkConcat(a, init);
    }
  }

  lemma InkBehind(c: char, s: string)
    ensures Ink([c] + s) == (if IsSpace(c) then [] else [c]) + Ink(s)
  {
    InkConcat([c], s);
    assert [c][..0] == [];
  }

  lemma InkFirst(s: string)
    requires s != []
    ensures Ink(s) == (if IsSpace(s[0]) then [] else [s[0]]) + Ink(s[1..])
  {
    assert s == [s[0]] + s[1..];
    InkBehind(s[0], s[1..]);
  }

  lemma {:induction false} CollapseKeepsInk(s: string)
    ensures Ink(Collapse(s)) == Ink(s) && |Collapse(s)| <= |s|
  {
    if s != [] {
      CollapseKeepsInk(s[1..]);
      InkFirst(s);
      InkBehind(s[0], Collapse(s[1..]));
      InkBehind(' ', Collapse(s[1..]));
    }
  }

  lemma {:induction false} TrimStartKeepsInk(s: string)
    ensures Ink(TrimStart(s)) == Ink(s)
  {
    if s != [] && IsSpace(s[0]) {
      TrimStartKeepsInk(s[1..]);
      InkFirst(s);
    }
  }

  lemma {:induction false} TrimEndKeepsInk(s: string)
    ensures Ink(TrimEnd(s)) == Ink(s)
  {
    if s != [] && IsSpace(s[|s| - 1]) { TrimEndKeepsInk(s[..|s| - 1]); }
  }

  /**
   A shortened text shows all the ink of what the upstream wrote, in order; or it
   is as long as allowed, ends in an ellipsis, and shows the beginning of it.
   */
  lemma OneLineKeepsInk(value: string, maximum: nat)
    requires maximum > 0
    ensures var line := OneLine(value, maximum);
      || Ink(line) == Ink(value)
      || (|line| == maximum && line[maximum - 1] == '…' && Ink(line[..maximum - 1]) <= Ink(value))
  {
    var normalized := TrimEnd(TrimStart(Collapse(value)));
    CollapseKeepsInk(value);
    TrimStartKeepsInk(Collapse(value));
    TrimEndKeepsInk(TrimStart(Collapse(value)));
    if |normalized| > maximum {
      var cut := normalized[..maximum - 1];
      assert normalized == cut + normalized[maximum - 1..];
      InkConcat(cut, normalized[maximum - 1..]);
      assert OneLine(value, maximum)[..maximum - 1] == cut;
    }
  }

  /** No two white spaces stand side by side. */
  predicate Single(s: string) {
    forall i :: 0 <= i < |s| - 1 && IsSpace(s[i]) ==> !IsSpace(s[i + 1])
  }

  /** A text that is in order: single blanks between words, and none around. */
  predicate Clean(s: string) {
    Blank(s) && Single(s) && (s != [] ==> !IsSpace(s[0]) && !IsSpace(s[|s| - 1]))
  }

  lemma {:induction false} CollapseIsSingle(s: string)
    ensures Single(Collapse(s))
    ensures Collapse(s) != [] ==> s != [] && (!IsSpace(s[0]) ==> Collapse(s)[0] == s[0])
    ensures s != [] ==> Collapse(s) != []
  {
    if s != [] { CollapseIsSingle(s[1..]); }
  }

  lemma {:induction false} CollapseKeepsClean(s: string)
    requires Blank(s) && Single(s)
    ensures Collapse(s) == s
  {
    if s != [] {
      assert Blank(s[1..]) && Single(s[1..]);
      CollapseKeepsClean(s[1..]);
      assert s == [s[0]] + s[1..];
    }
  }

  lemma {:induction false} TrimmingShortens(s: string)
    ensures |TrimStart(s)| <= |s| && |TrimEnd(s)| <= |s|
    ensures |TrimStart(s)| == |s| ==> TrimStart(s) == s
    ensures |TrimEnd(s)| == |s| ==> TrimEnd(s) == s
  {
    if s != [] {
      TrimmingShortens(s[1..]);
      TrimmingShortens(s[..|s| - 1]);
    }
  }

  /** A text is shown as it is if and only if it is in order and short enough. */
  lemma OneLineKeepsClean(value: string, maximum: nat)
    requires maximum > 0
    ensures OneLine(value, maximum) == value <==> Clean(value) && |value| <= maximum
  {
    var collapsed := Collapse(value);
    var started := TrimStart(collapsed);
    if Clean(value) {
      CollapseKeepsClean(value);
    }
    if OneLine(value, maximum) == value {
      CollapseKeepsInk(value);
      CollapseIsBlank(value);
      CollapseIsSingle(value);
      TrimmingShortens(collapsed);
      TrimmingShortens(started);
      TrimStartKeepsBlank(collapsed);
      TrimEndIsPrefix(started);
      OneLineFits(value, maximum);
    }
  }

  datatype Severity = ERROR | WARNING

  function SeverityName(s: Severity): string {
    if s.ERROR? then "ERROR" else "WARNING"
  }

  function RenderFinding(severity: Severity, path: string, finding: Diagnostic): string {
    FindingLabel(severity, path, finding) + FindingText(finding)
  }

  function FindingLabel(severity: Severity, path: string, finding: Diagnostic): string {
    var field := if finding.field.None? then "" else " field=" + OneLine(finding.field.value, 192);
    "- " + SeverityName(severity) + " " + OneLine(path, 384) + " [" + OneLine(finding.code, 192) + "]" + field
  }

  function FindingText(finding: Diagnostic): string {
    var suggestion := if finding.suggestion.None? then "" else " Fix: " + OneLine(finding.suggestion.value, 512);
    ": " + OneLine(finding.message, 768) + suggestion
  }

  function SummaryText(s: Summary): string {
    RequestIds.Decimal(s.errors) + " errors and " + RequestIds.Decimal(s.warnings) + " warnings across "
    + RequestIds.Decimal(s.files) + " .norm files."
  }

  function OmittedText(count: nat): string {
    "... " + RequestIds.Decimal(count) + " additional diagnostics omitted."
  }

  /** The parts occur in the line one behind the other. */
  ghost predicate InOrder(line: string, parts: seq<string>)
    decreases |parts|
  {
    parts == [] ||
    exists before, after :: line == before + parts[0] + after && InOrder(after, parts[1..])
  }

  lemma InOrderAfter(before: string, part: string, after: string, parts: seq<string>)
    requires InOrder(after, parts)
    ensures InOrder(before + part + after, [part] + parts)
  {
    var all := [part] + parts;
    assert all[1..] == parts && all[0] == part;
    assert before + part + after == before + all[0] + after;
  }

  lemma InOrderBehind(front: string, line: string, parts: seq<string>)
    requires InOrder(line, parts)
    ensures InOrder(front + line, parts)
  {
    if parts != [] {
      var before, after :| line == before + parts[0] + after && InOrder(after, parts[1..]);
      AppendAssociates(front, before + parts[0], after);
      AppendAssociates(front, before, parts[0]);
      assert front + line == (front + before) + parts[0] + after;
    }
  }

  /** The texts a finding's line shows, in order, each shortened by itself. */
  function Shown(severity: Severity, path: string, finding: Diagnostic): seq<string> {
    [if severity.ERROR? then "ERROR" else "WARNING", OneLine(path, 384), OneLine(finding.code, 192)]
    + (if finding.field.None? then [] else [OneLine(finding.field.value, 192)])
    + [OneLine(finding.message, 768)]
    + (if finding.suggestion.None? then [] else [OneLine(finding.suggestion.value, 512)])
  }

  lemma Nested(a: string, b: string, c: string, d: string, e: string, f: string, g: string, h: string, rest: string)
    ensures (a + b + c + d + e + f + g + h) + rest == a + b + (c + d + (e + f + (g + (h + rest))))
  {
  }

  lemma TextShows(finding: Diagnostic)
    ensures InOrder(FindingText(finding),
                    [OneLine(finding.message, 768)]
                    + if finding.suggestion.None? then [] else [OneLine(finding.suggestion.value, 512)])
  {
    var message := OneLine(finding.message, 768);
    if finding.suggestion.None? {
      InOrderAfter(": ", message, "", []);
    } else {
      var suggestion := OneLine(finding.suggestion.value, 512);
      InOrderAfter(" Fix: ", suggestion, "", []);
      assert " Fix: " + suggestion + "" == " Fix: " + suggestion && [suggestion] + [] == [suggestion];
      InOrderAfter(": ", message, " Fix: " + suggestion, [suggestion]);
    }
  }

  lemma LabelShows(name: string, file: string, code: string, behind: string, parts: seq<string>)
    requires InOrder(behind, parts)
    ensures InOrder("- " + name + (" " + file + (" [" + code + ("]" + behind))), [name, file, code] + parts)
  {
    InOrderBehind("]", behind, parts);
    InOrderAfter(" [", code, "]" + behind, parts);
    InOrderAfter(" ", file, " [" + code + ("]" + behind), [code] + parts);
    InOrderAfter("- ", name, " " + file + (" [" + code + ("]" + behind)), [file] + ([code] + parts));
    assert [name] + ([file] + ([code] + parts)) == [name, file, code] + parts;
  }

  /** A finding's line shows its severity, file, code, field, message and suggestion, in this order. */
  lemma FindingShowsItsParts(severity: Severity, path: string, finding: Diagnostic)
    ensures InOrder(RenderFinding(severity, path, finding), Shown(severity, path, finding))
  {
    var name, file, code := SeverityName(severity), OneLine(path, 384), OneLine(finding.code, 192);
    var field := if finding.field.None? then "" else " field=" + OneLine(finding.field.value, 192);
    var text := FindingText(finding);
    var parts := [OneLine(finding.message, 768)]
      + if finding.suggestion.None? then [] else [OneLine(finding.suggestion.value, 512)];
    TextShows(finding);
    var behind := field + text;
    if finding.field.None? {
      assert behind == text;
    } else {
      InOrderAfter(" field=", OneLine(finding.field.value, 192), text, parts);
      parts := [OneLine(finding.field.value, 192)] + parts;
    }
    LabelShows(name, file, code, behind, parts);
    Nested("- ", name, " ", file, " [", code, "]", field, text);
    assert [name, file, code] + parts == Shown(severity, path, finding);
  }

  function Findings(severity: Severity, path: string, findings: seq<Diagnostic>): (lines: seq<string>)
    ensures |lines| == |findings|
  {
    if findings == [] then []
    else
      Findings(severity, path, findings[..|findings| - 1])
      + [RenderFinding(severity, path, findings[|findings| - 1])]
  }

  /** One file's findings, errors before warnings. */
  function FileFindings(r: FileResult): (lines: seq<string>)
    ensures |lines| == |r.errors| + |r.warnings|
  {
    Findings(ERROR, r.path, r.errors) + Findings(WARNING, r.path, r.warnings)
  }

  /** Every finding of a report as a line, in report order. */
  function AllFindings(results: seq<FileResult>): seq<string> {
    if results == [] then []
    else AllFindings(results[..|results| - 1]) + FileFindings(results[|results| - 1])
  }

  function Take(s: seq<string>, n: nat): (r: seq<string>)
    ensures |r| <= n && r <= s
  {
    if |s| <= n then s else s[..n]
  }

  function Head(s: Summary): seq<string> {
    [TITLE, SummaryText(s)]
  }

  function Foot(): seq<string> {
    [NOT_BLOCKED, FULL_DETAILS]
  }

  /** The lines of the report: the first eight findings, and how many more there are. */
  function Report(r: Response): seq<string> {
    Framed(Head(r.summary), AllFindings(r.results), r.summary.errors + r.summary.warnings, Foot())
  }

  function Framed(head: seq<string>, findings: seq<string>, total: nat, foot: seq<string>): seq<string> {
    var shown := Take(findings, MAX_FINDINGS);
    WithOmitted(head + shown, |shown|, total) + foot
  }

  function WithOmitted(lines: seq<string>, emitted: nat, total: nat): seq<string> {
    if emitted < total then lines + [OmittedText(total - emitted)] else lines
  }

  /** How many characters fit a byte budget: drop characters from the end until the rest fits. */
  function FitLength(value: string, budget: nat): (n: nat)
    ensures n <= |value| && Utf8Bytes(value[..n]) <= budget
  {
    if Utf8Bytes(value) <= budget then
      assert value[..|value|] == value;
      |value|
    else
      var init := value[..|value| - 1];
      var n := FitLength(init, budget);
      assert value[..n] == init[..n];
      n
  }

  function Budget(): (n: nat)
    ensures n + Utf8Bytes(SUFFIX) == MAX_BYTES
  {
    assert |SUFFIX| <= 1024;
    Utf8BytesAtMostFour(SUFFIX);
    MAX_BYTES - Utf8Bytes(SUFFIX)
  }

  function Bounded(value: string): string {
    if Utf8Bytes(value) <= MAX_BYTES then value
    else TrimEnd(value[..FitLength(value, Budget())]) + SUFFIX
  }

  lemma {:induction false} Utf8BytesAtMostFour(s: string)
    ensures Utf8Bytes(s) <= 4 * |s|
  {
    if s != [] {
      Utf8BytesAtMostFour(s[..|s| - 1]);
    }
  }

  lemma Utf8BytesMonotone(s: string, m: nat, n: nat)
    requires m <= n <= |s|
    ensures Utf8Bytes(s[..m]) <= Utf8Bytes(s[..n])
  {
    Utf8BytesConcat(s[..m], s[m..n]);
    assert s[..n] == s[..m] + s[m..n];
  }

  /** No longer prefix fits. */
  lemma {:induction false} FitLengthIsLongest(value: string, budget: nat, n: nat)
    requires FitLength(value, budget) < n <= |value|
    ensures Utf8Bytes(value[..n]) > budget
  {
    assert value[..|value|] == value;
    if n < |value| {
      var init := value[..|value| - 1];
      assert value[..n] == init[..n];
      if Utf8Bytes(value) > budget {
        FitLengthIsLongest(init, budget, n);
      }
    }
  }

  /** Only one length is both fitting and maximal. */
  lemma FitLengthUnique(value: string, budget: nat, n: nat)
    requires n <= |value| && Utf8Bytes(value[..n]) <= budget
    requires n < |value| ==> Utf8Bytes(value[..n + 1]) > budget
    ensures n == FitLength(value, budget)
  {
    var f := FitLength(value, budget);
    if f < n {
      FitLengthIsLongest(value, budget, n);
    } else if n < f {
      Utf8BytesMonotone(value, n + 1, f);
    }
  }

  method BoundFeedback(value: string) returns (text: string)
    ensures text == Bounded(value)
  {
    if Utf8Bytes(value) <= MAX_BYTES {
      return value;
    }
    var budget := Budget();
    var prefix, bytes, i := "", 0, 0;
    while i < |value|
      invariant i <= |value| && prefix == value[..i] && bytes == Utf8Bytes(prefix) <= budget
    {
      var next := Utf8Width(value[i]);
      assert value[..i + 1][..i] == value[..i];
      if bytes + next > budget {
        break;
      }
      prefix := prefix + [value[i]];
      bytes := bytes + next;
      i := i + 1;
    }
    FitLengthUnique(value, budget, i);
    text := TrimEnd(prefix) + SUFFIX;
  }

  /** The bound: never more than 8192 bytes, and unchanged exactly when that already held. */
  lemma BoundedFits(value: string)
    ensures Utf8Bytes(Bounded(value)) <= MAX_BYTES
    ensures Bounded(value) == value <==> Utf8Bytes(value) <= MAX_BYTES
  {
    if Utf8Bytes(value) > MAX_BYTES {
      var prefix := value[..FitLength(value, Budget())];
      TrimEndIsPrefix(prefix);
      var kept := TrimEnd(prefix);
      assert prefix[..|kept|] == kept && prefix[..|prefix|] == prefix;
      Utf8BytesMonotone(prefix, |kept|, |prefix|);
      Utf8BytesConcat(kept, SUFFIX);
    }
  }

  /**
   A text that is too long keeps the longest prefix that leaves room for the
   suffix: the one prefix that fits while one character more would not.
   */
  lemma TruncationKeepsTheMost(value: string, n: nat)
    requires Utf8Bytes(value) > MAX_BYTES && n < |value|
    ensures Utf8Bytes(value[..n]) <= Budget() < Utf8Bytes(value[..n + 1]) <==> n == FitLength(value, Budget())
    ensures n == FitLength(value, Budget()) ==> Bounded(value) == TrimEnd(value[..n]) + SUFFIX
  {
    if n == FitLength(value, Budget()) {
      FitLengthIsLongest(value, Budget(), n + 1);
    } else if Utf8Bytes(value[..n]) <= Budget() < Utf8Bytes(value[..n + 1]) {
      FitLengthUnique(value, Budget(), n);
    }
  }

  /** Filling up to `n` in two steps is filling up to `n` at once. */
  lemma TakeInSteps(a: seq<string>, b: seq<string>, n: nat)
    ensures Take(a, n) + Take(b, n - |Take(a, n)|) == Take(a + b, n)
  {
  }

  method EmitGroup(lines: seq<string>, emitted: nat, severity: Severity, path: string, findings: seq<Diagnostic>)
    returns (lines': seq<string>, emitted': nat)
    requires emitted <= MAX_FINDINGS
    ensures var more := Take(Findings(severity, path, findings), MAX_FINDINGS - emitted);
            lines' == lines + more && emitted' == emitted + |more|
  {
    lines', emitted' := lines, emitted;
    for k := 0 to |findings|
      invariant emitted' == emitted + k <= MAX_FINDINGS
      invariant lines' == lines + Findings(severity, path, findings[..k])
    {
      if emitted' >= MAX_FINDINGS {
        FindingsPrefix(severity, path, findings, k);
        return;
      }
      assert findings[..k + 1][..k] == findings[..k];
      var line := RenderFinding(severity, path, findings[k]);
      AppendAssociates(lines, Findings(severity, path, findings[..k]), [line]);
      lines' := lines' + [line];
      emitted' := emitted' + 1;
    }
    assert findings[..|findings|] == findings;
  }

  /** One file's findings, errors before warnings, as long as there is room. */
  method EmitFile(lines: seq<string>, emitted: nat, result: FileResult) returns (lines': seq<string>, emitted': nat)
    requires emitted <= MAX_FINDINGS
    ensures var more := Take(FileFindings(result), MAX_FINDINGS - emitted);
            lines' == lines + more && emitted' == emitted + |more|
  {
    ghost var errors := Findings(ERROR, result.path, result.errors);
    ghost var warnings := Findings(WARNING, result.path, result.warnings);
    ghost var room := MAX_FINDINGS - emitted;
    TakeInSteps(errors, warnings, room);
    AppendAssociates(lines, Take(errors, room), Take(warnings, room - |Take(errors, room)|));
    lines', emitted' := EmitGroup(lines, emitted, ERROR, result.path, result.errors);
    lines', emitted' := EmitGroup(lines', emitted', WARNING, result.path, result.warnings);
  }

  /** What one more file adds to the lines shown. */
  lemma ShowsOneMore(results: seq<FileResult>, i: nat, shown: seq<string>, more: seq<string>)
    requires i < |results| && shown == Take(AllFindings(results[..i]), MAX_FINDINGS)
    requires more == Take(FileFindings(results[i]), MAX_FINDINGS - |shown|)
    ensures shown + more == Take(AllFindings(results[..i + 1]), MAX_FINDINGS)
  {
    assert results[..i + 1][..i] == results[..i];
    TakeInSteps(AllFindings(results[..i]), FileFindings(results[i]), MAX_FINDINGS);
  }

  /** The loop over files: adds the first eight findings to the lines, and counts them. */
  method EmitFindings(head: seq<string>, results: seq<FileResult>) returns (lines: seq<string>, emitted: nat)
    ensures var shown := Take(AllFindings(results), MAX_FINDINGS);
            lines == head + shown && emitted == |shown|
  {
    lines, emitted := head, 0;
    ghost var shown := [];
    for i := 0 to |results|
      invariant shown == Take(AllFindings(results[..i]), MAX_FINDINGS)
      invariant lines == head + shown && emitted == |shown|
    {
      ghost var more := Take(FileFindings(results[i]), MAX_FINDINGS - |shown|);
      ShowsOneMore(results, i, shown, more);
      AppendAssociates(head, shown, more);
      lines, emitted := EmitFile(lines, emitted, results[i]);
      shown := shown + more;
      if emitted >= MAX_FINDINGS {
        CutFile(results, i + 1);
        return;
      }
    }
    assert results[..|results|] == results;
  }

  method RenderLines(head: seq<string>, results: seq<FileResult>, total: nat, foot: seq<string>)
    returns (lines: seq<string>)
    ensures lines == Framed(head, AllFindings(results), total, foot)
  {
    var emitted;
    lines, emitted := EmitFindings(head, results);
    if emitted < total {
      lines := lines + [OmittedText(total - emitted)];
    }
    lines := lines + foot;
  }

  method RenderFindingFeedback(response: Response) returns (text: string)
    ensures text == Bounded(Join('\n', Report(response)))
  {
    var total := response.summary.errors + response.summary.warnings;
    var lines := RenderLines(Head(response.summary), response.results, total, Foot());
    text := BoundFeedback(Join('\n', lines));
  }

  lemma {:induction false} FindingsPrefix(severity: Severity, path: string, findings: seq<Diagnostic>, k: nat)
    requires k <= |findings|
    ensures Findings(severity, path, findings[..k]) <= Findings(severity, path, findings)
  {
    if k == |findings| {
      assert findings[..k] == findings;
    } else {
      var init := findings[..|findings| - 1];
      FindingsPrefix(severity, path, init, k);
      assert init[..k] == findings[..k];
    }
  }

  lemma {:induction false} AllFindingsPrefix(results: seq<FileResult>, k: nat)
    requires k <= |results|
    ensures AllFindings(results[..k]) <= AllFindings(results)
  {
    if k == |results| {
      assert results[..k] == results;
    } else {
      var init := results[..|results| - 1];
      AllFindingsPrefix(init, k);
      assert init[..k] == results[..k];
    }
  }

  /** Once eight lines are out, the remaining files add none. */
  lemma CutFile(results: seq<FileResult>, k: nat)
    requires k <= |results|
    requires |Take(AllFindings(results[..k]), MAX_FINDINGS)| >= MAX_FINDINGS
    ensures Take(AllFindings(results), MAX_FINDINGS) == Take(AllFindings(results[..k]), MAX_FINDINGS)
  {
    AllFindingsPrefix(results, k);
  }

  /** What the adapter shows for a report: nothing but a status line when there is nothing to fix. */
  method PresentValidation(response: Response) returns (status: string, text: Option<string>)
    ensures text.Some? <==> response.summary.errors + response.summary.warnings > 0
    ensures text.Some? ==> text.value == Bounded(Join('\n', Report(response)))
    ensures status == StatusLine(response.summary)
  {
    var Summary(files, errors, warnings) := response.summary;
    if errors == 0 && warnings == 0 {
      if files == 0 {
        return "norm: empty", None;
      }
      return "norm: valid (" + RequestIds.Decimal(files) + " files)", None;
    }
    var rendered := RenderFindingFeedback(response);
    status := "norm: " + RequestIds.Decimal(errors) + " errors, " + RequestIds.Decimal(warnings) + " warnings";
    text := Some(rendered);
  }

  /** A validation's answer, read and presented: shown exactly when some file is not in order, and never too long. */
  method FeedbackOn(answer: Json) returns (text: Result<Option<string>, Invalid>)
    ensures text.Ok? <==> ParseResponse(answer).Ok?
    ensures text.Ok? ==>
      (text.value.Some? <==> exists f :: f in ParseResponse(answer).value.results && !f.status.AllGood?)
    ensures text.Ok? && text.value.Some? ==>
      && text.value.value == Bounded(Join('\n', Report(ParseResponse(answer).value)))
      && Utf8Bytes(text.value.value) <= MAX_BYTES
  {
    var response := ParseResponse(answer);
    if response.Err? {
      return Err(response.error);
    }
    var status, shown := PresentValidation(response.value);
    ParsedIsConsistent(answer);
    NothingToFixIff(response.value);
    BoundedFits(Join('\n', Report(response.value)));
    text := Ok(shown);
  }

  lemma {:induction false} CountsPositiveIff(results: seq<FileResult>)
    ensures ErrorCount(results) + WarningCount(results) > 0
      <==> exists f :: f in results && |f.errors| + |f.warnings| > 0
  {
    if results != [] {
      CountsPositiveIff(results[1..]);
      assert results == [results[0]] + results[1..];
    }
  }

  /** The counts of a report that agrees with itself are zero exactly when every file is in order. */
  lemma NothingToFixIff(r: Response)
    requires Consistent(r)
    ensures r.summary.errors + r.summary.warnings > 0 <==> exists f :: f in r.results && !f.status.AllGood?
  {
    CountsPositiveIff(r.results);
    assert forall f :: f in r.results ==> StatusFits(f);
  }

  function StatusLine(s: Summary): string {
    if s.errors + s.warnings > 0 then
      "norm: " + RequestIds.Decimal(s.errors) + " errors, " + RequestIds.Decimal(s.warnings) + " warnings"
    else if s.files > 0 then "norm: valid (" + RequestIds.Decimal(s.files) + " files)"
    else "norm: empty"
  }

  lemma {:induction false} FindingsAt(severity: Severity, path: string, findings: seq<Diagnostic>, i: nat)
    requires i < |findings|
    ensures Findings(severity, path, findings)[i] == RenderFinding(severity, path, findings[i])
  {
    if i < |findings| - 1 { FindingsAt(severity, path, findings[..|findings| - 1], i); }
  }

  lemma FileFindingsAt(r: FileResult, i: nat)
    requires i < |r.errors| + |r.warnings|
    ensures FileFindings(r)[i]
         == if i < |r.errors| then RenderFinding(ERROR, r.path, r.errors[i])
            else RenderFinding(WARNING, r.path, r.warnings[i - |r.errors|])
  {
    if i < |r.errors| {
      FindingsAt(ERROR, r.path, r.errors, i);
    } else {
      FindingsAt(WARNING, r.path, r.warnings, i - |r.errors|);
    }
  }

  /**
   Every finding has its own line, with its severity and its file: behind those of
   the files before, a file's errors come first and then its warnings, in order.
   */
  lemma {:induction false} FindingHasItsLine(results: seq<FileResult>, k: nat, i: nat)
    requires k < |results| && i < |results[k].errors| + |results[k].warnings|
    ensures var at := ErrorCount(results[..k]) + WarningCount(results[..k]) + i;
      at < |AllFindings(results)| && AllFindings(results)[at]
        == if i < |results[k].errors| then RenderFinding(ERROR, results[k].path, results[k].errors[i])
           else RenderFinding(WARNING, results[k].path, results[k].warnings[i - |results[k].errors|])
  {
    FindingsAreCounted(results[..k]);
    FileFindingsAt(results[k], i);
    FileIsPlaced(results, k);
    PlacedAt(AllFindings(results[..k]), FileFindings(results[k]), AllFindings(results), i);
  }

  lemma FileIsPlaced(results: seq<FileResult>, k: nat)
    requires k < |results|
    ensures AllFindings(results[..k]) + FileFindings(results[k]) <= AllFindings(results)
  {
    AllFindingsPrefix(results, k + 1);
    assert results[..k + 1][..k] == results[..k];
  }

  lemma PlacedAt(before: seq<string>, here: seq<string>, all: seq<string>, i: nat)
    requires before + here <= all && i < |here|
    ensures |before| + i < |all| && all[|before| + i] == here[i]
  {
    assert all[|before| + i] == (before + here)[|before| + i];
  }

  lemma {:induction false} CountsSnoc(results: seq<FileResult>)
    requires results != []
    ensures ErrorCount(results) == ErrorCount(results[..|results| - 1]) + |results[|results| - 1].errors|
    ensures WarningCount(results) == WarningCount(results[..|results| - 1]) + |results[|results| - 1].warnings|
  {
    if |results| > 1 {
      CountsSnoc(results[1..]);
      assert results[1..][..|results| - 2] == results[..|results| - 1][1..];
    } else {
      assert results[1..] == [] && results[..0] == [];
    }
  }

  lemma {:induction false} FindingsAreCounted(results: seq<FileResult>)
    ensures |AllFindings(results)| == ErrorCount(results) + WarningCount(results)
  {
    if results != [] {
      FindingsAreCounted(results[..|results| - 1]);
      CountsSnoc(results);
    }
  }

  /**
   For every report the bridge hands over and the parser accepts: the finding
   lines are the first eight findings in order, and the line about omitted ones
   is there exactly when there are more, with the exact number.
   */
  lemma {:induction false} EmittedAndOmitted(v: Json, r: Response)
    requires ParseResponse(v) == Ok(r)
    ensures CountsEveryFinding(r)
  {
    ParsedIsConsistent(v);
    ConsistentCounts(r);
  }

  predicate CountsEveryFinding(r: Response) {
    && |AllFindings(r.results)| == r.summary.errors + r.summary.warnings
    && Report(r) == Counted(Head(r.summary), AllFindings(r.results), Foot())
  }

  lemma ConsistentCounts(r: Response)
    requires Consistent(r)
    ensures CountsEveryFinding(r)
  {
    CountsFramed(r, Head(r.summary), Foot());
  }

  lemma CountsFramed(r: Response, head: seq<string>, foot: seq<string>)
    requires Consistent(r)
    ensures |AllFindings(r.results)| == r.summary.errors + r.summary.warnings
    ensures Framed(head, AllFindings(r.results), r.summary.errors + r.summary.warnings, foot)
         == Counted(head, AllFindings(r.results), foot)
  {
    FramedIsCounted(head, r.results, r.summary.errors + r.summary.warnings, foot);
  }

  /** All findings, or the first eight and the number of the others. */
  function Counted(head: seq<string>, all: seq<string>, foot: seq<string>): seq<string> {
    if |all| <= MAX_FINDINGS then head + all + foot
    else head + all[..MAX_FINDINGS] + [OmittedText(|all| - MAX_FINDINGS)] + foot
  }

  lemma FramedIsCounted(head: seq<string>, results: seq<FileResult>, total: nat, foot: seq<string>)
    requires total == ErrorCount(results) + WarningCount(results)
    ensures |AllFindings(results)| == total
    ensures Framed(head, AllFindings(results), total, foot) == Counted(head, AllFindings(results), foot)
  {
    FindingsAreCounted(results);
    CutIsCounted(head, AllFindings(results), foot);
  }

  lemma CutIsCounted(head: seq<string>, all: seq<string>, foot: seq<string>)
    ensures Framed(head, all, |all|, foot) == Counted(head, all, foot)
  {
    if |all| <= MAX_FINDINGS {
      assert Take(all, MAX_FINDINGS) == all;
    } else {
      assert Take(all, MAX_FINDINGS) == all[..MAX_FINDINGS];
    }
  }

  predicate AreLines(lines: seq<string>) {
    forall i :: 0 <= i < |lines| ==> '\n' !in lines[i]
  }

  lemma AreLinesConcat(a: seq<string>, b: seq<string>)
    requires AreLines(a) && AreLines(b)
    ensures AreLines(a + b)
  {
  }

  lemma BlankHasNoLineBreak(s: string)
    requires Blank(s)
    ensures '\n' !in s
  {
    if '\n' in s {
      var i :| 0 <= i < |s| && s[i] == '\n';
      assert IsSpace(s[i]);
    }
  }

  lemma LabelIsOneLine(severity: Severity, path: string, finding: Diagnostic)
    ensures '\n' !in FindingLabel(severity, path, finding)
  {
    OneLineHasNoLineBreak(path, 384);
    OneLineHasNoLineBreak(finding.code, 192);
    if finding.field.Some? { OneLineHasNoLineBreak(finding.field.value, 192); }
  }

  lemma FindingTextIsOneLine(finding: Diagnostic)
    ensures '\n' !in FindingText(finding)
  {
    OneLineHasNoLineBreak(finding.message, 768);
    if finding.suggestion.Some? { OneLineHasNoLineBreak(finding.suggestion.value, 512); }
  }

  lemma FindingIsOneLine(severity: Severity, path: string, finding: Diagnostic)
    ensures '\n' !in RenderFinding(severity, path, finding)
  {
    LabelIsOneLine(severity, path, finding);
    FindingTextIsOneLine(finding);
  }

  lemma OneLineHasNoLineBreak(value: string, maximum: nat)
    requires maximum > 0
    ensures '\n' !in OneLine(value, maximum)
  {
    OneLineFits(value, maximum);
    BlankHasNoLineBreak(OneLine(value, maximum));
  }

  lemma {:induction false} FindingsAreLines(severity: Severity, path: string, findings: seq<Diagnostic>)
    ensures AreLines(Findings(severity, path, findings))
  {
    if findings != [] {
      FindingsAreLines(severity, path, findings[..|findings| - 1]);
      FindingIsOneLine(severity, path, findings[|findings| - 1]);
    }
  }

  lemma {:induction false} AllFindingsAreLines(results: seq<FileResult>)
    ensures AreLines(AllFindings(results))
  {
    if results != [] {
      var last := results[|results| - 1];
      AllFindingsAreLines(results[..|results| - 1]);
      FindingsAreLines(ERROR, last.path, last.errors);
      FindingsAreLines(WARNING, last.path, last.warnings);
    }
  }

  lemma SummaryIsOneLine(s: Summary)
    ensures '\n' !in SummaryText(s)
  {
  }

  predicate Digits(s: string) {
    forall i :: 0 <= i < |s| ==> '0' <= s[i] <= '9'
  }

  lemma DigitsReach(a: string, x: string, b: string, y: string)
    requires Digits(b) && a + x == b + y && x != "" && !('0' <= x[0] <= '9')
    ensures |b| <= |a|
  {
    assert (a + x)[|a|] == x[0];
    assert forall i :: 0 <= i < |b| ==> (b + y)[i] == b[i];
  }

  /** Digits end where something else begins. */
  lemma DigitsEnd(a: string, x: string, b: string, y: string)
    requires Digits(a) && Digits(b) && a + x == b + y
    requires x != "" && y != "" && !('0' <= x[0] <= '9') && !('0' <= y[0] <= '9')
    ensures a == b && x == y
  {
    DigitsReach(a, x, b, y);
    DigitsReach(b, y, a, x);
    assert (a + x)[..|a|] == a && (b + y)[..|b|] == b;
    assert (a + x)[|a|..] == x && (b + y)[|b|..] == y;
  }

  lemma NumberEnds(m: nat, x: string, n: nat, y: string)
    requires RequestIds.Decimal(m) + x == RequestIds.Decimal(n) + y
    requires x != "" && y != "" && !('0' <= x[0] <= '9') && !('0' <= y[0] <= '9')
    ensures m == n && x == y
  {
    DigitsEnd(RequestIds.Decimal(m), x, RequestIds.Decimal(n), y);
    RequestIds.DecimalInjective(m, n);
  }

  lemma BehindFront(front: string, x: string, y: string)
    requires front + x == front + y
    ensures x == y
  {
    assert (front + x)[|front|..] == x && (front + y)[|front|..] == y;
  }

  /** The line about omitted findings tells how many there are. */
  lemma OmittedTellsCount(m: nat, n: nat)
    requires OmittedText(m) == OmittedText(n)
    ensures m == n
  {
    var rest := " additional diagnostics omitted.";
    AppendAssociates("... ", RequestIds.Decimal(m), rest);
    AppendAssociates("... ", RequestIds.Decimal(n), rest);
    BehindFront("... ", RequestIds.Decimal(m) + rest, RequestIds.Decimal(n) + rest);
    NumberEnds(m, rest, n, rest);
  }

  function FilesText(files: nat): string {
    RequestIds.Decimal(files) + " .norm files."
  }

  function WarningsText(warnings: nat, files: nat): string {
    RequestIds.Decimal(warnings) + (" warnings across " + FilesText(files))
  }

  lemma SummaryNests(s: Summary)
    ensures SummaryText(s) == RequestIds.Decimal(s.errors) + (" errors and " + WarningsText(s.warnings, s.files))
  {
    NestFive(RequestIds.Decimal(s.errors), " errors and ", RequestIds.Decimal(s.warnings), " warnings across ",
             RequestIds.Decimal(s.files), " .norm files.");
  }

  lemma NestFive(a: string, b: string, c: string, d: string, e: string, f: string)
    ensures a + b + c + d + e + f == a + (b + (c + (d + (e + f))))
  {
  }

  /** The summary line tells all three counts of the report. */
  lemma SummaryTellsCounts(s: Summary, t: Summary)
    requires SummaryText(s) == SummaryText(t)
    ensures s == t
  {
    SummaryNests(s);
    SummaryNests(t);
    var afterErrors, afterErrors' := WarningsText(s.warnings, s.files), WarningsText(t.warnings, t.files);
    NumberEnds(s.errors, " errors and " + afterErrors, t.errors, " errors and " + afterErrors');
    BehindFront(" errors and ", afterErrors, afterErrors');
    var afterWarnings, afterWarnings' := FilesText(s.files), FilesText(t.files);
    NumberEnds(s.warnings, " warnings across " + afterWarnings, t.warnings, " warnings across " + afterWarnings');
    BehindFront(" warnings across ", afterWarnings, afterWarnings');
    NumberEnds(s.files, " .norm files.", t.files, " .norm files.");
  }

  lemma OmittedIsOneLine(count: nat)
    ensures '\n' !in OmittedText(count)
  {
  }

  lemma ReportIsLines(r: Response)
    ensures Report(r) != [] && AreLines(Report(r))
  {
    AllFindingsAreLines(r.results);
    HeadIsLines(r.summary);
    FootIsLines();
    FramedAreLines(Head(r.summary), AllFindings(r.results), r.summary.errors + r.summary.warnings, Foot());
  }

  /**
   No upstream text can add a line. A text that fits has exactly the lines of the
   report; one that does not has the first of them, the last perhaps cut short,
   and then the line that says so.
   */
  lemma {:induction false} RenderedLines(r: Response)
    ensures var joined, lines := Join('\n', Report(r)), Split('\n', Bounded(Join('\n', Report(r))));
      if Utf8Bytes(joined) <= MAX_BYTES then lines == Report(r)
      else lines[|lines| - 1] == TRUNCATED && CutOf(lines[..|lines| - 1], Report(r))
  {
    ReportIsLines(r);
    SplitJoin('\n', Report(r));
    if Utf8Bytes(Join('\n', Report(r))) > MAX_BYTES {
      TruncatedLines(Join('\n', Report(r)));
    }
  }

  lemma TruncatedLines(value: string)
    requires Utf8Bytes(value) > MAX_BYTES
    ensures var lines := Split('\n', Bounded(value));
      lines[|lines| - 1] == TRUNCATED && CutOf(lines[..|lines| - 1], Split('\n', value))
  {
    TrimEndIsPrefix(value[..FitLength(value, Budget())]);
    var kept := TrimEnd(value[..FitLength(value, Budget())]);
    TruncatedIsOneLine();
    LinesOfCut(value, kept, TRUNCATED);
    AppendAssociates(kept, ['\n'], TRUNCATED);
  }

  /** The lines of the beginning of a text, and of one more line behind it. */
  lemma LinesOfCut(value: string, kept: string, line: string)
    requires kept <= value && '\n' !in line
    ensures Split('\n', kept + ['\n'] + line) == Split('\n', kept) + [line]
    ensures CutOf(Split('\n', kept), Split('\n', value))
  {
    SplitLast('\n', kept, line);
    assert value == kept + value[|kept|..];
    SplitPrefix('\n', kept, value[|kept|..], |kept|);
    SplitOfPrefix('\n', value, |kept|);
  }

  lemma TruncatedIsOneLine()
    ensures '\n' !in TRUNCATED
  {
  }

  lemma FramedAreLines(head: seq<string>, findings: seq<string>, total: nat, foot: seq<string>)
    requires AreLines(head) && AreLines(findings) && AreLines(foot) && foot != []
    ensures AreLines(Framed(head, findings, total, foot)) && Framed(head, findings, total, foot) != []
  {
    var shown := Take(findings, MAX_FINDINGS);
    assert AreLines(shown);
    AreLinesConcat(head, shown);
    if |shown| < total {
      OmittedIsOneLine(total - |shown|);
      AreLinesConcat(head + shown, [OmittedText(total - |shown|)]);
    }
    AreLinesConcat(WithOmitted(head + shown, |shown|, total), foot);
  }

  lemma HeadIsLines(s: Summary)
    ensures AreLines(Head(s))
  {
    assert '\n' !in TITLE;
    SummaryIsOneLine(s);
  }

  lemma FootIsLines()
    ensures AreLines(Foot())
  {
    assert '\n' !in NOT_BLOCKED;
    assert '\n' !in FULL_DETAILS;
  }
}
