/**
 The validation report the bridge hands back, and the check that reads it out
 of an untyped JSON value (src/validation-feedback.ts).
 */
module Validation {
  import opened Common

  const NORM_VALIDATE_API := "norm-spec/validate/v1"

  datatype Json =
    | Null
    | Boolean(truth: bool)
    | Number(number: real)
    | String(text: string)
    | Array(items: seq<Json>)
    | Object(members: map<string, Json>)

  datatype Status = AllGood | Warned | Erred

  datatype Diagnostic = Diagnostic(code: string, message: string, field: Option<string>, suggestion: Option<string>)

  datatype FileResult = FileResult(path: string, status: Status, errors: seq<Diagnostic>, warnings: seq<Diagnostic>)

  datatype Summary = Summary(files: nat, errors: nat, warnings: nat)

  datatype Response = Response(root: string, results: seq<FileResult>, summary: Summary)

  /** Everything that is wrong with a report is reported as this one failure. */
  datatype Invalid = ValidationInvalid

  function Member(v: Json, key: string): Option<Json> {
    if v.Object? && key in v.members then Some(v.members[key]) else None
  }

  function ParseText(v: Option<Json>): Result<string, Invalid> {
    if v.Some? && v.value.String? then Ok(v.value.text) else Err(ValidationInvalid)
  }

  function ParseNullableText(v: Option<Json>): Result<Option<string>, Invalid> {
    if v.Some? && v.value.Null? then Ok(None)
    else if v.Some? && v.value.String? then Ok(Some(v.value.text))
    else Err(ValidationInvalid)
  }

  function ParseItems(v: Option<Json>): Result<seq<Json>, Invalid> {
    if v.Some? && v.value.Array? then Ok(v.value.items) else Err(ValidationInvalid)
  }

  function ParseCount(v: Option<Json>): Result<nat, Invalid> {
    if v.Some? && v.value.Number? && v.value.number.Floor as real == v.value.number && v.value.number >= 0.0
    then Ok(v.value.number.Floor)
    else Err(ValidationInvalid)
  }

  function ParseStatus(v: Option<Json>): Result<Status, Invalid> {
    if v == Some(String("ok")) then Ok(AllGood)
    else if v == Some(String("warning")) then Ok(Warned)
    else if v == Some(String("error")) then Ok(Erred)
    else Err(ValidationInvalid)
  }

  function ParseAll<T>(parse: Json -> Result<T, Invalid>, items: seq<Json>): Result<seq<T>, Invalid> {
    if items == [] then Ok([])
    else
      match (parse(items[0]), ParseAll(parse, items[1..]))
      case (Ok(first), Ok(rest)) => Ok([first] + rest)
      case _ => Err(ValidationInvalid)
  }

  function ParseDiagnostic(v: Json): Result<Diagnostic, Invalid> {
    match (ParseText(Member(v, "code")), ParseText(Member(v, "message")),
           ParseNullableText(Member(v, "field")), ParseNullableText(Member(v, "suggestion")))
    case (Ok(code), Ok(message), Ok(field), Ok(suggestion)) => Ok(Diagnostic(code, message, field, suggestion))
    case _ => Err(ValidationInvalid)
  }

  function ExpectedStatus(errors: seq<Diagnostic>, warnings: seq<Diagnostic>): Status {
    if |errors| > 0 then Erred else if |warnings| > 0 then Warned else AllGood
  }

  function ParseResult(v: Json): Result<FileResult, Invalid> {
    match (ParseText(Member(v, "path")), ParseStatus(Member(v, "status")),
           ParseItems(Member(v, "errors")), ParseItems(Member(v, "warnings")))
    case (Ok(path), Ok(status), Ok(errors), Ok(warnings)) => (
      match (ParseAll(ParseDiagnostic, errors), ParseAll(ParseDiagnostic, warnings))
      case (Ok(es), Ok(ws)) =>
        if status != ExpectedStatus(es, ws) then Err(ValidationInvalid) else Ok(FileResult(path, status, es, ws))
      case _ => Err(ValidationInvalid))
    case _ => Err(ValidationInvalid)
  }

  function ParseSummary(v: Json): Result<Summary, Invalid> {
    match (ParseCount(Member(v, "files")), ParseCount(Member(v, "errors")), ParseCount(Member(v, "warnings")))
    case (Ok(files), Ok(errors), Ok(warnings)) => Ok(Summary(files, errors, warnings))
    case _ => Err(ValidationInvalid)
  }

  function ErrorCount(results: seq<FileResult>): nat {
    if results == [] then 0 else |results[0].errors| + ErrorCount(results[1..])
  }

  function WarningCount(results: seq<FileResult>): nat {
    if results == [] then 0 else |results[0].warnings| + WarningCount(results[1..])
  }

  function ParseResponse(v: Json): Result<Response, Invalid> {
    if Member(v, "apiVersion") != Some(String(NORM_VALIDATE_API)) then Err(ValidationInvalid)
    else
      match (ParseText(Member(v, "root")), ParseItems(Member(v, "results")), Member(v, "summary"))
      case (Ok(root), Ok(items), Some(summary)) => (
        match (ParseAll(ParseResult, items), ParseSummary(summary))
        case (Ok(results), Ok(counts)) =>
          if counts == Summary(|results|, ErrorCount(results), WarningCount(results))
          then Ok(Response(root, results, counts))
          else Err(ValidationInvalid)
        case _ => Err(ValidationInvalid))
      case _ => Err(ValidationInvalid)
  }

  /** A report that agrees with itself: every status and every count follows from the findings. */
  ghost predicate Consistent(r: Response) {
    && r.summary == Summary(|r.results|, ErrorCount(r.results), WarningCount(r.results))
    && AllFit(r.results)
  }

  predicate AllFit(fs: seq<FileResult>) {
    forall i :: 0 <= i < |fs| ==> StatusFits(fs[i])
  }

  predicate StatusFits(f: FileResult) {
    match f.status
    case Erred => f.errors != []
    case Warned => f.errors == [] && f.warnings != []
    case AllGood => f.errors == [] && f.warnings == []
  }

  // The other direction: a report written as JSON, member by member.

  function NullableText(o: Option<string>): Json {
    match o
    case None => Null
    case Some(s) => String(s)
  }

  function StatusName(s: Status): string {
    match s
    case AllGood => "ok"
    case Warned => "warning"
    case Erred => "error"
  }

  function EncodeDiagnostic(d: Diagnostic): Json {
    Object(map["code" := String(d.code), "message" := String(d.message),
               "field" := NullableText(d.field), "suggestion" := NullableText(d.suggestion)])
  }

  function EncodeDiagnostics(ds: seq<Diagnostic>): seq<Json> {
    if ds == [] then [] else [EncodeDiagnostic(ds[0])] + EncodeDiagnostics(ds[1..])
  }

  function EncodeResult(f: FileResult): Json {
    Object(map["path" := String(f.path), "status" := String(StatusName(f.status)),
               "errors" := Array(EncodeDiagnostics(f.errors)), "warnings" := Array(EncodeDiagnostics(f.warnings))])
  }

  function EncodeResults(fs: seq<FileResult>): seq<Json> {
    if fs == [] then [] else [EncodeResult(fs[0])] + EncodeResults(fs[1..])
  }

  function EncodeSummary(s: Summary): Json {
    Object(map["files" := Number(s.files as real), "errors" := Number(s.errors as real),
               "warnings" := Number(s.warnings as real)])
  }

  function EncodeResponse(r: Response): Json {
    Object(map["apiVersion" := String(NORM_VALIDATE_API), "root" := String(r.root),
               "results" := Array(EncodeResults(r.results)), "summary" := EncodeSummary(r.summary)])
  }

  lemma DiagnosticRoundTrip(d: Diagnostic)
    ensures ParseDiagnostic(EncodeDiagnostic(d)) == Ok(d)
  {
    var v := EncodeDiagnostic(d);
    assert Member(v, "code") == Some(String(d.code));
    assert Member(v, "message") == Some(String(d.message));
    assert Member(v, "field") == Some(NullableText(d.field));
    assert Member(v, "suggestion") == Some(NullableText(d.suggestion));
  }

  lemma {:induction false} DiagnosticsRoundTrip(ds: seq<Diagnostic>)
    ensures ParseAll(ParseDiagnostic, EncodeDiagnostics(ds)) == Ok(ds)
  {
    if ds != [] {
      DiagnosticRoundTrip(ds[0]);
      DiagnosticsRoundTrip(ds[1..]);
      assert EncodeDiagnostics(ds)[1..] == EncodeDiagnostics(ds[1..]);
      assert ds == [ds[0]] + ds[1..];
    }
  }

  lemma StatusNamesDiffer()
    ensures "ok" != "warning" && "ok" != "error" && "warning" != "error"
  {
    assert |"ok"| == 2 && |"warning"| == 7 && |"error"| == 5;
  }

  lemma ResultRoundTrip(f: FileResult)
    ensures ParseResult(EncodeResult(f)) == if StatusFits(f) then Ok(f) else Err(ValidationInvalid)
  {
    var v := EncodeResult(f);
    assert "errors"[0] != "status"[0];
    assert Member(v, "path") == Some(String(f.path));
    assert Member(v, "status") == Some(String(StatusName(f.status)));
    assert Member(v, "errors") == Some(Array(EncodeDiagnostics(f.errors)));
    assert Member(v, "warnings") == Some(Array(EncodeDiagnostics(f.warnings)));
    StatusNamesDiffer();
    assert ParseStatus(Member(v, "status")) == Ok(f.status);
    DiagnosticsRoundTrip(f.errors);
    DiagnosticsRoundTrip(f.warnings);
  }

  lemma AllFitSplits(fs: seq<FileResult>)
    requires fs != []
    ensures AllFit(fs) <==> StatusFits(fs[0]) && AllFit(fs[1..])
  {
    if StatusFits(fs[0]) && AllFit(fs[1..]) {
      forall i | 1 <= i < |fs| ensures StatusFits(fs[i]) {
        assert fs[i] == fs[1..][i - 1];
      }
    }
  }

  /** A list is read back exactly when each of its items is. */
  lemma {:induction false} ListRoundTrip(parse: Json -> Result<FileResult, Invalid>, items: seq<Json>,
                                         fs: seq<FileResult>)
    requires |items| == |fs|
    requires forall i :: 0 <= i < |items| ==>
      parse(items[i]) == if StatusFits(fs[i]) then Ok(fs[i]) else Err(ValidationInvalid)
    ensures ParseAll(parse, items) == if AllFit(fs) then Ok(fs) else Err(ValidationInvalid)
  {
    if fs != [] {
      ListRoundTrip(parse, items[1..], fs[1..]);
      AllFitSplits(fs);
      assert fs == [fs[0]] + fs[1..];
    }
  }

  lemma {:induction false} EncodedOneByOne(fs: seq<FileResult>)
    ensures |EncodeResults(fs)| == |fs|
    ensures forall i :: 0 <= i < |fs| ==> EncodeResults(fs)[i] == EncodeResult(fs[i])
  {
    if fs != [] { EncodedOneByOne(fs[1..]); }
  }

  lemma {:induction false} ResultsRoundTrip(fs: seq<FileResult>)
    ensures ParseAll(ParseResult, EncodeResults(fs))
         == if AllFit(fs) then Ok(fs) else Err(ValidationInvalid)
  {
    EncodedOneByOne(fs);
    forall i | 0 <= i < |fs|
      ensures ParseResult(EncodeResults(fs)[i]) == if StatusFits(fs[i]) then Ok(fs[i]) else Err(ValidationInvalid)
    {
      ResultRoundTrip(fs[i]);
    }
    ListRoundTrip(ParseResult, EncodeResults(fs), fs);
  }

  lemma SummaryRoundTrip(s: Summary)
    ensures ParseSummary(EncodeSummary(s)) == Ok(s)
  {
    var v := EncodeSummary(s);
    assert Member(v, "files") == Some(Number(s.files as real));
    assert Member(v, "errors") == Some(Number(s.errors as real));
    assert Member(v, "warnings") == Some(Number(s.warnings as real));
  }

  /** Reading back a written report gives the report exactly when it is consistent, and fails otherwise. */
  lemma ResponseRoundTrip(r: Response)
    ensures ParseResponse(EncodeResponse(r)) == if Consistent(r) then Ok(r) else Err(ValidationInvalid)
  {
    var v := EncodeResponse(r);
    assert "results"[0] != "summary"[0];
    assert Member(v, "apiVersion") == Some(String(NORM_VALIDATE_API));
    assert Member(v, "root") == Some(String(r.root));
    assert Member(v, "results") == Some(Array(EncodeResults(r.results)));
    assert Member(v, "summary") == Some(EncodeSummary(r.summary));
    ResultsRoundTrip(r.results);
    SummaryRoundTrip(r.summary);
  }

  lemma {:induction false} ParsedResultsFit(items: seq<Json>)
    requires ParseAll(ParseResult, items).Ok?
    ensures AllFit(ParseAll(ParseResult, items).value)
  {
    if items != [] {
      ParsedResultsFit(items[1..]);
    }
  }

  /** Whatever the bridge sent, a report that is accepted agrees with itself. */
  lemma ParsedIsConsistent(v: Json)
    requires ParseResponse(v).Ok?
    ensures Consistent(ParseResponse(v).value)
  {
    ParsedResultsFit(Member(v, "results").value.items);
  }

  // What a JSON value says, member by member, without regard to how it is read.

  predicate Says(v: Json, key: string, member: Json) {
    v.Object? && key in v.members && v.members[key] == member
  }

  predicate SaysDiagnostic(v: Json, d: Diagnostic) {
    && Says(v, "code", String(d.code)) && Says(v, "message", String(d.message))
    && Says(v, "field", NullableText(d.field)) && Says(v, "suggestion", NullableText(d.suggestion))
  }

  ghost predicate SaysList<T(!new)>(says: (Json, T) -> bool, v: Json, key: string, values: seq<T>) {
    exists items :: Says(v, key, Array(items)) && SaysAll(says, items, values)
  }

  predicate SaysAll<T>(says: (Json, T) -> bool, items: seq<Json>, values: seq<T>) {
    |items| == |values| && forall i :: 0 <= i < |items| ==> says(items[i], values[i])
  }

  ghost predicate SaysResult(v: Json, f: FileResult) {
    && Says(v, "path", String(f.path)) && Says(v, "status", String(StatusName(f.status)))
    && SaysList(SaysDiagnostic, v, "errors", f.errors) && SaysList(SaysDiagnostic, v, "warnings", f.warnings)
  }

  predicate SaysSummary(v: Json, s: Summary) {
    && Says(v, "files", Number(s.files as real)) && Says(v, "errors", Number(s.errors as real))
    && Says(v, "warnings", Number(s.warnings as real))
  }

  ghost predicate SaysResponse(v: Json, r: Response) {
    && Says(v, "apiVersion", String(NORM_VALIDATE_API)) && Says(v, "root", String(r.root))
    && SaysList(SaysResult, v, "results", r.results)
    && SaysCounts(v, r.summary)
  }

  lemma DiagnosticIsRead(v: Json, d: Diagnostic)
    ensures ParseDiagnostic(v) == Ok(d) <==> SaysDiagnostic(v, d)
  {
  }

  lemma {:induction false} AllAreRead<T>(parse: Json -> Result<T, Invalid>, says: (Json, T) -> bool,
                                         items: seq<Json>, values: seq<T>)
    requires forall i, value :: 0 <= i < |items| ==> (parse(items[i]) == Ok(value) <==> says(items[i], value))
    ensures ParseAll(parse, items) == Ok(values) <==> SaysAll(says, items, values)
  {
    if items != [] && values != [] {
      AllAreRead(parse, says, items[1..], values[1..]);
      SaysAllSplits(says, items, values);
      assert parse(items[0]) == Ok(values[0]) <==> says(items[0], values[0]);
      if ParseAll(parse, items) == Ok(values) {
        var first, rest := parse(items[0]).value, ParseAll(parse, items[1..]).value;
        assert values == [first] + rest && values[0] == first && values[1..] == rest;
      }
      if SaysAll(says, items, values) {
        assert values == [values[0]] + values[1..];
      }
    }
  }

  lemma SaysAllSplits<T>(says: (Json, T) -> bool, items: seq<Json>, values: seq<T>)
    requires items != [] && values != []
    ensures SaysAll(says, items, values) <==> says(items[0], values[0]) && SaysAll(says, items[1..], values[1..])
  {
    if says(items[0], values[0]) && SaysAll(says, items[1..], values[1..]) {
      forall i | 0 <= i < |items| ensures says(items[i], values[i]) {
        if i > 0 { assert says(items[1..][i - 1], values[1..][i - 1]); }
      }
    }
    if SaysAll(says, items, values) {
      forall i | 0 <= i < |items| - 1 ensures says(items[1..][i], values[1..][i]) {
        assert says(items[i + 1], values[i + 1]);
      }
    }
  }

  lemma {:induction false} DiagnosticsAreRead(items: seq<Json>, ds: seq<Diagnostic>)
    ensures ParseAll(ParseDiagnostic, items) == Ok(ds) <==> SaysAll(SaysDiagnostic, items, ds)
  {
    forall i, d | 0 <= i < |items| ensures ParseDiagnostic(items[i]) == Ok(d) <==> SaysDiagnostic(items[i], d) {
      DiagnosticIsRead(items[i], d);
    }
    AllAreRead(ParseDiagnostic, SaysDiagnostic, items, ds);
  }

  lemma ListIsRead(v: Json, key: string, ds: seq<Diagnostic>)
    ensures ParseItems(Member(v, key)).Ok? && ParseAll(ParseDiagnostic, ParseItems(Member(v, key)).value) == Ok(ds)
      <==> SaysList(SaysDiagnostic, v, key, ds)
  {
    if ParseItems(Member(v, key)).Ok? {
      var items := ParseItems(Member(v, key)).value;
      assert Says(v, key, Array(items));
      DiagnosticsAreRead(items, ds);
    }
  }

  lemma StatusIsRead(v: Json, s: Status)
    ensures ParseStatus(Member(v, "status")) == Ok(s) <==> Says(v, "status", String(StatusName(s)))
  {
    StatusNamesDiffer();
  }

  /** A file's result is read if and only if that is what the value says and its status follows from its findings. */
  lemma ResultIsRead(v: Json, f: FileResult)
    ensures ParseResult(v) == Ok(f) <==> SaysResult(v, f) && StatusFits(f)
  {
    ListIsRead(v, "errors", f.errors);
    ListIsRead(v, "warnings", f.warnings);
    StatusIsRead(v, f.status);
  }

  lemma {:induction false} ResultsAreRead(items: seq<Json>, fs: seq<FileResult>)
    ensures ParseAll(ParseResult, items) == Ok(fs)
      <==> SaysAll(SaysResult, items, fs) && AllFit(fs)
  {
    var says := (v, f) => SaysResult(v, f) && StatusFits(f);
    forall i, f | 0 <= i < |items| ensures ParseResult(items[i]) == Ok(f) <==> says(items[i], f) {
      ResultIsRead(items[i], f);
    }
    AllAreRead(ParseResult, says, items, fs);
    assert SaysAll(says, items, fs)
      <==> SaysAll(SaysResult, items, fs) && AllFit(fs);
  }

  lemma SummaryIsRead(v: Json, s: Summary)
    ensures ParseSummary(v) == Ok(s) <==> SaysSummary(v, s)
  {
    CountIsRead(v, "files", s.files);
    CountIsRead(v, "errors", s.errors);
    CountIsRead(v, "warnings", s.warnings);
  }

  lemma CountIsRead(v: Json, key: string, n: nat)
    ensures ParseCount(Member(v, key)) == Ok(n) <==> Says(v, key, Number(n as real))
  {
  }

  lemma ResultListIsRead(v: Json, fs: seq<FileResult>)
    ensures ParseItems(Member(v, "results")).Ok?
            && ParseAll(ParseResult, ParseItems(Member(v, "results")).value) == Ok(fs)
      <==> SaysList(SaysResult, v, "results", fs) && AllFit(fs)
  {
    if ParseItems(Member(v, "results")).Ok? {
      var items := ParseItems(Member(v, "results")).value;
      assert Says(v, "results", Array(items));
      ResultsAreRead(items, fs);
    }
  }

  ghost predicate SaysCounts(v: Json, s: Summary) {
    exists summary :: Says(v, "summary", summary) && SaysSummary(summary, s)
  }

  lemma CountsAreRead(v: Json, s: Summary)
    ensures Member(v, "summary").Some? && ParseSummary(Member(v, "summary").value) == Ok(s) <==> SaysCounts(v, s)
  {
    if Member(v, "summary").Some? {
      var summary := Member(v, "summary").value;
      assert Says(v, "summary", summary);
      SummaryIsRead(summary, s);
    }
  }

  /**
   A report is read out of a JSON value if and only if it is what the value says,
   in every member and under the right API version, and it agrees with itself.
   */
  lemma ReportIsRead(v: Json, r: Response)
    ensures ParseResponse(v) == Ok(r) <==> SaysResponse(v, r) && Consistent(r)
  {
    ResultListIsRead(v, r.results);
    CountsAreRead(v, r.summary);
  }
}
