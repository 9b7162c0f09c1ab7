/**
 The frames of `dsh-norm-spec/bridge/v1`, after JSON decoding. A line that the
 decoder refuses is kept as the reason it is refused for.
 */
module Protocol {
  import opened Common
  import opened Text

  type Id = string

  const MAX_REQUEST_ID_BYTES := 128
  const MAX_TRACKED_REQUEST_IDS := 65536
  const CHANNEL_CAPACITY := 64
  const MAX_PROMPT_TARGETS := 4

  /** The semantic operations: at most one of them runs at a time. */
  datatype Work = Collect | PromptContext | Validate | Scan | LayoutIndex | PromptContextMulti

  datatype Verb = Status | Perform(work: Work) | Cancel | Shutdown | Unsupported

  /** The `params` member by shape; `NoParams` is an absent, null or empty object. */
  datatype Params =
    | NoParams
    | Root(root: string)
    | RootTarget(root: string, target: string)
    | RootTargets(root: string, targets: seq<string>)
    | RequestId(requestId: Id)
    | OtherParams

  datatype Request = Request(id: Id, verb: Verb, params: Params)

  datatype Line = NotARequest | WrongApiVersion | WrongType | Frame(request: Request)

  datatype ErrorCode =
    | FrameInvalid
    | ProtocolMismatch
    | RequestIdInvalid
    | RequestIdReused
    | RequestLimit
    | ShuttingDown
    | MethodUnsupported
    | ParamsInvalid
    | Busy
    | RequestNotActive
    | OperationOrphaned
    | OperationMismatch
    | InputClosed
    | InputInvalid
    | Upstream(code: string)

  datatype Value =
    | Nothing
    | PayloadIdentity
    | CancelReport(requestId: Id, accepted: bool)
    | WorkValue(json: string)

  datatype Outcome = Answer(value: Value) | Cancelled | Error(code: ErrorCode)

  datatype OutFrame = Ready | Fatal(code: ErrorCode) | Response(id: Id, outcome: Outcome)

  /** The ids answered by a run of output frames, in order. */
  function ResponseIds(frames: seq<OutFrame>): seq<Id> {
    if frames == [] then []
    else
      var last := frames[|frames| - 1];
      ResponseIds(frames[..|frames| - 1]) + if last.Response? then [last.id] else []
  }

  lemma ResponseIdsSnoc(frames: seq<OutFrame>, f: OutFrame)
    ensures ResponseIds(frames + [f]) == ResponseIds(frames) + if f.Response? then [f.id] else []
  {
    assert (frames + [f])[..|frames|] == frames;
  }

  lemma {:induction false} ResponseIdsConcat(a: seq<OutFrame>, b: seq<OutFrame>)
    ensures ResponseIds(a + b) == ResponseIds(a) + ResponseIds(b)
  {
    if b == [] {
      assert a + b == a;
    } else {
      var init, last := b[..|b| - 1], b[|b| - 1];
      ResponseIdsConcat(a, init);
      assert a + b == (a + init) + [last];
      ResponseIdsSnoc(a + init, last);
      ResponseIdsSnoc(init, last);
      assert b == init + [last];
    }
  }

  lemma {:induction false} ResponseIdsContain(frames: seq<OutFrame>, f: OutFrame)
    requires f in frames && f.Response?
    ensures f.id in ResponseIds(frames)
  {
    var k :| 0 <= k < |frames| && frames[k] == f;
    if k < |frames| - 1 {
      assert f == frames[..|frames| - 1][k];
      ResponseIdsContain(frames[..|frames| - 1], f);
    }
  }

  /**
   The target set a multi-target prompt context accepts: one to four entries,
   none empty, none repeated.
   */
  function ValidatePromptTargets(targets: seq<string>): (r: Result<(), ErrorCode>)
    ensures r.Ok? <==>
      && 1 <= |targets| <= MAX_PROMPT_TARGETS
      && (forall i :: 0 <= i < |targets| ==> targets[i] != "")
      && Distinct(targets)
  {
    var unique := set t | t in targets;
    DistinctIffNoneLost(targets);
    if targets == [] then Err(ParamsInvalid)
    else if |targets| > MAX_PROMPT_TARGETS then Err(ParamsInvalid)
    else if "" in targets then Err(ParamsInvalid)
    else if |unique| != |targets| then Err(ParamsInvalid)
    else Ok(())
  }

  /** Collecting a sequence into a set loses no element exactly when none repeats. */
  lemma {:induction false} DistinctIffNoneLost<T>(s: seq<T>)
    ensures |set t | t in s| <= |s|
    ensures |set t | t in s| == |s| <==> Distinct(s)
  {
    if s != [] {
      var init, last := s[..|s| - 1], s[|s| - 1];
      DistinctIffNoneLost(init);
      var before := set t | t in init;
      assert (set t | t in s) == before + {last};
      if last in init {
        var k :| 0 <= k < |init| && init[k] == last;
        assert s[k] == s[|s| - 1];
        assert before + {last} == before;
      } else {
        assert Distinct(s) <==> Distinct(init) by {
          if Distinct(init) {
            forall i, j | 0 <= i < j < |s| ensures s[i] != s[j] {
              if j == |s| - 1 {
                assert s[i] == init[i];
              } else {
                assert s[i] == init[i] && s[j] == init[j];
              }
            }
          }
          if Distinct(s) {
            forall i, j | 0 <= i < j < |init| ensures init[i] != init[j] {
              assert init[i] == s[i] && init[j] == s[j];
            }
          }
        }
      }
    }
  }

  /** Whether `request_params` or `require_no_params` takes these parameters. */
  predicate Accepts(verb: Verb, params: Params) {
    match verb
    case Status => params.NoParams?
    case Shutdown => params.NoParams?
    case Cancel => params.RequestId?
    case Unsupported => false
    case Perform(Collect) => params.RootTarget?
    case Perform(PromptContext) => params.RootTarget?
    case Perform(PromptContextMulti) => params.RootTargets? && ValidatePromptTargets(params.targets).Ok?
    case Perform(_) => params.Root?
  }
}
