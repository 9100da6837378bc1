/** Steps 7 to 9 of Execute: from whatever the adapter, the context and the normalizer did to a receipt,
    and the receipts of persistStructural. */
module Assembly {
  import opened Wrappers
  import opened Domain
  import opened Capabilities
  import opened Stores
  import opened Normalizers
  import Ulids

  const STACK_LIMIT := 4096

  /** adapter.Execute: a raw outcome (nil is None) and an error in any combination, or a panic. */
  datatype AdapterReturn = Answer(raw: Option<Raw>, err: Option<string>) | Panic(value: string, stack: string)

  /** The raw outcome after classification: the adapter's own, panicRaw, or ctxRaw. */
  datatype Seen =
    | FromAdapter(raw: Option<Raw>)
    | FromPanic(value: string, stack: string, structuralErr: Option<string>)
    | FromContext(timeout: bool, text: string)

  /** SafeExecute: a panic becomes a panicRaw without an error. */
  function SafeExecute(ret: AdapterReturn): (Seen, Option<string>) {
    match ret
    case Answer(raw, err) => (FromAdapter(raw), err)
    case Panic(value, stack) => (FromPanic(value, Truncate(stack, STACK_LIMIT), None), None)
  }

  function CtxOutcomeFor(e: CtxErr, fallback: Seen): Seen {
    match e
    case DeadlineExceeded(text) => FromContext(true, text)
    case Canceled(text) => FromContext(false, text)
    case OtherError(_) => fallback
  }

  /** Step 7b: the context outranks the adapter; an error without a raw outcome becomes a panicRaw, an error
      next to a raw outcome is ignored. */
  function ClassifyReturn(ret: AdapterReturn, ctxErr: Option<CtxErr>): (seen: Seen)
    ensures ctxErr.Some? && !ctxErr.value.OtherError? ==> seen.FromContext?
    ensures ctxErr.None? && ret.Panic? ==> seen.FromPanic? && seen.structuralErr.None? && |seen.stack| <= 4096
    ensures ctxErr.None? && ret.Answer? ==>
              if ret.raw.None? && ret.err.Some? then seen.FromPanic? && seen.structuralErr == ret.err
              else seen == FromAdapter(ret.raw)
    ensures seen.FromPanic? ==> |seen.stack| <= STACK_LIMIT
  {
    var (raw, err) := SafeExecute(ret);
    if ctxErr.Some? then CtxOutcomeFor(ctxErr.value, raw)
    else if err.Some? && raw == FromAdapter(None) then FromPanic("<nil>", "", err)
    else raw
  }

  datatype NormAnswer = NormReturned(r: Result<ExecutionResult>) | NormPanicked(value: string)

  function Bare(status: Status, errClass: ErrorClass, msg: string, meta: map<string, string>, dur: int, at: int): Draft {
    Draft(status, errClass.DefaultRetryHint(), errClass, msg, None, None, None, [], meta, 0, 0, dur, at)
  }

  function PanicMessage(value: string, structuralErr: Option<string>): string {
    if structuralErr.Some? then "adapter structural error: " + structuralErr.value else "panic recovered: " + value
  }

  function StackMeta(stack: string): map<string, string> {
    if |stack| > 0 then map["panic.stack" := stack] else map[]
  }

  /** Step 8. The hints the source writes out are the defaults of their classes. */
  ghost function ResultOf(seen: Seen, norm: NormAnswer, dur: int, at: int): Result<ExecutionResult> {
    match seen
    case FromContext(timeout, text) =>
      Build(if timeout then Bare(Timeout, TimeoutClass, text, map[], dur, at)
            else Bare(Cancelled, CancelledClass, text, map[], dur, at))
    case FromPanic(value, stack, structuralErr) =>
      Build(Bare(Failure, AdapterInternalError, PanicMessage(value, structuralErr), StackMeta(stack), dur, at))
    case FromAdapter(_) =>
      var answered :=
        if norm.NormReturned? then norm.r
        else
          var built := Build(Bare(Failure, NormalizationFailure, "normalizer panic: " + norm.value, map[], dur, at));
          if built.Ok? then built else Err("build normalizer-panic result: " + built.message);
      if answered.Ok? then answered
      else Build(Bare(Failure, NormalizationFailure, answered.message, map[], dur, at))
  }

  predicate Normalized(seen: Seen, norm: NormAnswer) {
    seen.FromAdapter? && norm.NormReturned? && norm.r.Ok?
  }

  lemma BareBuildsIff(status: Status, errClass: ErrorClass, msg: string, meta: map<string, string>, dur: int, at: int)
    requires status == Failure || (status == Timeout && errClass == TimeoutClass) || (status == Cancelled && errClass == CancelledClass)
    requires errClass != NoClass && ValueBytes(meta) <= MAX_ADAPTER_META_BYTES
    ensures Build(Bare(status, errClass, msg, meta, dur, at)).Ok? <==> dur >= 0 && (status == Failure ==> msg != "")
  {
  }

  lemma StackMetaFits(stack: string)
    requires |stack| <= STACK_LIMIT
    ensures ValueBytes(StackMeta(stack)) <= MAX_ADAPTER_META_BYTES
  {
    ValueBytesSingleton("panic.stack", stack);
  }

  /** A result is refused exactly when nothing was normalized and either the clock ran backwards or the
      normalizer's error was empty. */
  lemma ResultRefusedIff(seen: Seen, norm: NormAnswer, dur: int, at: int)
    requires seen.FromPanic? ==> |seen.stack| <= STACK_LIMIT
    ensures ResultOf(seen, norm, dur, at).Err? <==>
              !Normalized(seen, norm) &&
              (dur < 0 || (seen.FromAdapter? && norm.NormReturned? && norm.r.message == ""))
  {
    match seen {
      case FromContext(timeout, text) =>
        BareBuildsIff(Timeout, TimeoutClass, text, map[], dur, at);
        BareBuildsIff(Cancelled, CancelledClass, text, map[], dur, at);
      case FromPanic(value, stack, structuralErr) =>
        StackMetaFits(stack);
        BareBuildsIff(Failure, AdapterInternalError, PanicMessage(value, structuralErr), StackMeta(stack), dur, at);
      case FromAdapter(_) =>
        if norm.NormPanicked? {
          BareBuildsIff(Failure, NormalizationFailure, "normalizer panic: " + norm.value, map[], dur, at);
          var built := Build(Bare(Failure, NormalizationFailure, "normalizer panic: " + norm.value, map[], dur, at));
          if built.Err? {
            BareBuildsIff(Failure, NormalizationFailure, "build normalizer-panic result: " + built.message, map[], dur, at);
          }
        } else if norm.r.Err? {
          BareBuildsIff(Failure, NormalizationFailure, norm.r.message, map[], dur, at);
        }
    }
  }

  // ---------------------------------------------------------------- receipts

  /** NewExecutionReceipt on a decoded request, a generated handle and configured provenance. */
  function NewReceipt(id: string, req: Request, handle: Triple, result: ExecutionResult, tStart: int, tEnd: int): Result<Receipt> {
    if !Ulids.IsUlid(id) then Err("generate receipt_id")
    else if req.submittedAt == 0 then Err("timings.submitted_at is required")
    else Ok(Receipt(ReceiptId(id), req, handle, result, tStart, tEnd, None))
  }

  /** The capability a canonical string has its normalizer registered for. */
  function KindOf(canonical: string): Option<Kind> {
    if canonical == "shell.exec@v1" then Some(ShellExec)
    else if canonical == "git.status@v1" then Some(GitStatus)
    else if canonical == "git.clone@v1" then Some(GitClone)
    else if canonical == "git.diff@v1" then Some(GitDiff)
    else if canonical == "git.commit@v1" then Some(GitCommit')
    else if canonical == "git.worktree.create@v1" then Some(GitWorktree)
    else if canonical == "filesystem.read_file@v1" then Some(FsRead)
    else if canonical == "filesystem.write_file@v1" then Some(FsWrite)
    else if canonical == "http.request@v1" then Some(HttpRequest)
    else None
  }

  /** The canonical strings the nine normalizers are registered for. */
  lemma KindOfCapabilities()
    ensures KindOf("shell.exec@v1") == Some(ShellExec)
    ensures KindOf("git.status@v1") == Some(GitStatus)
    ensures KindOf("git.clone@v1") == Some(GitClone)
    ensures KindOf("git.diff@v1") == Some(GitDiff)
    ensures KindOf("git.commit@v1") == Some(GitCommit')
    ensures KindOf("git.worktree.create@v1") == Some(GitWorktree)
    ensures KindOf("filesystem.read_file@v1") == Some(FsRead)
    ensures KindOf("filesystem.write_file@v1") == Some(FsWrite)
    ensures KindOf("http.request@v1") == Some(HttpRequest)
  {
  }

  /** And to no other. */
  lemma KindOfOthers(canonical: string)
    ensures KindOf(canonical).Some? ==>
              canonical in {"shell.exec@v1", "git.status@v1", "git.clone@v1", "git.diff@v1", "git.commit@v1", "git.worktree.create@v1",
                            "filesystem.read_file@v1", "filesystem.write_file@v1", "http.request@v1"}
  {
  }

  /** Everything outside the service's control between dispatch and receipt. `at` is the normalizer's own
      clock reading. */
  datatype Env = Env(ret: AdapterReturn, ctxErr: Option<CtxErr>, normPanic: Option<string>, destExists: bool,
                     tStart: int, tEnd: int, at: int, id: string)

  ghost function NormalizerAnswer(limit: int, cap: Capability, kind: Option<Kind>, seen: Seen, env: Env): NormAnswer {
    if env.normPanic.Some? then NormPanicked(env.normPanic.value)
    else NormReturned(Normalize(kind, if seen.FromAdapter? then seen.raw else None, cap.allowsPartial, env.destExists, limit, env.at))
  }

  /** Steps 7b to 9 after a dispatch. */
  ghost function AssembleDispatched(limit: int, req: Request, cap: Capability, env: Env): Result<Receipt> {
    AssembleKind(limit, req, cap, KindOf(cap.id.Canonical()), env)
  }

  ghost function AssembleKind(limit: int, req: Request, cap: Capability, kind: Option<Kind>, env: Env): Result<Receipt> {
    var seen := ClassifyReturn(env.ret, env.ctxErr);
    var norm := NormalizerAnswer(limit, cap, kind, seen, env);
    var result := ResultOf(seen, norm, env.tEnd - env.tStart, env.tEnd);
    if result.Err? then Err(result.message)
    else NewReceipt(env.id, req, cap.id, result.value, env.tStart, env.tEnd)
  }

  /** persistStructural up to Save. An unusable capability name falls back to a placeholder. */
  ghost function AssembleStructural(req: Request, cause: ErrorClass, msg: string, handleOk: bool, id: string, now: int): Result<Receipt> {
    var result := Build(Bare(Failure, cause, msg, map[], 0, now));
    var handle := if ValidName(req.target.name) && ValidVersion(req.target.version) then req.target
                  else Triple(req.target.adapter, "unknown.capability", "v0");
    if result.Err? then Err(result.message)
    else if !handleOk then Err("persistStructural: build handle")
    else NewReceipt(id, req, handle, result.value, now, now)
  }

  /** The registered normalizer under recover. */
  method AskNormalizer(limit: int, cap: Capability, kind: Option<Kind>, seen: Seen, env: Env) returns (answer: NormAnswer)
    ensures answer == NormalizerAnswer(limit, cap, kind, seen, env)
  {
    if env.normPanic.Some? { return NormPanicked(env.normPanic.value); }
    var r := RunNormalizer(kind, if seen.FromAdapter? then seen.raw else None, cap.allowsPartial, env.destExists, limit, env.at);
    answer := NormReturned(r);
  }

  /** Step 8 as the source runs it: a switch over the classified outcome. */
  method BuildResult(seen: Seen, norm: NormAnswer, dur: int, at: int) returns (result: Result<ExecutionResult>)
    ensures result == ResultOf(seen, norm, dur, at)
  {
    match seen {
      case FromContext(timeout, text) =>
        if timeout {
          result := NewExecutionResult(Bare(Timeout, TimeoutClass, text, map[], dur, at));
        } else {
          result := NewExecutionResult(Bare(Cancelled, CancelledClass, text, map[], dur, at));
        }
      case FromPanic(value, stack, structuralErr) =>
        result := NewExecutionResult(
          Bare(Failure, AdapterInternalError, PanicMessage(value, structuralErr), StackMeta(stack), dur, at));
      case FromAdapter(_) =>
        if norm.NormPanicked? {
          result := NewExecutionResult(Bare(Failure, NormalizationFailure, "normalizer panic: " + norm.value, map[], dur, at));
          if result.Err? {
            result := Err("build normalizer-panic result: " + result.message);
          }
        } else {
          result := norm.r;
        }
        if result.Err? {
          result := NewExecutionResult(Bare(Failure, NormalizationFailure, result.message, map[], dur, at));
        }
    }
  }

  /** Step 7b as the source runs it. */
  method Reclassify(ret: AdapterReturn, ctxErr: Option<CtxErr>) returns (seen: Seen)
    ensures seen == ClassifyReturn(ret, ctxErr)
  {
    var (raw, adapterErr) := SafeExecute(ret);
    if ctxErr.Some? {
      raw := CtxOutcomeFor(ctxErr.value, raw);
      adapterErr := None;
    }
    if adapterErr.Some? && raw == FromAdapter(None) {
      raw := FromPanic("<nil>", "", adapterErr);
    }
    seen := raw;
  }

  /** Steps 7b to 9 as the source runs them. */
  method AssembleReceipt(limit: int, req: Request, cap: Capability, kind: Option<Kind>, env: Env) returns (r: Result<Receipt>)
    ensures r == AssembleKind(limit, req, cap, kind, env)
    ensures r.Ok? ==> r.value.request == req && r.value.persistedAt == None
  {
    hide ClassifyReturn, NormalizerAnswer, ResultOf;
    var seen := Reclassify(env.ret, env.ctxErr);
    var norm := AskNormalizer(limit, cap, kind, seen, env);
    var result := BuildResult(seen, norm, env.tEnd - env.tStart, env.tEnd);
    if result.Err? { return Err(result.message); }
    r := NewReceipt(env.id, req, cap.id, result.value, env.tStart, env.tEnd);
  }

  method AssembleStructuralReceipt(req: Request, cause: ErrorClass, msg: string, handleOk: bool, id: string, now: int)
    returns (r: Result<Receipt>)
    ensures r == AssembleStructural(req, cause, msg, handleOk, id, now)
    ensures r.Ok? ==> r.value.request == req && r.value.persistedAt == None
  {
    var result := NewExecutionResult(Bare(Failure, cause, msg, map[], 0, now));
    if result.Err? { return Err(result.message); }
    var handle := req.target;
    if !ValidName(handle.name) || !ValidVersion(handle.version) {
      handle := Triple(handle.adapter, "unknown.capability", "v0");
    }
    if !handleOk { return Err("persistStructural: build handle"); }
    r := NewReceipt(id, req, handle, result.value, now, now);
  }

  // ---------------------------------------------------------------- main results

  /** Receipt soundness: see Normalizers.Sound. */
  ghost predicate SoundReceipt(limit: int, r: Receipt) {
    Sound(r.result, KindOf(r.request.target.Canonical()), limit)
  }

  lemma BareSound(status: Status, errClass: ErrorClass, msg: string, meta: map<string, string>, dur: int, at: int,
                  kind: Option<Kind>, limit: int)
    requires limit >= 0 && Build(Bare(status, errClass, msg, meta, dur, at)).Ok?
    requires errClass != ExternalFailure  // no adapter answered, so no response status is at stake
    requires status == Failure ==> errClass != TimeoutClass && errClass != CancelledClass && !errClass.OtherClass?
    requires status == Failure || status == Timeout || status == Cancelled
    ensures Sound(Build(Bare(status, errClass, msg, meta, dur, at)).value, kind, limit)
  {
  }

  lemma ResultIsSound(seen: Seen, norm: NormAnswer, dur: int, at: int, kind: Option<Kind>, limit: int)
    requires limit >= 0 && ResultOf(seen, norm, dur, at).Ok?
    requires Normalized(seen, norm) ==> Sound(norm.r.value, kind, limit)
    ensures Sound(ResultOf(seen, norm, dur, at).value, kind, limit)
  {
    match seen {
      case FromContext(timeout, text) =>
        if timeout {
          BareSound(Timeout, TimeoutClass, text, map[], dur, at, kind, limit);
        } else {
          BareSound(Cancelled, CancelledClass, text, map[], dur, at, kind, limit);
        }
      case FromPanic(value, stack, structuralErr) =>
        BareSound(Failure, AdapterInternalError, PanicMessage(value, structuralErr), StackMeta(stack), dur, at, kind, limit);
      case FromAdapter(_) =>
        if norm.NormPanicked? {
          var built := Build(Bare(Failure, NormalizationFailure, "normalizer panic: " + norm.value, map[], dur, at));
          if built.Ok? {
            BareSound(Failure, NormalizationFailure, "normalizer panic: " + norm.value, map[], dur, at, kind, limit);
          } else {
            BareSound(Failure, NormalizationFailure, "build normalizer-panic result: " + built.message, map[], dur, at, kind, limit);
          }
        } else if norm.r.Err? {
          BareSound(Failure, NormalizationFailure, norm.r.message, map[], dur, at, kind, limit);
        }
    }
  }

  lemma KindReceiptIsSound(limit: int, req: Request, cap: Capability, kind: Option<Kind>, env: Env)
    requires limit > 0 && AssembleKind(limit, req, cap, kind, env).Ok?
    ensures var r := AssembleKind(limit, req, cap, kind, env).value;
            Sound(r.result, kind, limit) && r.request == req && r.persistedAt == None
  {
    hide ClassifyReturn, Normalize, ResultOf, Sound;
    var seen := ClassifyReturn(env.ret, env.ctxErr);
    var norm := NormalizerAnswer(limit, cap, kind, seen, env);
    NormalizersAreSound(kind, if seen.FromAdapter? then seen.raw else None, cap.allowsPartial, env.destExists, limit, env.at);
    ResultIsSound(seen, norm, env.tEnd - env.tStart, env.tEnd, kind, limit);
  }

  /** A failed result of the service's own making. */
  predicate Own(r: ExecutionResult, errClass: ErrorClass, msg: string) {
    r.status == Failure && r.errClass == errClass && r.retry == NonRetryable && r.errMsg == Truncate(msg, 4096)
  }

  lemma NothingToNormalize(kind: Option<Kind>, allowsPartial: bool, exists': bool, limit: int, now: int)
    ensures Normalize(kind, None, allowsPartial, exists', limit, now).Err?
  {
  }

  lemma ResultTells(seen: Seen, norm: NormAnswer, dur: int, at: int)
    requires ResultOf(seen, norm, dur, at).Ok?
    ensures var r := ResultOf(seen, norm, dur, at).value;
            match seen
            case FromContext(timeout, text) =>
              && r.errMsg == Truncate(text, 4096)
              && (timeout ==> r.status == Timeout && r.errClass == TimeoutClass && r.retry == Retryable)
              && (!timeout ==> r.status == Cancelled && r.errClass == CancelledClass && r.retry == NonRetryable)
            case FromPanic(value, stack, structuralErr) =>
              && r.meta == (if stack == "" then map[] else map["panic.stack" := stack])
              && Own(r, AdapterInternalError,
                     if structuralErr.Some? then "adapter structural error: " + structuralErr.value else "panic recovered: " + value)
            case FromAdapter(_) =>
              if norm.NormPanicked? then Own(r, NormalizationFailure, "normalizer panic: " + norm.value)
              else if norm.r.Ok? then r == norm.r.value
              else Own(r, NormalizationFailure, norm.r.message)
  {
    hide ValueBytes;
  }

  /** The receipt tells what happened, case by case: the context first, then a panic, a bare error, a panic of the
      normalizer, nothing at all, and otherwise the normalizer's own answer, an error beside a raw outcome
      notwithstanding. */
  lemma ReceiptTellsWhatHappened(limit: int, req: Request, cap: Capability, kind: Option<Kind>, env: Env)
    requires AssembleKind(limit, req, cap, kind, env).Ok?
    ensures var r := AssembleKind(limit, req, cap, kind, env).value.result;
            if env.ctxErr.Some? && env.ctxErr.value.DeadlineExceeded? then
              r.status == Timeout && r.errClass == TimeoutClass && r.retry == Retryable && r.errMsg == Truncate(env.ctxErr.value.text, 4096)
            else if env.ctxErr.Some? && env.ctxErr.value.Canceled? then
              r.status == Cancelled && r.errClass == CancelledClass && r.retry == NonRetryable && r.errMsg == Truncate(env.ctxErr.value.text, 4096)
            else if env.ret.Panic? then
              && Own(r, AdapterInternalError, "panic recovered: " + env.ret.value)
              && r.meta == (if env.ret.stack == "" then map[] else map["panic.stack" := Truncate(env.ret.stack, 4096)])
            else if env.ret.raw.None? && env.ret.err.Some? && env.ctxErr.None? then
              Own(r, AdapterInternalError, "adapter structural error: " + env.ret.err.value)
            else if env.normPanic.Some? then Own(r, NormalizationFailure, "normalizer panic: " + env.normPanic.value)
            else if env.ret.raw.None? then r.status == Failure && r.errClass == NormalizationFailure && r.retry == NonRetryable
            else
              var n := Normalize(kind, env.ret.raw, cap.allowsPartial, env.destExists, limit, env.at);
              if n.Ok? then r == n.value else Own(r, NormalizationFailure, n.message)
  {
    hide ResultOf, Normalize;
    var seen := ClassifyReturn(env.ret, env.ctxErr);
    var norm := NormalizerAnswer(limit, cap, kind, seen, env);
    ResultTells(seen, norm, env.tEnd - env.tStart, env.tEnd);
    NothingToNormalize(kind, cap.allowsPartial, env.destExists, limit, env.at);
  }

  /** It carries the generated id, the request, the capability and the clock readings around the dispatch, and a
      result of the service's own making ends when the dispatch ended. */
  lemma ReceiptCarries(limit: int, req: Request, cap: Capability, kind: Option<Kind>, env: Env)
    requires AssembleKind(limit, req, cap, kind, env).Ok?
    ensures var receipt := AssembleKind(limit, req, cap, kind, env).value;
            && receipt.id == ReceiptId(env.id) && receipt.request == req && receipt.handle == cap.id
            && receipt.startedAt == env.tStart && receipt.completedAt == env.tEnd && receipt.persistedAt == None
    ensures var r := AssembleKind(limit, req, cap, kind, env).value.result;
            var seen := ClassifyReturn(env.ret, env.ctxErr);
            Normalized(seen, NormalizerAnswer(limit, cap, kind, seen, env))
            || (r.completedAt == env.tEnd && r.durationMs == (env.tEnd - env.tStart) / 1_000_000)
  {
    hide Normalize, ClassifyReturn, ValueBytes;
  }

  /** Whatever the adapter, the context and the normalizer did, an assembled receipt is sound. */
  lemma DispatchedReceiptIsSound(limit: int, req: Request, cap: Capability, env: Env)
    requires limit > 0 && cap.id.Canonical() == req.target.Canonical()
    requires AssembleDispatched(limit, req, cap, env).Ok?
    ensures var r := AssembleDispatched(limit, req, cap, env).value;
            SoundReceipt(limit, r) && r.request == req && r.persistedAt == None
  {
    KindReceiptIsSound(limit, req, cap, KindOf(cap.id.Canonical()), env);
  }

  /** persistStructural's receipt, exactly: assembled iff the message is not empty, the handle and the id are
      there and the request was submitted; then a non-retryable failure of the cause, on the request's own
      capability if its name and version are well formed and on the placeholder otherwise. */
  lemma StructuralReceiptIs(req: Request, cause: ErrorClass, msg: string, handleOk: bool, id: string, now: int)
    requires cause in {CapabilityUnknown, ValidationFailure, AdapterInternalError}
    ensures var r := AssembleStructural(req, cause, msg, handleOk, id, now);
            && (r.Ok? <==> msg != "" && handleOk && Ulids.IsUlid(id) && req.submittedAt != 0)
            && (r.Ok? ==>
                  && Own(r.value.result, cause, msg) && r.value.result.durationMs == 0 && r.value.result.completedAt == now
                  && r.value.id == ReceiptId(id) && r.value.request == req && r.value.persistedAt == None
                  && r.value.startedAt == now && r.value.completedAt == now
                  && r.value.handle == (if ValidName(req.target.name) && ValidVersion(req.target.version) then req.target
                                        else Triple(req.target.adapter, "unknown.capability", "v0")))
  {
  }

  lemma StructuralReceiptIsSound(limit: int, req: Request, cause: ErrorClass, msg: string, handleOk: bool, id: string, now: int)
    requires limit >= 0 && cause in {CapabilityUnknown, ValidationFailure, AdapterInternalError}
    requires AssembleStructural(req, cause, msg, handleOk, id, now).Ok?
    ensures SoundReceipt(limit, AssembleStructural(req, cause, msg, handleOk, id, now).value)
    ensures AssembleStructural(req, cause, msg, handleOk, id, now).value.result.retry == NonRetryable
    ensures AssembleStructural(req, cause, msg, handleOk, id, now).value.request == req
    ensures AssembleStructural(req, cause, msg, handleOk, id, now).value.persistedAt == None
  {
    BareSound(Failure, cause, msg, map[], 0, now, KindOf(req.target.Canonical()), limit);
  }

  /** A dispatched execution of any capability reaches Save exactly when its id is a ULID, its submission
      time is set, and the clock did not run backwards unless the normalizer had a result anyway: the
      adapter, the context and the production normalizers cannot prevent it. */
  lemma AssemblyReachesSaveIff(limit: int, req: Request, cap: Capability, kind: Option<Kind>, env: Env)
    requires limit > 0
    ensures AssembleKind(limit, req, cap, kind, env).Ok? <==>
              && Ulids.IsUlid(env.id) && req.submittedAt != 0
              && (env.tStart <= env.tEnd ||
                  Normalized(ClassifyReturn(env.ret, env.ctxErr),
                             NormalizerAnswer(limit, cap, kind, ClassifyReturn(env.ret, env.ctxErr), env)))
  {
    hide Normalize, ResultOf, Sound;
    var seen := ClassifyReturn(env.ret, env.ctxErr);
    var norm := NormalizerAnswer(limit, cap, kind, seen, env);
    NormalizersAreSound(kind, if seen.FromAdapter? then seen.raw else None, cap.allowsPartial, env.destExists, limit, env.at);
    ResultRefusedIff(seen, norm, env.tEnd - env.tStart, env.tEnd);
  }
}
