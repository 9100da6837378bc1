/** The execution result: enums, streams, artifacts and the validating constructor
    (internal/domain/execution). Strings stand for byte strings, one char per byte;
    instants and durations are integers in nanoseconds. */
module Domain {
  import opened Wrappers
  import Int64

  // The enums are Go strings, so a value outside the closed set is representable.
  datatype Status = Success | Failure | Timeout | Cancelled | Partial | OtherStatus(text: string)

  datatype RetryHint = Retryable | NonRetryable | Unknown | OtherHint(text: string)

  datatype ErrorClass =
    | NoClass
    | ValidationFailure | CapabilityUnknown | PayloadSchemaFailure | PreconditionFailure
    | ExternalFailure | TimeoutClass | CancelledClass | Interrupted
    | NormalizationFailure | AdapterInternalError
    | OtherClass(text: string)
  {
    function DefaultRetryHint(): RetryHint {
      match this
      case TimeoutClass => Retryable
      case Interrupted => Retryable
      case NoClass => Unknown
      case ExternalFailure => Unknown
      case OtherClass(_) => Unknown
      case _ => NonRetryable
    }
  }

  /** The default hint by class, for every class: retryable exactly for timeout and interrupted, unknown exactly for
      external failures, no class and undeclared classes. */
  lemma DefaultHintTable(e: ErrorClass)
    ensures e.DefaultRetryHint() == Retryable <==> e == TimeoutClass || e == Interrupted
    ensures e.DefaultRetryHint() == Unknown <==> e == ExternalFailure || e == NoClass || e.OtherClass?
    ensures e.DefaultRetryHint() == NonRetryable <==>
              e in {ValidationFailure, CapabilityUnknown, PayloadSchemaFailure, PreconditionFailure, CancelledClass,
                    NormalizationFailure, AdapterInternalError}
  {
  }

  const MAX_ERROR_MESSAGE_BYTES := 4 * 1024
  const MAX_ADAPTER_META_BYTES := 8 * 1024
  const MAX_ARTIFACT_ATTRIBUTES_BYTES := 2 * 1024

  // ---------------------------------------------------------------- total size of map values

  /** Total byte length of the values of `m`, independent of any iteration order. */
  ghost function ValueBytes(m: map<string, string>): nat
    decreases m.Keys
  {
    if m == map[] then 0
    else
      var k :| k in m;
      |m[k]| + ValueBytes(m - {k})
  }

  /** Any key may be taken out first. */
  lemma {:induction false} ValueBytesRemove(m: map<string, string>, k: string)
    requires k in m
    ensures ValueBytes(m) == |m[k]| + ValueBytes(m - {k})
    decreases m.Keys
  {
    var first :| first in m && ValueBytes(m) == |m[first]| + ValueBytes(m - {first});
    if first != k {
      ValueBytesRemove(m - {first}, k);
      ValueBytesRemove(m - {k}, first);
      assert m - {first} - {k} == m - {k} - {first};
    }
  }

  lemma ValueBytesInsert(m: map<string, string>, k: string, v: string)
    requires k !in m
    ensures ValueBytes(m[k := v]) == |v| + ValueBytes(m)
  {
    ValueBytesRemove(m[k := v], k);
    assert m[k := v] - {k} == m;
  }

  lemma ValueBytesAtMost(m: map<string, string>, k: string, v: string)
    ensures ValueBytes(m[k := v]) <= |v| + ValueBytes(m)
  {
    ValueBytesRemove(m[k := v], k);
    assert m[k := v] - {k} == m - {k};
    if k in m {
      ValueBytesRemove(m, k);
    } else {
      assert m - {k} == m;
    }
  }

  lemma ValueBytesSingleton(k: string, v: string)
    ensures ValueBytes(map[k := v]) == |v|
  {
    ValueBytesInsert(map[], k, v);
    assert map[][k := v] == map[k := v];
  }

  /** The accumulation loop shared by NewExecutionResult and NewArtifact; Go's map order is arbitrary. */
  method SumValueBytes(m: map<string, string>) returns (total: nat)
    ensures total == ValueBytes(m)
  {
    total := 0;
    var rest := m;
    while rest != map[]
      invariant total + ValueBytes(rest) == ValueBytes(m)
      decreases rest.Keys
    {
      var k :| k in rest;
      ValueBytesRemove(rest, k);
      total := total + |rest[k]|;
      rest := rest - {k};
    }
  }

  // ---------------------------------------------------------------- streams

  datatype StreamMode = NoMode | Inline | Truncated

  datatype StreamRef = StreamRef(mode: StreamMode, data: string, sizeBytes: int, truncatedAt: int)

  /** The Go zero value, which callers keep when they drop NewStreamRef's error. */
  const ZERO_STREAM := StreamRef(NoMode, "", 0, 0)

  function NewStreamRef(data: string, totalSize: int, inlineLimit: int): (r: Result<StreamRef>)
    ensures r.Ok? <==> inlineLimit > 0 && |data| <= totalSize
    ensures r.Ok? ==> |r.value.data| <= inlineLimit && r.value.data <= data && r.value.sizeBytes == totalSize
    ensures r.Ok? ==> (r.value.mode == Truncated <==> totalSize > inlineLimit)
    ensures r.Ok? && r.value.mode != Truncated ==> r.value.mode == Inline && r.value.data == data
    ensures r.Ok? && r.value.mode == Truncated ==>
              r.value.truncatedAt == |r.value.data| == (if |data| < inlineLimit then |data| else inlineLimit)
  {
    if inlineLimit <= 0 then Err("inlineLimit must be > 0")
    else if totalSize < 0 then Err("totalSize must be >= 0")
    else if |data| > totalSize then Err("data length exceeds totalSize")
    else if totalSize == 0 && |data| == 0 then Ok(StreamRef(Inline, "", 0, 0))
    else if totalSize <= inlineLimit then Ok(StreamRef(Inline, data, totalSize, 0))
    else
      var n := if |data| < inlineLimit then |data| else inlineLimit;
      Ok(StreamRef(Truncated, data[..n], totalSize, n))
  }

  /** The documentation says an inline stream is complete; the constructor only ensures it is no
      longer than the stream. It is complete exactly when the caller passed all of it. */
  lemma InlineStreamIsCompleteIff(data: string, totalSize: int, inlineLimit: int)
    requires NewStreamRef(data, totalSize, inlineLimit).Ok?
    requires totalSize <= inlineLimit
    ensures var s := NewStreamRef(data, totalSize, inlineLimit).value;
            s.mode == Inline && (|s.data| == s.sizeBytes <==> |data| == totalSize)
    ensures var short := NewStreamRef("a", 2, 16).value;
            short.mode == Inline && |short.data| != short.sizeBytes
  {
  }

  // ---------------------------------------------------------------- artifacts

  datatype ArtifactType = File | Directory | GitRef | GitCommit | HTTPResponseSnapshot

  datatype Artifact = Artifact(kind: ArtifactType, uri: string, sizeBytes: int, checksum: string,
                               attributes: map<string, string>)

  ghost function ArtifactOf(kind: ArtifactType, uri: string, sizeBytes: int, checksum: string,
                            attrs: map<string, string>): Result<Artifact>
  {
    if uri == "" then Err("artifact uri must not be empty")
    else if sizeBytes < 0 then Err("artifact size_bytes must be >= 0")
    else if ValueBytes(attrs) > MAX_ARTIFACT_ATTRIBUTES_BYTES then Err("artifact attributes exceed 2048 bytes")
    else Ok(Artifact(kind, uri, sizeBytes, checksum, attrs))
  }

  method NewArtifact(kind: ArtifactType, uri: string, sizeBytes: int, checksum: string,
                     attrs: map<string, string>) returns (r: Result<Artifact>)
    ensures r == ArtifactOf(kind, uri, sizeBytes, checksum, attrs)
  {
    if uri == "" { return Err("artifact uri must not be empty"); }
    if sizeBytes < 0 { return Err("artifact size_bytes must be >= 0"); }
    var total := SumValueBytes(attrs);
    if total > MAX_ARTIFACT_ATTRIBUTES_BYTES { return Err("artifact attributes exceed 2048 bytes"); }
    r := Ok(Artifact(kind, uri, sizeBytes, checksum, attrs));
  }

  // ---------------------------------------------------------------- results

  datatype ExecutionResult = ExecutionResult(
    status: Status, retry: RetryHint, errClass: ErrorClass, errMsg: string,
    stdout: Option<StreamRef>, stderr: Option<StreamRef>, exitCode: Option<int>,
    artifacts: seq<Artifact>, meta: map<string, string>,
    bytesRead: int, bytesWritten: int, durationMs: int, completedAt: int)

  /** The constructor's arguments; `duration` is still in nanoseconds. */
  datatype Draft = Draft(
    status: Status, retry: RetryHint, errClass: ErrorClass, errMsg: string,
    stdout: Option<StreamRef>, stderr: Option<StreamRef>, exitCode: Option<int>,
    artifacts: seq<Artifact>, meta: map<string, string>,
    bytesRead: int, bytesWritten: int, duration: int, completedAt: int)

  /** The status checks of the constructor; None means they pass. */
  function StatusObjection(d: Draft): Option<string> {
    match d.status
    case Success =>
      if d.errClass != NoClass || d.errMsg != "" then Some("status=success must not carry an error") else None
    case Timeout =>
      if d.errClass != TimeoutClass then Some("status=timeout must carry error_class=timeout") else None
    case Cancelled =>
      if d.errClass != CancelledClass then Some("status=cancelled must carry error_class=cancelled") else None
    case OtherStatus(_) => Some("invalid execution_status")
    case _ =>
      if d.errClass == NoClass then Some("status must carry a non-empty error_class")
      else if d.errMsg == "" then Some("status must carry a non-empty error_message")
      else None
  }

  function Truncate(s: string, n: nat): (t: string)
    ensures t <= s && |t| == (if |s| <= n then |s| else n)
  {
    if |s| > n then s[..n] else s
  }

  /** What NewExecutionResult returns. */
  ghost function Build(d: Draft): Result<ExecutionResult> {
    if StatusObjection(d).Some? then Err(StatusObjection(d).value)
    else if d.retry.OtherHint? then Err("invalid retry_hint")
    else if ValueBytes(d.meta) > MAX_ADAPTER_META_BYTES then Err("adapter_meta total value bytes exceeds max")
    else if d.bytesRead < 0 then Err("bytes_read must be >= 0")
    else if d.bytesWritten < 0 then Err("bytes_written must be >= 0")
    else if d.duration < 0 then Err("duration must be >= 0")
    else Ok(ExecutionResult(d.status, d.retry, d.errClass, Truncate(d.errMsg, MAX_ERROR_MESSAGE_BYTES),
                            d.stdout, d.stderr, d.exitCode, d.artifacts, d.meta,
                            d.bytesRead, d.bytesWritten, Int64.Milliseconds(d.duration), d.completedAt))
  }

  method NewExecutionResult(d: Draft) returns (r: Result<ExecutionResult>)
    ensures r == Build(d)
  {
    var objection := StatusObjection(d);
    if objection.Some? { return Err(objection.value); }
    if d.retry.OtherHint? { return Err("invalid retry_hint"); }
    var errMsg := Truncate(d.errMsg, MAX_ERROR_MESSAGE_BYTES);
    var total := SumValueBytes(d.meta);
    if total > MAX_ADAPTER_META_BYTES { return Err("adapter_meta total value bytes exceeds max"); }
    if d.bytesRead < 0 { return Err("bytes_read must be >= 0"); }
    if d.bytesWritten < 0 { return Err("bytes_written must be >= 0"); }
    if d.duration < 0 { return Err("duration must be >= 0"); }
    r := Ok(ExecutionResult(d.status, d.retry, d.errClass, errMsg,
                            d.stdout, d.stderr, d.exitCode, d.artifacts, d.meta,
                            d.bytesRead, d.bytesWritten, Int64.Milliseconds(d.duration), d.completedAt));
  }

  /** The documented status/class table (all of it, not only what the constructor checks). */
  predicate StatusTable(r: ExecutionResult) {
    match r.status
    case Success => r.errClass == NoClass && r.errMsg == ""
    case Timeout => r.errClass == TimeoutClass
    case Cancelled => r.errClass == CancelledClass
    case OtherStatus(_) => false
    case _ =>
      && r.errMsg != ""
      && r.errClass != NoClass && r.errClass != TimeoutClass && r.errClass != CancelledClass
      && !r.errClass.OtherClass?
  }

  ghost predicate WithinCaps(r: ExecutionResult, inlineLimit: int) {
    && |r.errMsg| <= 4096
    && ValueBytes(r.meta) <= 8192
    && (r.stdout.Some? ==> |r.stdout.value.data| <= inlineLimit)
    && (r.stderr.Some? ==> |r.stderr.value.data| <= inlineLimit)
  }

  /** The constructor enforces the documented table except for one row: a failure or partial result
      may carry timeout, cancelled or an undeclared class. */
  lemma BuildMeetsStatusTableIff(d: Draft)
    requires Build(d).Ok?
    ensures StatusTable(Build(d).value) <==>
            (d.status in {Failure, Partial} ==>
               d.errClass != TimeoutClass && d.errClass != CancelledClass && !d.errClass.OtherClass?)
  {
  }

  lemma BuildAcceptsFailureWithTimeoutClass()
    ensures var d := Draft(Failure, Unknown, TimeoutClass, "late", None, None, None, [], map[], 0, 0, 0, 0);
            Build(d).Ok? && !StatusTable(Build(d).value)
  {
  }

  /** An accepted result carries every argument in its own place. */
  lemma BuildKeeps(d: Draft)
    requires Build(d).Ok?
    ensures var r := Build(d).value;
            && r.status == d.status && r.retry == d.retry && r.errClass == d.errClass && r.errMsg == Truncate(d.errMsg, 4096)
            && r.stdout == d.stdout && r.stderr == d.stderr && r.exitCode == d.exitCode && r.artifacts == d.artifacts
            && r.meta == d.meta && r.bytesRead == d.bytesRead && r.bytesWritten == d.bytesWritten && r.completedAt == d.completedAt
  {
  }

  /** Exactly what the constructor accepts, and what it does to the message. */
  lemma BuildAcceptsIff(d: Draft)
    ensures Build(d).Ok? <==>
              && (d.status == Success ==> d.errClass == NoClass && d.errMsg == "")
              && (d.status == Timeout ==> d.errClass == TimeoutClass)
              && (d.status == Cancelled ==> d.errClass == CancelledClass)
              && (d.status == Failure || d.status == Partial ==> d.errClass != NoClass && d.errMsg != "")
              && !d.status.OtherStatus? && !d.retry.OtherHint?
              && ValueBytes(d.meta) <= 8192 && d.bytesRead >= 0 && d.bytesWritten >= 0 && d.duration >= 0
    ensures Build(d).Ok? ==> Build(d).value.errMsg == (if |d.errMsg| <= 4096 then d.errMsg else d.errMsg[..4096])
  {
  }

  /** The constructor's arguments that would rebuild a result. */
  function Redraft(r: ExecutionResult): Draft {
    Draft(r.status, r.retry, r.errClass, r.errMsg, r.stdout, r.stderr, r.exitCode, r.artifacts, r.meta,
          r.bytesRead, r.bytesWritten, r.durationMs * Int64.MILLISECOND, r.completedAt)
  }

  /** Nothing is lost or moved but the message's tail and the fraction of a millisecond: rebuilding an accepted
      result from its own fields gives the same result. */
  lemma RebuildIsIdentity(d: Draft)
    requires Build(d).Ok?
    ensures Build(Redraft(Build(d).value)) == Build(d)
    ensures Build(d).value.errMsg <= d.errMsg
    ensures 0 <= d.duration - Build(d).value.durationMs * 1_000_000 < 1_000_000
  {
  }

  /** StripStreams drops both streams and nothing else. */
  function StripStreams(r: ExecutionResult): (s: ExecutionResult)
    ensures s.stdout == None && s.stderr == None
    ensures s.(stdout := r.stdout, stderr := r.stderr) == r
    ensures StatusTable(s) <==> StatusTable(r)
  {
    r.(stdout := None, stderr := None)
  }
}
