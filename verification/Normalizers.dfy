/** The nine production normalizers: adapter-specific raw outcomes to execution results. A raw outcome
    may hold anything an adapter can produce; the destination's existence on disk is an input. */
module Normalizers {
  import opened Wrappers
  import opened Domain
  import Int64

  /** A Go error, as far as errors.Is(_, context.DeadlineExceeded) can tell. */
  datatype CtxErr = DeadlineExceeded(text: string) | Canceled(text: string) | OtherError(text: string)

  /** The fields every raw outcome shares. */
  datatype Common = Common(ctxErr: Option<CtxErr>, validation: string, runErr: Option<string>, durationMs: int)

  datatype Raw =
    | StatusRaw(common: Common, clean: bool, branch: string, head: string, entries: nat)
    | CloneRaw(common: Common, fetchOK: bool, checkoutOK: bool, repoPath: string, headSHA: string, refResolved: string)
    | DiffRaw(common: Common, patch: string, truncated: bool, totalBytes: int)
    | CommitRaw(common: Common, commitSHA: string, branch: string)
    | WorktreeRaw(common: Common, worktreePath: string, branch: string, headSHA: string)
    | HttpRaw(common: Common, statusCode: int, headers: map<string, string>, body: string, bodyTruncated: bool,
              totalBytes: int, redirectCount: int, expectedStatus: seq<int>)
    | ExecRaw(common: Common, exitCode: int, stdout: string, stderr: string, exitSuccess: seq<int>)
    | ReadRaw(common: Common, data: string, truncated: bool, totalBytes: int)
    | WriteRaw(common: Common, resolvedPath: string, bytesWritten: int, checksumHex: string, mode: nat)

  // ---------------------------------------------------------------- text

  function Digits(n: nat): string {
    if n < 10 then [('0' as int + n) as char] else Digits(n / 10) + [('0' as int + n % 10) as char]
  }

  function Decimal(n: int): string {
    if n < 0 then "-" + Digits(-n) else Digits(n)
  }

  function Octal(n: nat): string {
    if n < 8 then [('0' as int + n) as char] else Octal(n / 8) + [('0' as int + n % 8) as char]
  }

  function Truth(b: bool): string {
    if b then "true" else "false"
  }

  function Listed(codes: seq<int>): string {
    if codes == [] then "" else if |codes| == 1 then Decimal(codes[0]) else Decimal(codes[0]) + " " + Listed(codes[1..])
  }

  predicate AllDigits(s: string) {
    forall i :: 0 <= i < |s| ==> '0' <= s[i] <= '9'
  }

  function Decimals(s: string): nat
    requires AllDigits(s)
  {
    if s == "" then 0 else Decimals(s[..|s| - 1]) * 10 + (s[|s| - 1] as int - '0' as int)
  }

  /** The number a decimal text denotes. */
  function ReadDecimal(s: string): Option<int> {
    var digits := if s != "" && s[0] == '-' then s[1..] else s;
    if digits == "" || !AllDigits(digits) then None
    else if s[0] == '-' then Some(0 - Decimals(digits))
    else Some(Decimals(digits))
  }

  lemma {:induction false} DigitsRead(n: nat)
    ensures Digits(n) != "" && AllDigits(Digits(n)) && Decimals(Digits(n)) == n
  {
    if n >= 10 {
      DigitsRead(n / 10);
      var rest, last := Digits(n / 10), ('0' as int + n % 10) as char;
      assert Digits(n) == rest + [last];
      assert (rest + [last])[..|rest|] == rest;
    }
  }

  /** Reading a printed number gives it back. */
  lemma DecimalReads(n: int)
    ensures ReadDecimal(Decimal(n)) == Some(n)
  {
    if n < 0 {
      DigitsRead(-n);
      assert ("-" + Digits(-n))[1..] == Digits(-n);
    } else {
      DigitsRead(n);
      assert Digits(n)[0] != '-';
    }
  }

  predicate AllOctal(s: string) {
    forall i :: 0 <= i < |s| ==> '0' <= s[i] <= '7'
  }

  function Octals(s: string): nat
    requires AllOctal(s)
  {
    if s == "" then 0 else Octals(s[..|s| - 1]) * 8 + (s[|s| - 1] as int - '0' as int)
  }

  lemma {:induction false} OctalReads(n: nat)
    ensures Octal(n) != "" && AllOctal(Octal(n)) && Octals(Octal(n)) == n
  {
    if n >= 8 {
      OctalReads(n / 8);
      var rest, last := Octal(n / 8), ('0' as int + n % 8) as char;
      assert Octal(n) == rest + [last];
      assert (rest + [last])[..|rest|] == rest;
    }
  }

  /** The printed truth value. */
  lemma TruthReads(b: bool)
    ensures (Truth(b) == "true" <==> b) && (Truth(b) == "false" <==> !b)
  {
    assert |"true"| != |"false"|;
  }

  // ---------------------------------------------------------------- shared branches

  function Plain(status: Status, retry: RetryHint, errClass: ErrorClass, msg: string, durationMs: int, now: int): Draft {
    Draft(status, retry, errClass, msg, None, None, None, [], map[], 0, 0, Int64.FromMilliseconds(durationMs), now)
  }

  /** Priority 1: a context error, split by errors.Is. */
  function CtxDraft(e: CtxErr, durationMs: int, now: int): Draft {
    if e.DeadlineExceeded? then Plain(Timeout, Retryable, TimeoutClass, e.text, durationMs, now)
    else Plain(Cancelled, NonRetryable, CancelledClass, e.text, durationMs, now)
  }

  /** Priorities 1 to 3: context error, validation, adapter error. None means the success branch. */
  function Preempted(c: Common, now: int): Option<Draft> {
    if c.ctxErr.Some? then Some(CtxDraft(c.ctxErr.value, c.durationMs, now))
    else if c.validation != "" then
      Some(Plain(Failure, NonRetryable, ValidationFailure, c.validation, c.durationMs, now))
    else if c.runErr.Some? then
      Some(Plain(Failure, Unknown, ExternalFailure, c.runErr.value, c.durationMs, now))
    else None
  }

  function Succeeded(c: Common, now: int): Draft {
    Plain(Success, NonRetryable, NoClass, "", c.durationMs, now)
  }

  /** The normalizers drop NewStreamRef's error and keep the zero value. */
  function StreamOrZero(data: string, totalSize: int, limit: int): StreamRef {
    var r := NewStreamRef(data, totalSize, limit);
    if r.Ok? then r.value else ZERO_STREAM
  }

  /** Append the artifact if its constructor accepts it. */
  ghost function Plus(artifacts: seq<Artifact>, r: Result<Artifact>): seq<Artifact> {
    if r.Ok? then artifacts + [r.value] else artifacts
  }

  // ---------------------------------------------------------------- git

  /** NormalizeStatus */
  function StatusDraft(r: Raw, now: int): Draft
    requires r.StatusRaw?
  {
    var p := Preempted(r.common, now);
    if p.Some? then p.value
    else Succeeded(r.common, now).(
      meta := map["branch" := r.branch, "head" := r.head, "clean" := Truth(r.clean), "entries_count" := Decimal(r.entries)])
  }

  /** PartialClassification.Classify */
  function Classify(allowsPartial: bool, hasArtifacts: bool, hasUncompletedStep: bool, reverted: bool): (s: Status)
    ensures s == Partial <==> allowsPartial && hasArtifacts && hasUncompletedStep && !reverted
    ensures s == Success <==> allowsPartial && !hasUncompletedStep
    ensures s in {Success, Failure, Partial}
  {
    if !allowsPartial then Failure
    else if !hasUncompletedStep then Success
    else if !hasArtifacts then Failure
    else if reverted then Failure
    else Partial
  }

  /** The directory, commit and ref a clone left behind; `exists` is os.Stat on the destination. */
  ghost function CloneArtifacts(r: Raw, exists': bool): seq<Artifact>
    requires r.CloneRaw?
  {
    var dir := if r.repoPath != "" && (r.fetchOK || r.common.runErr.Some?) && exists'
               then Plus([], ArtifactOf(Directory, "file://" + r.repoPath, 0, "", map["path" := r.repoPath])) else [];
    var commit := if r.headSHA != ""
                  then Plus(dir, ArtifactOf(GitCommit, "git://" + r.repoPath + "#" + r.headSHA, 0, "", map["sha" := r.headSHA]))
                  else dir;
    if r.refResolved != ""
    then Plus(commit, ArtifactOf(GitRef, "git://" + r.repoPath + "@" + r.refResolved, 0, "", map["ref" := r.refResolved]))
    else commit
  }

  function CloneMeta(r: Raw): map<string, string>
    requires r.CloneRaw?
  {
    var m := map["fetch_ok" := Truth(r.fetchOK), "checkout_ok" := Truth(r.checkoutOK)];
    var m1 := if r.repoPath != "" then m["repo_path" := r.repoPath] else m;
    var m2 := if r.refResolved != "" then m1["ref_resolved" := r.refResolved] else m1;
    if r.headSHA != "" then m2["head_sha" := r.headSHA] else m2
  }

  /** NormalizeClone */
  ghost function CloneDraft(r: Raw, allowsPartial: bool, exists': bool, now: int): Draft
    requires r.CloneRaw?
  {
    var c := r.common;
    var artifacts := CloneArtifacts(r, exists');
    var status := Classify(allowsPartial, |artifacts| > 0, !r.checkoutOK, false);
    var base := Succeeded(c, now).(artifacts := artifacts, meta := CloneMeta(r));
    if c.ctxErr.Some? then CtxDraft(c.ctxErr.value, c.durationMs, now)
    else if c.validation != "" then Plain(Failure, NonRetryable, ValidationFailure, c.validation, c.durationMs, now)
    else if status == Success then base
    else if status == Partial then
      base.(status := Partial, retry := Unknown, errClass := ExternalFailure,
            errMsg := "clone partial: fetch succeeded but checkout failed"
                      + if c.runErr.Some? then " - " + c.runErr.value else "")
    else
      base.(status := Failure, retry := Unknown, errClass := ExternalFailure,
            errMsg := if c.runErr.Some? then c.runErr.value else "clone failed")
  }

  /** NormalizeDiff */
  function DiffDraft(r: Raw, limit: int, now: int): Draft
    requires r.DiffRaw?
  {
    var p := Preempted(r.common, now);
    if p.Some? then p.value
    else Succeeded(r.common, now).(
      stdout := Some(StreamOrZero(r.patch, r.totalBytes, limit)),
      meta := map["truncated" := Truth(r.truncated), "total_bytes" := Decimal(r.totalBytes)],
      bytesRead := r.totalBytes)
  }

  ghost function CommitArtifacts(r: Raw): seq<Artifact>
    requires r.CommitRaw?
  {
    var commit := Plus([], ArtifactOf(GitCommit, "git://commit/" + r.commitSHA, 0, "",
                                      map["sha" := r.commitSHA, "branch" := r.branch]));
    if r.branch != ""
    then Plus(commit, ArtifactOf(GitRef, "git://ref/" + r.branch, 0, "", map["ref" := r.branch, "sha" := r.commitSHA]))
    else commit
  }

  /** NormalizeCommit */
  ghost function CommitDraft(r: Raw, now: int): Draft
    requires r.CommitRaw?
  {
    var p := Preempted(r.common, now);
    if p.Some? then p.value
    else Succeeded(r.common, now).(
      artifacts := CommitArtifacts(r), meta := map["commit_sha" := r.commitSHA, "branch" := r.branch])
  }

  ghost function WorktreeArtifacts(r: Raw): seq<Artifact>
    requires r.WorktreeRaw?
  {
    var dir := if r.worktreePath != ""
               then Plus([], ArtifactOf(Directory, "file://" + r.worktreePath, 0, "", map["path" := r.worktreePath])) else [];
    var commit := if r.headSHA != ""
                  then Plus(dir, ArtifactOf(GitCommit, "git://" + r.worktreePath + "#" + r.headSHA, 0, "", map["sha" := r.headSHA]))
                  else dir;
    if r.branch != ""
    then Plus(commit, ArtifactOf(GitRef, "git://" + r.worktreePath + "@" + r.branch, 0, "",
                                 map["ref" := r.branch, "sha" := r.headSHA]))
    else commit
  }

  /** NormalizeWorktreeCreate */
  ghost function WorktreeDraft(r: Raw, now: int): Draft
    requires r.WorktreeRaw?
  {
    var p := Preempted(r.common, now);
    var m := map["worktree_path" := r.worktreePath, "head_sha" := r.headSHA];
    if p.Some? then p.value
    else Succeeded(r.common, now).(
      artifacts := WorktreeArtifacts(r), meta := if r.branch != "" then m["branch" := r.branch] else m)
  }

  // ---------------------------------------------------------------- http

  /** Our own keys, then every response header under a prefix. */
  function HttpMeta(r: Raw): map<string, string>
    requires r.HttpRaw?
  {
    map["status_code" := Decimal(r.statusCode), "body_truncated" := Truth(r.bodyTruncated),
        "total_bytes" := Decimal(r.totalBytes), "redirect_count" := Decimal(r.redirectCount)]
    + Prefixed(r.headers)
  }

  /** Each header under its prefixed name. */
  function Prefixed(headers: map<string, string>): map<string, string> {
    map h | h in (set k | k in headers :: "header." + k) && 7 <= |h| && h[7..] in headers :: headers[h[7..]]
  }

  lemma PrefixedInsert(headers: map<string, string>, k: string, v: string)
    ensures Prefixed(headers[k := v]) == Prefixed(headers)["header." + k := v]
  {
    var a, b := Prefixed(headers[k := v]), Prefixed(headers)["header." + k := v];
    assert ("header." + k)[7..] == k;
    forall h
      ensures h in a <==> h in b
      ensures h in a ==> a[h] == b[h]
    {
      if h in a || h in b {
        assert h == "header." + h[7..] by {
          var x :| h == "header." + x;
          assert ("header." + x)[7..] == x;
        }
      }
    }
  }

  predicate HttpAccepted(statusCode: int, expected: seq<int>) {
    if |expected| > 0 then statusCode in expected else 200 <= statusCode < 300
  }

  predicate ServerError(statusCode: int) {
    500 <= statusCode < 600
  }

  /** httpreq Normalize */
  function HttpDraft(r: Raw, limit: int, now: int): Draft
    requires r.HttpRaw?
  {
    var p := Preempted(r.common, now);
    var base := Succeeded(r.common, now).(
      stdout := Some(StreamOrZero(r.body, r.totalBytes, limit)), meta := HttpMeta(r), bytesRead := r.totalBytes);
    if p.Some? then p.value
    else if HttpAccepted(r.statusCode, r.expectedStatus) then base
    else base.(status := Failure, retry := if ServerError(r.statusCode) then Retryable else Unknown,
               errClass := ExternalFailure,
               errMsg := "unexpected status " + Decimal(r.statusCode)
                         + if |r.expectedStatus| > 0 then " (expected [" + Listed(r.expectedStatus) + "])" else "")
  }

  /** The search loop of the http and shell normalizers. */
  method ContainsCode(codes: seq<int>, code: int) returns (found: bool)
    ensures found <==> code in codes
  {
    found := false;
    for i := 0 to |codes|
      invariant !found && code !in codes[..i]
    {
      if codes[i] == code {
        return true;
      }
      assert codes[..i + 1] == codes[..i] + [codes[i]];
    }
    assert codes[..|codes|] == codes;
  }

  lemma UpdateRight(a: map<string, string>, b: map<string, string>, k: string, v: string)
    ensures (a + b)[k := v] == a + b[k := v]
  {
  }

  lemma MoveEntry(a: map<string, string>, b: map<string, string>, k: string)
    requires k in b && a.Keys !! b.Keys
    ensures a[k := b[k]] + (b - {k}) == a + b
    ensures a[k := b[k]].Keys !! (b - {k}).Keys
  {
  }

  /** The header loop, in whatever order the map yields its keys. */
  method AddHeaders(own: map<string, string>, headers: map<string, string>) returns (meta: map<string, string>)
    ensures meta == own + Prefixed(headers)
  {
    meta := own;
    var rest := headers;
    ghost var done: map<string, string> := map[];
    assert own + Prefixed(done) == own;
    while rest != map[]
      invariant done + rest == headers && done.Keys !! rest.Keys
      invariant meta == own + Prefixed(done)
      decreases rest.Keys
    {
      var k :| k in rest;
      PrefixedInsert(done, k, rest[k]);
      UpdateRight(own, Prefixed(done), "header." + k, rest[k]);
      MoveEntry(done, rest, k);
      meta := meta["header." + k := rest[k]];
      done := done[k := rest[k]];
      rest := rest - {k};
    }
    assert done == headers;
  }

  // ---------------------------------------------------------------- shell

  function StreamRefOrNil(data: string, limit: int): Option<StreamRef> {
    if limit <= 0 then None
    else
      var r := NewStreamRef(data, |data|, limit);
      if r.Ok? then Some(r.value) else None
  }

  /** shell Normalize */
  function ExecDraft(r: Raw, limit: int, now: int): Draft
    requires r.ExecRaw?
  {
    var c := r.common;
    var base := (if c.ctxErr.Some? then CtxDraft(c.ctxErr.value, c.durationMs, now) else Succeeded(c, now)).(
      stdout := StreamRefOrNil(r.stdout, limit), stderr := StreamRefOrNil(r.stderr, limit),
      exitCode := Some(r.exitCode), bytesRead := |r.stdout|, bytesWritten := |r.stderr|);
    if c.ctxErr.Some? then base
    else if c.validation != "" then Plain(Failure, NonRetryable, ValidationFailure, c.validation, c.durationMs, now)
    else if r.exitCode in r.exitSuccess then base
    else base.(status := Failure, retry := Unknown, errClass := ExternalFailure,
               errMsg := "exit code " + Decimal(r.exitCode) + " not in exit_success list [" + Listed(r.exitSuccess) + "]")
  }

  // ---------------------------------------------------------------- filesystem

  /** NormalizeRead */
  function ReadDraft(r: Raw, limit: int, now: int): Draft
    requires r.ReadRaw?
  {
    var p := Preempted(r.common, now);
    if p.Some? then p.value
    else Succeeded(r.common, now).(
      stdout := Some(StreamOrZero(r.data, r.totalBytes, limit)),
      meta := map["truncated" := Truth(r.truncated), "total_bytes" := Decimal(r.totalBytes)],
      bytesRead := r.totalBytes)
  }

  /** NormalizeWrite */
  ghost function WriteDraft(r: Raw, now: int): Draft
    requires r.WriteRaw?
  {
    var p := Preempted(r.common, now);
    if p.Some? then p.value
    else Succeeded(r.common, now).(
      artifacts := Plus([], ArtifactOf(File, "file://" + r.resolvedPath, r.bytesWritten, r.checksumHex,
                                       map["mode" := Octal(r.mode), "path" := r.resolvedPath])),
      meta := map["path" := r.resolvedPath, "bytes_written" := Decimal(r.bytesWritten)],
      bytesWritten := r.bytesWritten)
  }

  // ---------------------------------------------------------------- registration

  /** The capabilities with a registered normalizer. */
  datatype Kind = ShellExec | GitStatus | GitClone | GitDiff | GitCommit' | GitWorktree | FsRead | FsWrite | HttpRequest

  predicate Fits(kind: Kind, raw: Raw) {
    match kind
    case ShellExec => raw.ExecRaw?
    case GitStatus => raw.StatusRaw?
    case GitClone => raw.CloneRaw?
    case GitDiff => raw.DiffRaw?
    case GitCommit' => raw.CommitRaw?
    case GitWorktree => raw.WorktreeRaw?
    case FsRead => raw.ReadRaw?
    case FsWrite => raw.WriteRaw?
    case HttpRequest => raw.HttpRaw?
  }

  /** What the registered normalizer passes to NewExecutionResult. */
  ghost function DraftOf(kind: Kind, raw: Raw, allowsPartial: bool, exists': bool, limit: int, now: int): Draft
    requires Fits(kind, raw)
  {
    match kind
    case ShellExec => ExecDraft(raw, limit, now)
    case GitStatus => StatusDraft(raw, now)
    case GitClone => CloneDraft(raw, allowsPartial, exists', now)
    case GitDiff => DiffDraft(raw, limit, now)
    case GitCommit' => CommitDraft(raw, now)
    case GitWorktree => WorktreeDraft(raw, now)
    case FsRead => ReadDraft(raw, limit, now)
    case FsWrite => WriteDraft(raw, now)
    case HttpRequest => HttpDraft(raw, limit, now)
  }

  /** ResultNormalizer.Normalize: no registration and a raw outcome of the wrong type (nil included) are errors. */
  ghost function Normalize(kind: Option<Kind>, raw: Option<Raw>, allowsPartial: bool, exists': bool, limit: int, now: int)
    : Result<ExecutionResult>
  {
    if kind.None? then Err("no normalizer registered")
    else if raw.None? || !Fits(kind.value, raw.value) then Err("unexpected raw type")
    else Build(DraftOf(kind.value, raw.value, allowsPartial, exists', limit, now))
  }

  // ---------------------------------------------------------------- which artifacts are reported

  /** An artifact of the kind, at the place and with the attributes. */
  predicate Reports(artifacts: seq<Artifact>, kind: ArtifactType, uri: string, attrs: map<string, string>) {
    exists i :: 0 <= i < |artifacts| && artifacts[i].kind == kind && artifacts[i].uri == uri && artifacts[i].attributes == attrs
  }

  predicate HasKind(artifacts: seq<Artifact>, kind: ArtifactType) {
    exists i :: 0 <= i < |artifacts| && artifacts[i].kind == kind
  }

  predicate Fits1(value: string) {
    |value| <= 2048
  }

  predicate Fits2(a: string, b: string) {
    |a| + |b| <= 2048
  }

  lemma TwoValues(k: string, a: string, l: string, b: string)
    requires k != l
    ensures ValueBytes(map[k := a, l := b]) == |a| + |b|
  {
    ValueBytesSingleton(k, a);
    ValueBytesInsert(map[k := a], l, b);
    assert map[k := a][l := b] == map[k := a, l := b];
  }

  /** The destination was written to, is still there, and its path can be an attribute. */
  predicate LeftDirectory(r: Raw, exists': bool)
    requires r.CloneRaw?
  {
    r.repoPath != "" && (r.fetchOK || r.common.runErr.Some?) && exists' && Fits1(r.repoPath)
  }

  predicate Named(value: string) {
    value != "" && Fits1(value)
  }

  /** The constructor's error is dropped, so an artifact is reported exactly when its values fit 2 KiB. */
  lemma CloneReportsIff(r: Raw, exists': bool)
    requires r.CloneRaw?
    ensures var a := CloneArtifacts(r, exists');
            && (HasKind(a, Directory) <==> LeftDirectory(r, exists'))
            && (LeftDirectory(r, exists') ==> Reports(a, Directory, "file://" + r.repoPath, map["path" := r.repoPath]))
            && (HasKind(a, GitCommit) <==> Named(r.headSHA))
            && (Named(r.headSHA) ==> Reports(a, GitCommit, "git://" + r.repoPath + "#" + r.headSHA, map["sha" := r.headSHA]))
            && (HasKind(a, GitRef) <==> Named(r.refResolved))
            && (Named(r.refResolved) ==> Reports(a, GitRef, "git://" + r.repoPath + "@" + r.refResolved, map["ref" := r.refResolved]))
            && (a != [] <==> LeftDirectory(r, exists') || Named(r.headSHA) || Named(r.refResolved))
  {
    ValueBytesSingleton("path", r.repoPath);
    ValueBytesSingleton("sha", r.headSHA);
    ValueBytesSingleton("ref", r.refResolved);
    hide ValueBytes;
    ThreeInOrder(ArtifactIf(LeftDirectory(r, exists'), Directory, "file://" + r.repoPath, map["path" := r.repoPath]),
                 ArtifactIf(Named(r.headSHA), GitCommit, "git://" + r.repoPath + "#" + r.headSHA, map["sha" := r.headSHA]),
                 ArtifactIf(Named(r.refResolved), GitRef, "git://" + r.repoPath + "@" + r.refResolved, map["ref" := r.refResolved]),
                 CloneArtifacts(r, exists'));
  }

  /** A commit and, on a branch, its ref are reported together exactly when sha and branch fit 2 KiB. */
  lemma CommitReportsIff(r: Raw)
    requires r.CommitRaw?
    ensures var a := CommitArtifacts(r);
            && (HasKind(a, GitCommit) <==> Fits2(r.commitSHA, r.branch))
            && (Fits2(r.commitSHA, r.branch) ==>
                  Reports(a, GitCommit, "git://commit/" + r.commitSHA, map["sha" := r.commitSHA, "branch" := r.branch]))
            && (HasKind(a, GitRef) <==> r.branch != "" && Fits2(r.commitSHA, r.branch))
            && (HasKind(a, GitRef) ==> Reports(a, GitRef, "git://ref/" + r.branch, map["ref" := r.branch, "sha" := r.commitSHA]))
            && !HasKind(a, Directory)
  {
    assert "sha" != "branch" && "ref" != "sha" by {
      assert |"sha"| != |"branch"| && "ref"[0] != "sha"[0];
    }
    TwoValues("sha", r.commitSHA, "branch", r.branch);
    TwoValues("ref", r.branch, "sha", r.commitSHA);
    hide ValueBytes;
    ThreeInOrder(ArtifactIf(false, Directory, "", map[]),
                 ArtifactIf(Fits2(r.commitSHA, r.branch), GitCommit, "git://commit/" + r.commitSHA, map["sha" := r.commitSHA, "branch" := r.branch]),
                 ArtifactIf(r.branch != "" && Fits2(r.commitSHA, r.branch), GitRef, "git://ref/" + r.branch, map["ref" := r.branch, "sha" := r.commitSHA]),
                 CommitArtifacts(r));
  }

  /** The worktree's directory, head and branch, each exactly when it is there and fits 2 KiB. */
  lemma WorktreeReportsIff(r: Raw)
    requires r.WorktreeRaw?
    ensures var a := WorktreeArtifacts(r);
            && (HasKind(a, Directory) <==> Named(r.worktreePath))
            && (Named(r.worktreePath) ==> Reports(a, Directory, "file://" + r.worktreePath, map["path" := r.worktreePath]))
            && (HasKind(a, GitCommit) <==> Named(r.headSHA))
            && (Named(r.headSHA) ==> Reports(a, GitCommit, "git://" + r.worktreePath + "#" + r.headSHA, map["sha" := r.headSHA]))
            && (HasKind(a, GitRef) <==> r.branch != "" && Fits2(r.branch, r.headSHA))
            && (HasKind(a, GitRef) ==>
                  Reports(a, GitRef, "git://" + r.worktreePath + "@" + r.branch, map["ref" := r.branch, "sha" := r.headSHA]))
  {
    ValueBytesSingleton("path", r.worktreePath);
    ValueBytesSingleton("sha", r.headSHA);
    assert "ref" != "sha" by { assert "ref"[0] != "sha"[0]; }
    TwoValues("ref", r.branch, "sha", r.headSHA);
    hide ValueBytes;
    ThreeInOrder(ArtifactIf(Named(r.worktreePath), Directory, "file://" + r.worktreePath, map["path" := r.worktreePath]),
                 ArtifactIf(Named(r.headSHA), GitCommit, "git://" + r.worktreePath + "#" + r.headSHA, map["sha" := r.headSHA]),
                 ArtifactIf(r.branch != "" && Fits2(r.branch, r.headSHA), GitRef, "git://" + r.worktreePath + "@" + r.branch,
                            map["ref" := r.branch, "sha" := r.headSHA]),
                 WorktreeArtifacts(r));
  }

  function ArtifactIf(there: bool, kind: ArtifactType, uri: string, attrs: map<string, string>): seq<Artifact> {
    if there then [Artifact(kind, uri, 0, "", attrs)] else []
  }

  lemma ThreeInOrder(dir: seq<Artifact>, commit: seq<Artifact>, ref: seq<Artifact>, a: seq<Artifact>)
    requires a == dir + commit + ref && |dir| <= 1 && |commit| <= 1 && |ref| <= 1
    requires (dir != [] ==> dir[0].kind == Directory) && (commit != [] ==> commit[0].kind == GitCommit) && (ref != [] ==> ref[0].kind == GitRef)
    ensures (HasKind(a, Directory) <==> dir != []) && (HasKind(a, GitCommit) <==> commit != []) && (HasKind(a, GitRef) <==> ref != [])
    ensures dir != [] ==> Reports(a, Directory, dir[0].uri, dir[0].attributes)
    ensures commit != [] ==> Reports(a, GitCommit, commit[0].uri, commit[0].attributes)
    ensures ref != [] ==> Reports(a, GitRef, ref[0].uri, ref[0].attributes)
  {
    if dir != [] {
      assert a[0] == dir[0];
    }
    if commit != [] {
      assert a[|dir|] == commit[0];
    }
    if ref != [] {
      assert a[|dir| + |commit|] == ref[0];
    }
    assert forall i :: 0 <= i < |a| ==> a[i] in dir || a[i] in commit || a[i] in ref;
  }

  function WrittenFile(r: Raw): Artifact
    requires r.WriteRaw?
  {
    Artifact(File, "file://" + r.resolvedPath, r.bytesWritten, r.checksumHex, map["mode" := Octal(r.mode), "path" := r.resolvedPath])
  }

  /** A successful write reports its file, with size and checksum, exactly when mode and path fit 2 KiB: a longer
      path succeeds without an artifact. */
  lemma WriteReportsIff(r: Raw, now: int)
    requires r.WriteRaw? && Build(WriteDraft(r, now)).Ok? && Build(WriteDraft(r, now)).value.status == Success
    ensures Build(WriteDraft(r, now)).value.artifacts == if Fits2(Octal(r.mode), r.resolvedPath) then [WrittenFile(r)] else []
  {
    assert "mode" != "path" by { assert "mode"[0] != "path"[0]; }
    TwoValues("mode", Octal(r.mode), "path", r.resolvedPath);
  }

  /** Every path between the two caps does so. */
  lemma LongPathReportsNothing(path: string, now: int)
    requires 2048 < |path| < 8192
    ensures var written := Build(WriteDraft(WriteRaw(Common(None, "", None, 0), path, 0, "", 0), now));
            written.Ok? && written.value.status == Success && written.value.artifacts == []
  {
    var raw := WriteRaw(Common(None, "", None, 0), path, 0, "", 0);
    assert "path" != "bytes_written" by { assert |"path"| != |"bytes_written"|; }
    TwoValues("path", path, "bytes_written", Decimal(0));
    assert |Decimal(0)| == 1;
    hide ValueBytes, Octal;
    assert Build(WriteDraft(raw, now)).Ok?;
    WriteReportsIff(raw, now);
  }

  // ---------------------------------------------------------------- the normalizers that build as they go

  method CollectCloneArtifacts(r: Raw, exists': bool) returns (artifacts: seq<Artifact>)
    requires r.CloneRaw?
    ensures artifacts == CloneArtifacts(r, exists')
    ensures artifacts != [] <==> LeftDirectory(r, exists') || Named(r.headSHA) || Named(r.refResolved)
  {
    CloneReportsIff(r, exists');
    artifacts := [];
    if r.repoPath != "" && (r.fetchOK || r.common.runErr.Some?) && exists' {
      var dir := NewArtifact(Directory, "file://" + r.repoPath, 0, "", map["path" := r.repoPath]);
      if dir.Ok? { artifacts := artifacts + [dir.value]; }
    }
    if r.headSHA != "" {
      var commit := NewArtifact(GitCommit, "git://" + r.repoPath + "#" + r.headSHA, 0, "", map["sha" := r.headSHA]);
      if commit.Ok? { artifacts := artifacts + [commit.value]; }
    }
    if r.refResolved != "" {
      var ref := NewArtifact(GitRef, "git://" + r.repoPath + "@" + r.refResolved, 0, "", map["ref" := r.refResolved]);
      if ref.Ok? { artifacts := artifacts + [ref.value]; }
    }
  }

  method NormalizeClone(r: Raw, allowsPartial: bool, exists': bool, now: int) returns (res: Result<ExecutionResult>)
    requires r.CloneRaw?
    ensures res == Build(CloneDraft(r, allowsPartial, exists', now))
  {
    var c := r.common;
    if c.ctxErr.Some? {
      res := NewExecutionResult(CtxDraft(c.ctxErr.value, c.durationMs, now));
      return;
    }
    if c.validation != "" {
      res := NewExecutionResult(Plain(Failure, NonRetryable, ValidationFailure, c.validation, c.durationMs, now));
      return;
    }
    var artifacts := CollectCloneArtifacts(r, exists');
    var status := Classify(allowsPartial, |artifacts| > 0, !r.checkoutOK, false);
    var draft := Succeeded(c, now).(artifacts := artifacts, meta := CloneMeta(r));
    if status == Partial {
      var errMsg := "clone partial: fetch succeeded but checkout failed";
      if c.runErr.Some? { errMsg := errMsg + (" - " + c.runErr.value); } else { errMsg := errMsg + ""; }
      draft := draft.(status := Partial, retry := Unknown, errClass := ExternalFailure, errMsg := errMsg);
    } else if status != Success {
      var errMsg := "clone failed";
      if c.runErr.Some? { errMsg := c.runErr.value; }
      draft := draft.(status := Failure, retry := Unknown, errClass := ExternalFailure, errMsg := errMsg);
    }
    res := NewExecutionResult(draft);
  }

  method CollectCommitArtifacts(r: Raw) returns (artifacts: seq<Artifact>)
    requires r.CommitRaw?
    ensures artifacts == CommitArtifacts(r)
  {
    hide ValueBytes;
    artifacts := [];
    var commit := NewArtifact(GitCommit, "git://commit/" + r.commitSHA, 0, "", map["sha" := r.commitSHA, "branch" := r.branch]);
    if commit.Ok? { artifacts := artifacts + [commit.value]; }
    if r.branch != "" {
      var ref := NewArtifact(GitRef, "git://ref/" + r.branch, 0, "", map["ref" := r.branch, "sha" := r.commitSHA]);
      if ref.Ok? { artifacts := artifacts + [ref.value]; }
    }
  }

  method NormalizeCommit(r: Raw, now: int) returns (res: Result<ExecutionResult>)
    requires r.CommitRaw?
    ensures res == Build(CommitDraft(r, now))
    ensures res.Ok? && res.value.status == Success ==>
              && (HasKind(res.value.artifacts, GitCommit) <==> Fits2(r.commitSHA, r.branch))
              && (HasKind(res.value.artifacts, GitRef) <==> r.branch != "" && Fits2(r.commitSHA, r.branch))
  {
    CommitReportsIff(r);
    hide HasKind, ValueBytes, CommitArtifacts;
    var preempted := Preempted(r.common, now);
    if preempted.Some? {
      res := NewExecutionResult(preempted.value);
      return;
    }
    var artifacts := CollectCommitArtifacts(r);
    res := NewExecutionResult(Succeeded(r.common, now).(
      artifacts := artifacts, meta := map["commit_sha" := r.commitSHA, "branch" := r.branch]));
  }

  method CollectWorktreeArtifacts(r: Raw) returns (artifacts: seq<Artifact>)
    requires r.WorktreeRaw?
    ensures artifacts == WorktreeArtifacts(r)
  {
    artifacts := [];
    if r.worktreePath != "" {
      var dir := NewArtifact(Directory, "file://" + r.worktreePath, 0, "", map["path" := r.worktreePath]);
      if dir.Ok? { artifacts := artifacts + [dir.value]; }
    }
    if r.headSHA != "" {
      var commit := NewArtifact(GitCommit, "git://" + r.worktreePath + "#" + r.headSHA, 0, "", map["sha" := r.headSHA]);
      if commit.Ok? { artifacts := artifacts + [commit.value]; }
    }
    if r.branch != "" {
      var ref := NewArtifact(GitRef, "git://" + r.worktreePath + "@" + r.branch, 0, "", map["ref" := r.branch, "sha" := r.headSHA]);
      if ref.Ok? { artifacts := artifacts + [ref.value]; }
    }
  }

  method NormalizeWorktree(r: Raw, now: int) returns (res: Result<ExecutionResult>)
    requires r.WorktreeRaw?
    ensures res == Build(WorktreeDraft(r, now))
    ensures res.Ok? && res.value.status == Success ==>
              && (HasKind(res.value.artifacts, Directory) <==> Named(r.worktreePath))
              && (HasKind(res.value.artifacts, GitCommit) <==> Named(r.headSHA))
              && (HasKind(res.value.artifacts, GitRef) <==> r.branch != "" && Fits2(r.branch, r.headSHA))
  {
    WorktreeReportsIff(r);
    hide HasKind, ValueBytes, WorktreeArtifacts;
    var preempted := Preempted(r.common, now);
    if preempted.Some? {
      res := NewExecutionResult(preempted.value);
      return;
    }
    var artifacts := CollectWorktreeArtifacts(r);
    var meta := map["worktree_path" := r.worktreePath, "head_sha" := r.headSHA];
    if r.branch != "" {
      meta := meta["branch" := r.branch];
    }
    res := NewExecutionResult(Succeeded(r.common, now).(artifacts := artifacts, meta := meta));
  }

  method NormalizeWrite(r: Raw, now: int) returns (res: Result<ExecutionResult>)
    requires r.WriteRaw?
    ensures res == Build(WriteDraft(r, now))
    ensures res.Ok? && res.value.status == Success ==>
              res.value.artifacts == if Fits2(Octal(r.mode), r.resolvedPath) then [WrittenFile(r)] else []
  {
    if Build(WriteDraft(r, now)).Ok? && Build(WriteDraft(r, now)).value.status == Success {
      WriteReportsIff(r, now);
    }
    var preempted := Preempted(r.common, now);
    if preempted.Some? {
      res := NewExecutionResult(preempted.value);
      return;
    }
    var artifacts := [];
    var art := NewArtifact(File, "file://" + r.resolvedPath, r.bytesWritten, r.checksumHex,
                           map["mode" := Octal(r.mode), "path" := r.resolvedPath]);
    if art.Ok? { artifacts := artifacts + [art.value]; }
    res := NewExecutionResult(Succeeded(r.common, now).(
      artifacts := artifacts, meta := map["path" := r.resolvedPath, "bytes_written" := Decimal(r.bytesWritten)],
      bytesWritten := r.bytesWritten));
  }

  /** The shell's exit-code search, then one of five constructor calls. */
  method NormalizeExec(r: Raw, limit: int, now: int) returns (res: Result<ExecutionResult>)
    requires r.ExecRaw?
    ensures res == Build(ExecDraft(r, limit, now))
  {
    var c := r.common;
    var draft := (if c.ctxErr.Some? then CtxDraft(c.ctxErr.value, c.durationMs, now) else Succeeded(c, now)).(
      stdout := StreamRefOrNil(r.stdout, limit), stderr := StreamRefOrNil(r.stderr, limit),
      exitCode := Some(r.exitCode), bytesRead := |r.stdout|, bytesWritten := |r.stderr|);
    if c.ctxErr.None? {
      var success := ContainsCode(r.exitSuccess, r.exitCode);
      if c.validation != "" {
        draft := Plain(Failure, NonRetryable, ValidationFailure, c.validation, c.durationMs, now);
      } else if !success {
        draft := draft.(status := Failure, retry := Unknown, errClass := ExternalFailure,
                        errMsg := "exit code " + Decimal(r.exitCode) + " not in exit_success list [" + Listed(r.exitSuccess) + "]");
      }
    }
    res := NewExecutionResult(draft);
  }

  /** ResultNormalizer.Normalize. */
  method RunNormalizer(kind: Option<Kind>, raw: Option<Raw>, allowsPartial: bool, exists': bool, limit: int, now: int)
    returns (res: Result<ExecutionResult>)
    ensures res == Normalize(kind, raw, allowsPartial, exists', limit, now)
  {
    if kind.None? { return Err("no normalizer registered"); }
    if raw.None? || !Fits(kind.value, raw.value) { return Err("unexpected raw type"); }
    match kind.value {
      case ShellExec => res := NormalizeExec(raw.value, limit, now);
      case GitStatus => res := NewExecutionResult(StatusDraft(raw.value, now));
      case GitClone => res := NormalizeClone(raw.value, allowsPartial, exists', now);
      case GitDiff => res := NewExecutionResult(DiffDraft(raw.value, limit, now));
      case GitCommit' => res := NormalizeCommit(raw.value, now);
      case GitWorktree => res := NormalizeWorktree(raw.value, now);
      case FsRead => res := NewExecutionResult(ReadDraft(raw.value, limit, now));
      case FsWrite => res := NormalizeWrite(raw.value, now);
      case HttpRequest => res := NormalizeHttp(raw.value, limit, now);
    }
  }

  method NormalizeHttp(r: Raw, limit: int, now: int) returns (res: Result<ExecutionResult>)
    requires r.HttpRaw?
    ensures res == Build(HttpDraft(r, limit, now))
  {
    var preempted := Preempted(r.common, now);
    if preempted.Some? {
      res := NewExecutionResult(preempted.value);
      return;
    }
    var meta := AddHeaders(
      map["status_code" := Decimal(r.statusCode), "body_truncated" := Truth(r.bodyTruncated),
          "total_bytes" := Decimal(r.totalBytes), "redirect_count" := Decimal(r.redirectCount)], r.headers);
    var success := false;
    if |r.expectedStatus| > 0 {
      success := ContainsCode(r.expectedStatus, r.statusCode);
    } else {
      success := 200 <= r.statusCode < 300;
    }
    var draft := Succeeded(r.common, now).(
      stdout := Some(StreamOrZero(r.body, r.totalBytes, limit)), meta := meta, bytesRead := r.totalBytes);
    if !success {
      var hint := Unknown;
      if 500 <= r.statusCode < 600 { hint := Retryable; }
      draft := draft.(status := Failure, retry := hint, errClass := ExternalFailure,
                      errMsg := "unexpected status " + Decimal(r.statusCode)
                                + if |r.expectedStatus| > 0 then " (expected [" + Listed(r.expectedStatus) + "])" else "");
    }
    res := NewExecutionResult(draft);
  }

  // ---------------------------------------------------------------- main results

  /** A recorded response status of 500 to 599. */
  predicate ServerText(text: string) {
    |text| == 3 && text[0] == '5'
  }

  predicate RecordsServerError(meta: map<string, string>) {
    "status_code" in meta && ServerText(meta["status_code"])
  }

  /** The retry hint a failed result must carry: retryable after a timeout or an interruption and for an http result
      whose recorded status is a 5xx, unknown for every other external failure, non-retryable for the rest. */
  function ExpectedHint(kind: Option<Kind>, errClass: ErrorClass, meta: map<string, string>): RetryHint {
    if errClass == TimeoutClass || errClass == Interrupted then Retryable
    else if errClass == ExternalFailure then
      if kind == Some(HttpRequest) && RecordsServerError(meta) then Retryable else Unknown
    else NonRetryable
  }

  /** Everything the receipts of this runtime promise about a result. */
  ghost predicate Sound(r: ExecutionResult, kind: Option<Kind>, limit: int) {
    && StatusTable(r) && WithinCaps(r, limit)
    && (r.status == Partial ==> kind == Some(GitClone) && r.artifacts != [])
    && (r.status != Success ==> r.retry == ExpectedHint(kind, r.errClass, r.meta))
  }

  /** The same promise one step earlier, where the normalizers decide it. */
  predicate SoundDraft(d: Draft, kind: Kind, limit: int) {
    && (d.status == Success || d.status == Timeout || d.status == Cancelled ||
        ((d.status == Failure || d.status == Partial) && (d.errClass == ValidationFailure || d.errClass == ExternalFailure)))
    && (d.status == Partial ==> kind == GitClone && d.artifacts != [])
    && (d.stdout.Some? ==> |d.stdout.value.data| <= limit)
    && (d.stderr.Some? ==> |d.stderr.value.data| <= limit)
    && (d.status != Success ==> d.retry == ExpectedHint(Some(kind), d.errClass, d.meta))
  }

  lemma DigitsLength(n: nat)
    ensures |Digits(n)| >= 1
    ensures |Digits(n)| == 1 <==> n < 10
    ensures |Digits(n)| == 2 <==> 10 <= n < 100
    ensures |Digits(n)| == 3 <==> 100 <= n < 1000
  {
    if n >= 10 {
      DigitsLength(n / 10);
    }
  }

  lemma LeadingDigit(n: nat)
    requires 100 <= n < 1000
    ensures Digits(n)[0] == ('0' as int + n / 100) as char
  {
    assert Digits(n) == Digits(n / 10) + [('0' as int + n % 10) as char];
    assert Digits(n / 10) == Digits(n / 10 / 10) + [('0' as int + n / 10 % 10) as char];
    assert n / 10 / 10 == n / 100;
  }

  /** The printed status tells a 5xx, for every integer a response could hold. */
  lemma ServerTextIff(code: int)
    ensures ServerText(Decimal(code)) <==> ServerError(code)
  {
    if code >= 0 {
      DigitsLength(code);
      if 100 <= code < 1000 {
        LeadingDigit(code);
      }
    }
  }

  /** No response header can overwrite the recorded status. */
  lemma StatusIsRecorded(r: Raw)
    requires r.HttpRaw?
    ensures "status_code" in HttpMeta(r) && HttpMeta(r)["status_code"] == Decimal(r.statusCode)
    ensures RecordsServerError(HttpMeta(r)) <==> ServerError(r.statusCode)
  {
    assert "status_code" !in Prefixed(r.headers) by {
      forall k
        ensures "header." + k != "status_code"
      {
        assert ("header." + k)[0] == 'h';
      }
    }
    ServerTextIff(r.statusCode);
  }

  lemma BuildErrorsNonEmpty(d: Draft)
    ensures Build(d).Err? ==> Build(d).message != ""
  {
  }

  lemma BuildSound(d: Draft, kind: Kind, limit: int)
    requires SoundDraft(d, kind, limit) && Build(d).Ok?
    ensures Sound(Build(d).value, Some(kind), limit)
  {
  }

  lemma PreemptedSound(c: Common, kind: Kind, limit: int, now: int)
    requires Preempted(c, now).Some?
    ensures SoundDraft(Preempted(c, now).value, kind, limit)
  {
  }

  lemma ExecSound(r: Raw, limit: int, now: int)
    requires r.ExecRaw? && limit > 0
    ensures SoundDraft(ExecDraft(r, limit, now), ShellExec, limit)
  {
  }

  lemma CloneSound(r: Raw, allowsPartial: bool, exists': bool, limit: int, now: int)
    requires r.CloneRaw?
    ensures SoundDraft(CloneDraft(r, allowsPartial, exists', now), GitClone, limit)
  {
  }

  lemma HttpSound(r: Raw, limit: int, now: int)
    requires r.HttpRaw? && limit > 0
    ensures SoundDraft(HttpDraft(r, limit, now), HttpRequest, limit)
  {
    StatusIsRecorded(r);
    if Preempted(r.common, now).Some? {
      PreemptedSound(r.common, HttpRequest, limit, now);
    }
    hide HttpMeta, Decimal, Listed;
  }

  lemma ReaderSound(kind: Kind, r: Raw, limit: int, now: int)
    requires Fits(kind, r) && limit > 0 && (r.DiffRaw? || r.ReadRaw? || r.StatusRaw?)
    ensures SoundDraft(DraftOf(kind, r, false, false, limit, now), kind, limit)
  {
    if Preempted(r.common, now).Some? {
      PreemptedSound(r.common, kind, limit, now);
    }
  }

  lemma WriterSound(kind: Kind, r: Raw, limit: int, now: int)
    requires Fits(kind, r) && limit > 0 && (r.CommitRaw? || r.WorktreeRaw? || r.WriteRaw?)
    ensures SoundDraft(DraftOf(kind, r, false, false, limit, now), kind, limit)
  {
    if Preempted(r.common, now).Some? {
      PreemptedSound(r.common, kind, limit, now);
    }
  }

  lemma DraftsAreSound(kind: Kind, raw: Raw, allowsPartial: bool, exists': bool, limit: int, now: int)
    requires Fits(kind, raw) && limit > 0
    ensures SoundDraft(DraftOf(kind, raw, allowsPartial, exists', limit, now), kind, limit)
  {
    match kind {
      case ShellExec => ExecSound(raw, limit, now);
      case GitClone => CloneSound(raw, allowsPartial, exists', limit, now);
      case HttpRequest => HttpSound(raw, limit, now);
      case GitStatus => ReaderSound(kind, raw, limit, now);
      case GitDiff => ReaderSound(kind, raw, limit, now);
      case FsRead => ReaderSound(kind, raw, limit, now);
      case GitCommit' => WriterSound(kind, raw, limit, now);
      case GitWorktree => WriterSound(kind, raw, limit, now);
      case FsWrite => WriterSound(kind, raw, limit, now);
    }
  }

  /** Every raw outcome of every normalizer: the full status/class table, the size caps, partial only for a
      clone that left artifacts, and the default retry hint except for an http 5xx. A normalizer's error
      is never empty. */
  lemma NormalizersAreSound(kind: Option<Kind>, raw: Option<Raw>, allowsPartial: bool, exists': bool, limit: int, now: int)
    requires limit > 0
    ensures var n := Normalize(kind, raw, allowsPartial, exists', limit, now);
            if n.Ok? then Sound(n.value, kind, limit) else n.message != ""
  {
    if kind.Some? && raw.Some? && Fits(kind.value, raw.value) {
      var d := DraftOf(kind.value, raw.value, allowsPartial, exists', limit, now);
      DraftsAreSound(kind.value, raw.value, allowsPartial, exists', limit, now);
      BuildErrorsNonEmpty(d);
      if Build(d).Ok? {
        BuildSound(d, kind.value, limit);
      }
    }
  }

  // ---------------------------------------------------------------- what a result reports

  lemma NormalizesAs(kind: Kind, raw: Raw, allowsPartial: bool, exists': bool, limit: int, now: int)
    requires Fits(kind, raw)
    ensures Normalize(Some(kind), Some(raw), allowsPartial, exists', limit, now) == Build(DraftOf(kind, raw, allowsPartial, exists', limit, now))
  {
  }

  /** Every normalizer puts a context error first: timeout exactly for a deadline, cancelled for any other, with
      the error's own text. */
  lemma ContextErrorTells(kind: Kind, raw: Raw, allowsPartial: bool, exists': bool, limit: int, now: int)
    requires Fits(kind, raw) && raw.common.ctxErr.Some?
    ensures var d := DraftOf(kind, raw, allowsPartial, exists', limit, now);
            && d.errMsg == raw.common.ctxErr.value.text
            && (raw.common.ctxErr.value.DeadlineExceeded? ==> d.status == Timeout && d.errClass == TimeoutClass && d.retry == Retryable)
            && (!raw.common.ctxErr.value.DeadlineExceeded? ==> d.status == Cancelled && d.errClass == CancelledClass && d.retry == NonRetryable)
  {
  }

  /** Then a validation error, which is final. */
  lemma ValidationTells(kind: Kind, raw: Raw, allowsPartial: bool, exists': bool, limit: int, now: int)
    requires Fits(kind, raw) && raw.common.ctxErr.None? && raw.common.validation != ""
    ensures var d := DraftOf(kind, raw, allowsPartial, exists', limit, now);
            d.status == Failure && d.errClass == ValidationFailure && d.retry == NonRetryable && d.errMsg == raw.common.validation
  {
  }

  predicate EndsWith(s: string, tail: string) {
    |tail| <= |s| && s[|s| - |tail|..] == tail
  }

  /** Then the adapter's error: reported as it is, except by the shell, which looks at the exit code, and by a clone
      that counts as complete, or as partial with the error appended. */
  lemma RunErrorTells(kind: Kind, raw: Raw, allowsPartial: bool, exists': bool, limit: int, now: int)
    requires Fits(kind, raw) && raw.common.ctxErr.None? && raw.common.validation == "" && raw.common.runErr.Some?
    ensures var d := DraftOf(kind, raw, allowsPartial, exists', limit, now);
            && (kind != ShellExec && kind != GitClone ==>
                  d.status == Failure && d.errClass == ExternalFailure && d.retry == Unknown && d.errMsg == raw.common.runErr.value)
            && (kind == GitClone && d.status == Failure ==> d.errMsg == raw.common.runErr.value)
            && (kind == GitClone && d.status == Partial ==> EndsWith(d.errMsg, raw.common.runErr.value))
  {
    hide CloneArtifacts, CommitArtifacts, WorktreeArtifacts, HttpMeta, Decimal, Listed, Octal, CloneMeta, StreamOrZero;
  }

  /** A clone succeeds exactly when partial results are allowed and the checkout is complete. */
  lemma CloneSuccessIff(r: Raw, allowsPartial: bool, exists': bool, now: int)
    requires r.CloneRaw? && r.common.ctxErr.None? && r.common.validation == ""
    ensures CloneDraft(r, allowsPartial, exists', now).status == Success <==> allowsPartial && r.checkoutOK
  {
  }

  /** Every result carries the adapter's duration and the normalizer's clock. */
  lemma TimesAreKept(kind: Kind, raw: Raw, allowsPartial: bool, exists': bool, limit: int, now: int)
    requires Fits(kind, raw) && 0 <= raw.common.durationMs <= 9_223_372_036_854
    ensures var d := DraftOf(kind, raw, allowsPartial, exists', limit, now);
            d.duration == raw.common.durationMs * 1_000_000 && d.completedAt == now
  {
    hide CloneArtifacts, CommitArtifacts, WorktreeArtifacts, HttpMeta, Decimal, Listed, Octal;
  }

  /** A status report, read back: branch, head, cleanliness and number of entries. */
  lemma StatusTells(r: Raw, now: int)
    requires r.StatusRaw? && StatusDraft(r, now).status == Success
    ensures var meta := StatusDraft(r, now).meta;
            && meta.Keys == {"branch", "head", "clean", "entries_count"}
            && meta["branch"] == r.branch && meta["head"] == r.head
            && (meta["clean"] == "true" <==> r.clean) && (meta["clean"] == "false" <==> !r.clean)
            && ReadDecimal(meta["entries_count"]) == Some(r.entries)
  {
    hide Decimal, Truth, ReadDecimal;
    TruthReads(r.clean);
    DecimalReads(r.entries);
    assert |"branch"| == 6 && |"head"| == 4 && |"clean"| == 5 && |"entries_count"| == 13;
  }

  /** A diff or a file read: whether it was cut, and its full size. */
  lemma ReaderTells(kind: Kind, r: Raw, limit: int, now: int)
    requires Fits(kind, r) && (r.DiffRaw? || r.ReadRaw?) && DraftOf(kind, r, false, false, limit, now).status == Success
    ensures var meta := DraftOf(kind, r, false, false, limit, now).meta;
            && meta.Keys == {"truncated", "total_bytes"}
            && (meta["truncated"] == "true" <==> r.truncated)
            && ReadDecimal(meta["total_bytes"]) == Some(r.totalBytes)
  {
    hide Decimal, Truth, ReadDecimal, StreamOrZero;
    TruthReads(r.truncated);
    DecimalReads(r.totalBytes);
    assert |"truncated"| == 9 && |"total_bytes"| == 11;
  }

  /** A write: where, how much, and with which mode. */
  lemma WriteTells(r: Raw, now: int)
    requires r.WriteRaw? && WriteDraft(r, now).status == Success
    ensures var d := WriteDraft(r, now);
            && d.meta.Keys == {"path", "bytes_written"} && d.meta["path"] == r.resolvedPath
            && ReadDecimal(d.meta["bytes_written"]) == Some(r.bytesWritten) && d.bytesWritten == r.bytesWritten && d.bytesRead == 0
    ensures WrittenFile(r).sizeBytes == r.bytesWritten && WrittenFile(r).checksum == r.checksumHex
    ensures WrittenFile(r).attributes["path"] == r.resolvedPath && AllOctal(WrittenFile(r).attributes["mode"])
    ensures Octals(WrittenFile(r).attributes["mode"]) == r.mode
  {
    hide Decimal, Octal, ReadDecimal, AllOctal, Octals, ArtifactOf;
    DecimalReads(r.bytesWritten);
    OctalReads(r.mode);
    assert |"path"| == 4 && |"bytes_written"| == 13 && "mode"[0] == 'm' && "path"[0] == 'p';
  }

  /** A clone, whatever its outcome past validation: how far it got and what it left. */
  lemma CloneTells(r: Raw, allowsPartial: bool, exists': bool, now: int)
    requires r.CloneRaw? && r.common.ctxErr.None? && r.common.validation == ""
    ensures CloneDraft(r, allowsPartial, exists', now).artifacts == CloneArtifacts(r, exists')
    ensures var meta := CloneDraft(r, allowsPartial, exists', now).meta;
            && "fetch_ok" in meta && (meta["fetch_ok"] == "true" <==> r.fetchOK)
            && "checkout_ok" in meta && (meta["checkout_ok"] == "true" <==> r.checkoutOK)
            && ("repo_path" in meta <==> r.repoPath != "") && ("repo_path" in meta ==> meta["repo_path"] == r.repoPath)
            && ("ref_resolved" in meta <==> r.refResolved != "") && ("ref_resolved" in meta ==> meta["ref_resolved"] == r.refResolved)
            && ("head_sha" in meta <==> r.headSHA != "") && ("head_sha" in meta ==> meta["head_sha"] == r.headSHA)
  {
    hide Truth, CloneArtifacts, CloneMeta;
    TruthReads(r.fetchOK);
    TruthReads(r.checkoutOK);
    CloneMetaIs(r);
  }

  lemma CloneMetaIs(r: Raw)
    requires r.CloneRaw?
    ensures var meta := CloneMeta(r);
            && "fetch_ok" in meta && meta["fetch_ok"] == Truth(r.fetchOK)
            && "checkout_ok" in meta && meta["checkout_ok"] == Truth(r.checkoutOK)
            && ("repo_path" in meta <==> r.repoPath != "") && ("repo_path" in meta ==> meta["repo_path"] == r.repoPath)
            && ("ref_resolved" in meta <==> r.refResolved != "") && ("ref_resolved" in meta ==> meta["ref_resolved"] == r.refResolved)
            && ("head_sha" in meta <==> r.headSHA != "") && ("head_sha" in meta ==> meta["head_sha"] == r.headSHA)
  {
    hide Truth;
    CloneKeysApart();
  }

  lemma CloneKeysApart()
    ensures "fetch_ok" != "checkout_ok" && "fetch_ok" != "repo_path" && "fetch_ok" != "ref_resolved" && "fetch_ok" != "head_sha"
    ensures "checkout_ok" != "repo_path" && "checkout_ok" != "ref_resolved" && "checkout_ok" != "head_sha"
    ensures "repo_path" != "ref_resolved" && "repo_path" != "head_sha" && "ref_resolved" != "head_sha"
  {
    assert |"fetch_ok"| == 8 && |"checkout_ok"| == 11 && |"repo_path"| == 9 && |"ref_resolved"| == 12 && |"head_sha"| == 8;
    assert "fetch_ok"[0] == 'f' && "head_sha"[0] == 'h';
  }

  lemma CommitTells(r: Raw, now: int)
    requires r.CommitRaw? && CommitDraft(r, now).status == Success
    ensures var meta := CommitDraft(r, now).meta;
            meta.Keys == {"commit_sha", "branch"} && meta["commit_sha"] == r.commitSHA && meta["branch"] == r.branch
  {
    hide CommitArtifacts;
    assert |"commit_sha"| == 10 && |"branch"| == 6;
  }

  lemma WorktreeTells(r: Raw, now: int)
    requires r.WorktreeRaw? && WorktreeDraft(r, now).status == Success
    ensures var meta := WorktreeDraft(r, now).meta;
            && "worktree_path" in meta && meta["worktree_path"] == r.worktreePath && "head_sha" in meta && meta["head_sha"] == r.headSHA
            && ("branch" in meta <==> r.branch != "") && ("branch" in meta ==> meta["branch"] == r.branch)
  {
    hide WorktreeArtifacts;
    assert |"worktree_path"| == 13 && |"head_sha"| == 8 && |"branch"| == 6;
  }

  /** An http response, accepted or not, tells its status, truncation, size, redirects and every header under its
      prefixed name; a refused one names its status. */
  lemma HttpTells(r: Raw, limit: int, now: int)
    requires r.HttpRaw? && r.common.ctxErr.None? && r.common.validation == "" && r.common.runErr.None?
    ensures var d := HttpDraft(r, limit, now);
            && d.meta == HttpMeta(r) && d.bytesRead == r.totalBytes && d.stdout.Some? && d.stdout.value.data <= r.body
            && (d.status != Success ==> "unexpected status " + Decimal(r.statusCode) <= d.errMsg)
  {
    hide HttpMeta, Decimal, Listed;
  }

  lemma HttpMetaTells(r: Raw)
    requires r.HttpRaw?
    ensures var meta := HttpMeta(r);
            && "status_code" in meta && ReadDecimal(meta["status_code"]) == Some(r.statusCode)
            && "body_truncated" in meta && (meta["body_truncated"] == "true" <==> r.bodyTruncated)
            && "total_bytes" in meta && ReadDecimal(meta["total_bytes"]) == Some(r.totalBytes)
            && "redirect_count" in meta && ReadDecimal(meta["redirect_count"]) == Some(r.redirectCount)
            && forall k :: k in r.headers ==> "header." + k in meta && meta["header." + k] == r.headers[k]
  {
    hide Decimal, Truth, ReadDecimal;
    TruthReads(r.bodyTruncated);
    DecimalReads(r.statusCode);
    DecimalReads(r.totalBytes);
    DecimalReads(r.redirectCount);
    HeadersKept(r.headers);
    OwnKeysApart();
    hide Prefixed;
  }

  lemma OwnKeysApart()
    ensures "status_code" != "body_truncated" && "status_code" != "total_bytes" && "status_code" != "redirect_count"
    ensures "body_truncated" != "total_bytes" && "body_truncated" != "redirect_count" && "total_bytes" != "redirect_count"
  {
    assert "status_code"[0] == 's' && "body_truncated"[0] == 'b' && "total_bytes"[0] == 't' && "redirect_count"[0] == 'r';
  }

  lemma HeadersKept(headers: map<string, string>)
    ensures forall k :: k in headers ==> "header." + k in Prefixed(headers) && Prefixed(headers)["header." + k] == headers[k]
    ensures forall h :: h in Prefixed(headers) ==> h != "" && h[0] == 'h'
    ensures "status_code" !in Prefixed(headers) && "body_truncated" !in Prefixed(headers)
    ensures "total_bytes" !in Prefixed(headers) && "redirect_count" !in Prefixed(headers)
  {
    forall k | k in headers
      ensures "header." + k in Prefixed(headers) && Prefixed(headers)["header." + k] == headers[k]
    {
      assert ("header." + k)[7..] == k;
    }
    forall h | h in Prefixed(headers)
      ensures h != "" && h[0] == 'h'
    {
      var k :| k in headers && h == "header." + k;
    }
    assert "status_code"[0] == 's' && "body_truncated"[0] == 'b' && "total_bytes"[0] == 't' && "redirect_count"[0] == 'r';
  }

  /** A reading normalizer that succeeds shows a prefix of what was read, next to its true size. */
  lemma ContentIsKept(kind: Kind, r: Raw, limit: int, now: int)
    requires Fits(kind, r) && limit > 0 && (r.DiffRaw? || r.ReadRaw? || r.HttpRaw?)
    requires DraftOf(kind, r, false, false, limit, now).status == Success
    ensures var d := DraftOf(kind, r, false, false, limit, now);
            var content := if r.DiffRaw? then r.patch else if r.ReadRaw? then r.data else r.body;
            && d.bytesRead == r.totalBytes && d.stdout.Some?
            && d.stdout.value.data <= content
            && (|content| <= r.totalBytes <= limit ==> d.stdout.value.data == content)
            && (|content| <= r.totalBytes ==> d.stdout.value.sizeBytes == r.totalBytes && (d.stdout.value.mode == Truncated <==> r.totalBytes > limit))
  {
  }

  /** A refused exit code is named. */
  lemma ExitCodeIsNamed(r: Raw, limit: int, now: int)
    requires r.ExecRaw? && r.common.ctxErr.None? && r.common.validation == "" && r.exitCode !in r.exitSuccess
    ensures var d := ExecDraft(r, limit, now);
            d.status == Failure && d.errClass == ExternalFailure && "exit code " + Decimal(r.exitCode) <= d.errMsg
  {
    hide Decimal, Listed;
  }

  /** Past validation a shell result carries both streams, each from its own pipe, and the exit code. */
  lemma ShellStreamsAreKept(r: Raw, limit: int, now: int)
    requires r.ExecRaw? && limit > 0 && (r.common.ctxErr.Some? || r.common.validation == "")
    ensures var d := ExecDraft(r, limit, now);
            && d.stdout.Some? && d.stdout.value.data <= r.stdout && (|r.stdout| <= limit ==> d.stdout.value.data == r.stdout)
            && d.stderr.Some? && d.stderr.value.data <= r.stderr && (|r.stderr| <= limit ==> d.stderr.value.data == r.stderr)
            && d.exitCode == Some(r.exitCode) && d.bytesRead == |r.stdout| && d.bytesWritten == |r.stderr|
  {
  }

  /** The one departure from the default hint: an http result is retryable on an external failure exactly
      when the response itself was a 5xx. */
  lemma HttpHintIff(r: Raw, limit: int, now: int)
    requires r.HttpRaw? && HttpDraft(r, limit, now).errClass == ExternalFailure
    ensures HttpDraft(r, limit, now).retry == (if r.common.runErr.None? && ServerError(r.statusCode) then Retryable else Unknown)
  {
  }

  /** A clone is partial exactly when no context or validation error came first, the capability allows it, the
      checkout is incomplete, and it left a directory, a head or a ref that fits 2 KiB. */
  lemma ClonePartialIff(r: Raw, allowsPartial: bool, exists': bool, now: int)
    requires r.CloneRaw?
    ensures CloneDraft(r, allowsPartial, exists', now).status == Partial <==>
              && r.common.ctxErr.None? && r.common.validation == "" && allowsPartial && !r.checkoutOK
              && (LeftDirectory(r, exists') || Named(r.headSHA) || Named(r.refResolved))
  {
    CloneReportsIff(r, exists');
    hide CloneArtifacts;
  }

  /** http: success exactly on an accepted status once nothing preempted it. */
  lemma HttpSuccessIff(r: Raw, limit: int, now: int)
    requires r.HttpRaw?
    ensures HttpDraft(r, limit, now).status == Success <==>
              && r.common.ctxErr.None? && r.common.validation == "" && r.common.runErr.None?
              && HttpAccepted(r.statusCode, r.expectedStatus)
  {
  }

  /** shell: the run error is not consulted; only the exit code against the accepted list decides. */
  lemma ExecSuccessIff(r: Raw, limit: int, now: int)
    requires r.ExecRaw?
    ensures ExecDraft(r, limit, now).status == Success <==>
              r.common.ctxErr.None? && r.common.validation == "" && r.exitCode in r.exitSuccess
  {
  }
}
