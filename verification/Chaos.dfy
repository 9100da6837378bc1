/** Fault injection: which profiles the loader and the support check accept, what the decorator does with an
    accepted profile, and what the normalizers make of the outcomes it synthesizes. */
module Chaos {
  import opened Wrappers
  import opened Domain
  import opened Normalizers
  import Assembly
  import Int64

  datatype FaultKind =
    | Latency | ConnectionReset | HangUntilCancel | Eio | Enospc | PermissionDenied | RemoteUnreachable | AuthFailure
    | InjectPanic | ProcessSignal | ProcessExit | SlowBody | RedirectLoop | TlsHandshakeFail | PersistFailure

  function NameOf(k: FaultKind): string {
    match k
    case Latency => "latency"
    case ConnectionReset => "connection_reset"
    case HangUntilCancel => "hang_until_cancel"
    case Eio => "eio"
    case Enospc => "enospc"
    case PermissionDenied => "permission_denied"
    case RemoteUnreachable => "remote_unreachable"
    case AuthFailure => "auth_failure"
    case InjectPanic => "inject_panic"
    case ProcessSignal => "process_signal"
    case ProcessExit => "process_exit"
    case SlowBody => "slow_body"
    case RedirectLoop => "redirect_loop"
    case TlsHandshakeFail => "tls_handshake_fail"
    case PersistFailure => "persist_failure"
  }

  const ALL_FAULT_KINDS := [
    Latency, ConnectionReset, HangUntilCancel, Eio, Enospc, PermissionDenied, RemoteUnreachable, AuthFailure,
    InjectPanic, ProcessSignal, ProcessExit, SlowBody, RedirectLoop, TlsHandshakeFail, PersistFailure]

  /** The closed set of names, searched in order. */
  function Search(name: string, kinds: seq<FaultKind>): Option<FaultKind> {
    if kinds == [] then None else if NameOf(kinds[0]) == name then Some(kinds[0]) else Search(name, kinds[1..])
  }

  function ParseKind(name: string): Option<FaultKind> {
    Search(name, ALL_FAULT_KINDS)
  }

  predicate IsDecoratorNative(k: FaultKind) {
    k == Latency || k == HangUntilCancel || k == InjectPanic
  }

  datatype FaultConfig = FaultConfig(kind: FaultKind, timing: string, matching: map<string, string>)

  type Faults = map<string, FaultConfig>

  // ---------------------------------------------------------------- loading a profile

  datatype RawFault = RawFault(fault: string, timing: string, matching: map<string, string>)

  /** A decoded YAML document; `expected` says whether expected_outcome is there. */
  datatype RawProfile = RawProfile(version: int, name: string, expected: bool, adapters: map<string, RawFault>, persist: Option<string>)

  datatype Profile = Profile(name: string, adapters: Faults, persist: Option<FaultKind>)

  /** A catalogued capability with a known fault and timing. */
  function EntryOf(catalog: set<string>, canonical: string, raw: RawFault): Option<FaultConfig> {
    var kind := ParseKind(raw.fault);
    if canonical !in catalog || kind.None? || raw.timing !in {"", "pre_dispatch", "post_dispatch"} then None
    else Some(FaultConfig(kind.value, raw.timing, raw.matching))
  }

  predicate Loadable(raw: RawProfile, catalog: set<string>) {
    && raw.version == 1 && raw.name != "" && raw.expected
    && (forall canonical :: canonical in raw.adapters ==> EntryOf(catalog, canonical, raw.adapters[canonical]).Some?)
    && (raw.persist.Some? ==> ParseKind(raw.persist.value).Some?)
  }

  method LoadEntry(catalog: set<string>, canonical: string, rf: RawFault) returns (r: Result<FaultConfig>)
    ensures r.Ok? <==> EntryOf(catalog, canonical, rf).Some?
    ensures r.Ok? ==> r.value == EntryOf(catalog, canonical, rf).value
    ensures r.Ok? <==> canonical in catalog && ParseKind(rf.fault).Some? && rf.timing in {"", "pre_dispatch", "post_dispatch"}
    ensures r.Ok? ==> r.value == FaultConfig(ParseKind(rf.fault).value, rf.timing, rf.matching)
  {
    hide ParseKind;
    if canonical !in catalog { return Err("capability not in catalog"); }
    var kind := ParseKind(rf.fault);
    if kind.None? { return Err("unknown fault kind"); }
    if rf.timing != "" && rf.timing != "pre_dispatch" && rf.timing != "post_dispatch" { return Err("invalid timing"); }
    r := Ok(FaultConfig(kind.value, rf.timing, rf.matching));
  }

  /** The validation part of parseProfileBytes; the map is visited in any order. */
  method LoadProfile(raw: RawProfile, catalog: set<string>) returns (r: Result<Profile>)
    ensures r.Ok? <==> Loadable(raw, catalog)
    ensures r.Ok? ==> r.value.name == raw.name && r.value.adapters.Keys == raw.adapters.Keys
    ensures r.Ok? ==> forall c :: c in raw.adapters ==> Some(r.value.adapters[c]) == EntryOf(catalog, c, raw.adapters[c])
    ensures r.Ok? ==> r.value.persist == if raw.persist.None? then None else ParseKind(raw.persist.value)
  {
    hide ParseKind, EntryOf;
    if raw.version != 1 { return Err("unsupported schema version"); }
    if raw.name == "" { return Err("profile name is required"); }
    if !raw.expected { return Err("expected_outcome is required"); }
    var adapters: Faults := map[];
    var rest := raw.adapters.Keys;
    while rest != {}
      invariant rest <= raw.adapters.Keys && adapters.Keys == raw.adapters.Keys - rest
      invariant forall c :: c in adapters ==> Some(adapters[c]) == EntryOf(catalog, c, raw.adapters[c])
      decreases |rest|
    {
      var canonical :| canonical in rest;
      rest := rest - {canonical};
      var entry := LoadEntry(catalog, canonical, raw.adapters[canonical]);
      if entry.Err? { return Err(entry.message); }
      adapters := adapters[canonical := entry.value];
    }
    var persist := None;
    if raw.persist.Some? {
      persist := ParseKind(raw.persist.value);
      if persist.None? { return Err("unknown persist fault kind"); }
    }
    r := Ok(Profile(raw.name, adapters, persist));
  }

  // ---------------------------------------------------------------- adapters

  /** Which ChaosCapable implementation an adapter has, if any. */
  datatype Family = Shell | Git | Filesystem | Http | NotCapable

  datatype Adapter = Adapter(family: Family, capabilities: seq<string>)

  type Adapters = map<string, Adapter>

  function SupportedFaults(family: Family, canonical: string): seq<FaultKind> {
    if family == Shell && canonical == "shell.exec@v1" then [ProcessSignal, ProcessExit]
    else if family == Git && canonical == "git.clone@v1" then [RemoteUnreachable, AuthFailure]
    else if family == Filesystem && canonical == "filesystem.read_file@v1" then [Eio, PermissionDenied]
    else if family == Filesystem && canonical == "filesystem.write_file@v1" then [Eio, Enospc, PermissionDenied]
    else if family == Http && canonical == "http.request@v1" then
      [ConnectionReset, SlowBody, RedirectLoop, TlsHandshakeFail, AuthFailure, RemoteUnreachable]
    else []
  }

  /** What the synthesizers read from a payload that decodes. */
  datatype Payload = Payload(url: string, path: string, repoUrl: string, expectedStatus: seq<int>)

  function Known(text: string): string {
    if text == "" then "<unknown>" else text
  }

  // ---------------------------------------------------------------- strconv.Atoi

  function Atoi(s: string): Option<int> {
    var digits := if s != "" && (s[0] == '-' || s[0] == '+') then s[1..] else s;
    if digits == "" || !AllDigits(digits) then None
    else
      var n: int := if s[0] == '-' then 0 - Decimals(digits) else Decimals(digits);
      if Int64.InRange(n) then Some(n) else None
  }

  /** The configured exit code, or the default. */
  function ExitCode(matching: map<string, string>): int {
    if "exit_code" in matching && Atoi(matching["exit_code"]).Some? then Atoi(matching["exit_code"]).value else 137
  }

  /** Atoi reads every printed 64-bit number, and nothing that is not a signed run of digits. */
  lemma AtoiReads(n: int)
    ensures Atoi(Decimal(n)) == if Int64.InRange(n) then Some(n) else None
    ensures n >= 0 ==> Atoi("+" + Decimal(n)) == if Int64.InRange(n) then Some(n) else None
  {
    hide Digits, Decimals;
    var digits := Digits(if n < 0 then 0 - n else n);
    DigitsRead(if n < 0 then 0 - n else n);
    assert '0' <= digits[0] <= '9';
    if n < 0 {
      assert ("-" + digits)[0] == '-' && ("-" + digits)[1..] == digits;
    } else {
      assert ("+" + digits)[0] == '+' && ("+" + digits)[1..] == digits;
    }
  }

  lemma AtoiRefuses(s: string)
    requires Atoi(s).Some?
    ensures s != "" && (AllDigits(s) || ((s[0] == '-' || s[0] == '+') && AllDigits(s[1..]) && |s| > 1))
  {
  }

  /** A configured exit code is used as printed; anything else falls back to 137. */
  lemma ExitCodeIs(matching: map<string, string>, n: int)
    ensures "exit_code" !in matching ==> ExitCode(matching) == 137
    ensures "exit_code" in matching && Atoi(matching["exit_code"]).None? ==> ExitCode(matching) == 137
    ensures "exit_code" in matching && matching["exit_code"] == Decimal(n) && Int64.InRange(n) ==> ExitCode(matching) == n
  {
    AtoiReads(n);
    hide Atoi, Decimal;
  }

  // ---------------------------------------------------------------- synthesis

  function Failing(text: string): Common {
    Common(None, "", Some(text), 0)
  }

  const QUIET := Common(None, "", None, 0)

  function HttpError(text: string): Raw {
    HttpRaw(Failing(text), 0, map[], "", false, 0, 0, [])
  }

  function SynthesizeHttp(p: Payload, k: FaultKind, maxRedirects: int): Option<Raw> {
    var url := Known(p.url);
    if k == ConnectionReset then Some(HttpError("connection reset by peer: " + url))
    else if k == SlowBody then Some(HttpError("slow body read: deadline exceeded for " + url))
    else if k == RedirectLoop then
      Some(HttpError("stopped after maximum redirects for " + url).(redirectCount := (if maxRedirects <= 0 then 5 else maxRedirects) + 1))
    else if k == TlsHandshakeFail then Some(HttpError("tls: handshake failure for " + url))
    else if k == AuthFailure then
      Some(HttpRaw(QUIET, 401, map[], "", false, 0, 0, if p.expectedStatus == [] then [200] else p.expectedStatus))
    else if k == RemoteUnreachable then Some(HttpError("dial tcp: no route to host: " + url))
    else None
  }

  function SynthesizeShell(k: FaultKind, matching: map<string, string>): Option<Raw> {
    if k == ProcessSignal then
      var signal := if "signal" in matching && matching["signal"] != "" then matching["signal"] else "SIGKILL";
      Some(ExecRaw(Failing("process killed by signal " + signal), -1, "", "", [0]))
    else if k == ProcessExit then Some(ExecRaw(QUIET, ExitCode(matching), "", "", [0]))
    else None
  }

  function SynthesizeRead(p: Payload, k: FaultKind): Option<Raw> {
    if k == Eio then Some(ReadRaw(Failing("input/output error: " + Known(p.path)), "", false, 0))
    else if k == PermissionDenied then Some(ReadRaw(Failing("permission denied: " + Known(p.path)), "", false, 0))
    else None
  }

  function SynthesizeWrite(p: Payload, k: FaultKind): Option<Raw> {
    var path := Known(p.path);
    if k == Eio then Some(WriteRaw(Failing("input/output error: " + path), path, 0, "", 0))
    else if k == Enospc then Some(WriteRaw(Failing("no space left on device: " + path), path, 0, "", 0))
    else if k == PermissionDenied then Some(WriteRaw(Failing("permission denied: " + path), path, 0, "", 0))
    else None
  }

  function SynthesizeClone(p: Payload, k: FaultKind): Option<Raw> {
    var url := Known(p.repoUrl);
    if k == RemoteUnreachable then Some(CloneRaw(Failing("remote unreachable: " + url), false, false, "", "", ""))
    else if k == AuthFailure then Some(CloneRaw(Failing("authentication failed for " + url), false, false, "", "", ""))
    else None
  }

  /** SyntheticOutcome of each family. */
  function Synthesize(family: Family, canonical: string, p: Payload, fault: FaultConfig, maxRedirects: int): Option<Raw> {
    if family == Shell && canonical == "shell.exec@v1" then SynthesizeShell(fault.kind, fault.matching)
    else if family == Git && canonical == "git.clone@v1" then SynthesizeClone(p, fault.kind)
    else if family == Filesystem && canonical == "filesystem.read_file@v1" then SynthesizeRead(p, fault.kind)
    else if family == Filesystem && canonical == "filesystem.write_file@v1" then SynthesizeWrite(p, fault.kind)
    else if family == Http && canonical == "http.request@v1" then SynthesizeHttp(p, fault.kind, maxRedirects)
    else None
  }

  /** Synthesized errors name what they were about; a payload that does not say is "<unknown>". */
  lemma SyntheticErrorsNameUrl(p: Payload, k: FaultKind, maxRedirects: int)
    ensures var raw := SynthesizeHttp(p, k, maxRedirects);
            raw.Some? && k != AuthFailure ==> raw.value.common.runErr.Some? && EndsWith(raw.value.common.runErr.value, if p.url == "" then "<unknown>" else p.url)
  {
  }

  lemma SyntheticErrorsNameTarget(p: Payload, k: FaultKind)
    ensures SynthesizeRead(p, k).Some? ==>
              var e := SynthesizeRead(p, k).value.common.runErr; e.Some? && EndsWith(e.value, if p.path == "" then "<unknown>" else p.path)
    ensures SynthesizeWrite(p, k).Some? ==>
              var e := SynthesizeWrite(p, k).value.common.runErr; e.Some? && EndsWith(e.value, if p.path == "" then "<unknown>" else p.path)
    ensures SynthesizeClone(p, k).Some? ==>
              var e := SynthesizeClone(p, k).value.common.runErr; e.Some? && EndsWith(e.value, if p.repoUrl == "" then "<unknown>" else p.repoUrl)
  {
  }

  /** The rest of what is synthesized: a 401 against the caller's expectation or [200], one redirect more than
      allowed, exit code -1 for a signal and the configured code for an exit, against exit_success [0]. */
  lemma SyntheticCodes(p: Payload, maxRedirects: int, matching: map<string, string>)
    ensures var auth := SynthesizeHttp(p, AuthFailure, maxRedirects);
            auth.Some? && auth.value.statusCode == 401 && auth.value.expectedStatus == (if p.expectedStatus == [] then [200] else p.expectedStatus)
    ensures var loop := SynthesizeHttp(p, RedirectLoop, maxRedirects);
            loop.Some? && loop.value.redirectCount == (if maxRedirects <= 0 then 6 else maxRedirects + 1)
    ensures var killed := SynthesizeShell(ProcessSignal, matching);
            && killed.Some? && killed.value.exitCode == -1 && killed.value.exitSuccess == [0]
            && killed.value.common.runErr.Some?
            && EndsWith(killed.value.common.runErr.value, if "signal" in matching && matching["signal"] != "" then matching["signal"] else "SIGKILL")
    ensures var exited := SynthesizeShell(ProcessExit, matching);
            exited.Some? && exited.value.exitCode == ExitCode(matching) && exited.value.exitSuccess == [0]
  {
    hide ExitCode;
  }

  /** The faults each adapter declares, by capability. */
  lemma SupportTable(family: Family, canonical: string, k: FaultKind)
    ensures k in SupportedFaults(family, canonical) <==>
              || (family == Shell && canonical == "shell.exec@v1" && (k == ProcessSignal || k == ProcessExit))
              || (family == Git && canonical == "git.clone@v1" && (k == RemoteUnreachable || k == AuthFailure))
              || (family == Filesystem && canonical == "filesystem.read_file@v1" && (k == Eio || k == PermissionDenied))
              || (family == Filesystem && canonical == "filesystem.write_file@v1" && (k == Eio || k == Enospc || k == PermissionDenied))
              || (family == Http && canonical == "http.request@v1"
                  && (k == ConnectionReset || k == SlowBody || k == RedirectLoop || k == TlsHandshakeFail || k == AuthFailure || k == RemoteUnreachable))
  {
  }

  /** What an adapter says it supports is exactly what it can synthesize. */
  lemma SupportMatchesSynthesis(family: Family, canonical: string, p: Payload, fault: FaultConfig, maxRedirects: int)
    ensures fault.kind in SupportedFaults(family, canonical) <==> Synthesize(family, canonical, p, fault, maxRedirects).Some?
  {
  }

  // ---------------------------------------------------------------- the support check

  predicate Owns(a: Adapter, canonical: string) {
    canonical in a.capabilities
  }

  /** A capability belongs to one adapter: its canonical string starts with that adapter's id. */
  ghost predicate OneOwner(registry: Adapters) {
    forall a, b, canonical :: a in registry && b in registry && Owns(registry[a], canonical) && Owns(registry[b], canonical) ==> a == b
  }

  /** Adapters that list only capabilities of their own id meet it, since an id holds no dot. */
  lemma OneOwnerByPrefix(registry: Adapters)
    requires forall id :: id in registry ==> '.' !in id
    requires forall id, canonical :: id in registry && Owns(registry[id], canonical) ==> id + "." <= canonical
    ensures OneOwner(registry)
  {
    forall a, b, canonical | a in registry && b in registry && Owns(registry[a], canonical) && Owns(registry[b], canonical)
      ensures a == b
    {
      assert a + "." <= canonical && b + "." <= canonical;
      FirstDot(a, canonical);
      FirstDot(b, canonical);
    }
  }

  lemma FirstDot(id: string, canonical: string)
    requires '.' !in id && id + "." <= canonical
    ensures |id| < |canonical| && canonical[|id|] == '.' && canonical[..|id|] == id && '.' !in canonical[..|id|]
  {
    assert canonical[|id|] == (id + ".")[|id|];
  }

  /** Why an entry may be accepted. */
  ghost predicate Supported(registry: Adapters, canonical: string, kind: FaultKind) {
    || IsDecoratorNative(kind)
    || kind == PersistFailure
    || exists id :: id in registry && Owns(registry[id], canonical) && kind in SupportedFaults(registry[id].family, canonical)
  }

  method LookupAdapterByCanonical(registry: Adapters, canonical: string) returns (id: Option<string>)
    ensures id.Some? ==> id.value in registry && Owns(registry[id.value], canonical)
    ensures id.None? ==> forall a :: a in registry ==> !Owns(registry[a], canonical)
  {
    var rest := registry.Keys;
    while rest != {}
      invariant rest <= registry.Keys
      invariant forall a :: a in registry && a !in rest ==> !Owns(registry[a], canonical)
      decreases |rest|
    {
      var a :| a in rest;
      rest := rest - {a};
      var caps := registry[a].capabilities;
      for i := 0 to |caps|
        invariant canonical !in caps[..i]
      {
        if caps[i] == canonical { return Some(a); }
        assert caps[..i + 1] == caps[..i] + [caps[i]];
      }
      assert caps[..|caps|] == caps;
    }
    id := None;
  }

  method ContainsFault(list: seq<FaultKind>, target: FaultKind) returns (found: bool)
    ensures found <==> target in list
  {
    for i := 0 to |list|
      invariant target !in list[..i]
    {
      if list[i] == target { return true; }
      assert list[..i + 1] == list[..i] + [list[i]];
    }
    assert list[..|list|] == list;
    found := false;
  }

  /** Why an entry may be refused: nobody owns the capability, or some owner does not declare the fault. */
  ghost predicate Refusable(registry: Adapters, canonical: string, kind: FaultKind) {
    && !IsDecoratorNative(kind) && kind != PersistFailure
    && ((forall id :: id in registry ==> !Owns(registry[id], canonical))
        || exists id :: id in registry && Owns(registry[id], canonical) && kind !in SupportedFaults(registry[id].family, canonical))
  }

  /** With one owner per capability the two exclude each other. */
  lemma RefusableIffUnsupported(registry: Adapters, canonical: string, kind: FaultKind)
    requires OneOwner(registry)
    ensures Refusable(registry, canonical, kind) <==> !Supported(registry, canonical, kind)
  {
  }

  /** One entry of the profile. Were a capability listed by two adapters, the registry's iteration order would
      choose which of them is asked. */
  method EntrySupported(registry: Adapters, canonical: string, kind: FaultKind) returns (ok: bool)
    ensures ok ==> Supported(registry, canonical, kind)
    ensures !ok ==> Refusable(registry, canonical, kind)
    ensures OneOwner(registry) ==> (ok <==> Supported(registry, canonical, kind))
  {
    if OneOwner(registry) {
      RefusableIffUnsupported(registry, canonical, kind);
    }
    if IsDecoratorNative(kind) || kind == PersistFailure { return true; }
    var id := LookupAdapterByCanonical(registry, canonical);
    if id.None? { return false; }
    var family := registry[id.value].family;
    if family == NotCapable { return false; }
    ok := ContainsFault(SupportedFaults(family, canonical), kind);
  }

  /** Reports only refusable entries and passes only supported ones, so with one owner per capability exactly the
      offending ones, and none iff the whole profile is supported. */
  method ValidateProfileSupport(registry: Adapters, faults: Faults) returns (unsupported: seq<string>)
    ensures forall c :: c in unsupported ==> c in faults && Refusable(registry, c, faults[c].kind)
    ensures forall c :: c in faults && c !in unsupported ==> Supported(registry, c, faults[c].kind)
    ensures OneOwner(registry) ==> forall c :: c in unsupported <==> c in faults && !Supported(registry, c, faults[c].kind)
  {
    unsupported := [];
    var rest := faults.Keys;
    while rest != {}
      invariant rest <= faults.Keys
      invariant forall c :: c in unsupported ==> c in faults && c !in rest && Refusable(registry, c, faults[c].kind)
      invariant forall c :: c in faults && c !in rest && c !in unsupported ==> Supported(registry, c, faults[c].kind)
      decreases |rest|
    {
      var canonical :| canonical in rest;
      rest := rest - {canonical};
      var ok := EntrySupported(registry, canonical, faults[canonical].kind);
      if !ok { unsupported := unsupported + [canonical]; }
    }
    if OneOwner(registry) {
      forall c | c in unsupported
        ensures !Supported(registry, c, faults[c].kind)
      {
        RefusableIffUnsupported(registry, c, faults[c].kind);
      }
    }
  }

  // ---------------------------------------------------------------- dispatch

  datatype Dispatched =
    | PassThrough            // the real adapter, at once
    | DelayedReal            // the real adapter, after a pause the context may cut short
    | UntilCancel            // blocks, then the context's error
    | Panics
    | DefensiveError
    | Synthetic(raw: Raw)

  /** ChaosAdapter.Execute with dispatchFault. */
  function Dispatch(faults: Faults, adapter: Adapter, canonical: string, p: Payload, maxRedirects: int): Dispatched {
    if canonical !in faults then PassThrough
    else
      var fault := faults[canonical];
      match fault.kind
      case Latency => DelayedReal
      case HangUntilCancel => UntilCancel
      case InjectPanic => Panics
      case PersistFailure => DefensiveError
      case _ =>
        if adapter.family == NotCapable then DefensiveError
        else
          var out := Synthesize(adapter.family, canonical, p, fault, maxRedirects);
          if out.None? then DefensiveError else Synthetic(out.value)
  }

  /** Every branch of the dispatch. */
  lemma DispatchTable(faults: Faults, adapter: Adapter, canonical: string, p: Payload, maxRedirects: int)
    ensures var out := Dispatch(faults, adapter, canonical, p, maxRedirects);
            && (out == PassThrough <==> canonical !in faults)
            && (out == DelayedReal <==> canonical in faults && faults[canonical].kind == Latency)
            && (out == UntilCancel <==> canonical in faults && faults[canonical].kind == HangUntilCancel)
            && (out == Panics <==> canonical in faults && faults[canonical].kind == InjectPanic)
            && (out.Synthetic? ==> canonical in faults && Some(out.raw) == Synthesize(adapter.family, canonical, p, faults[canonical], maxRedirects))
  {
    hide Synthesize;
  }

  /** Fail-closed: with an accepted profile, the adapter that owns a capability answers with a defensive error
      exactly when the profile put persist_failure there, which neither loader nor check objects to. */
  lemma AcceptedProfileIsDispatchable(registry: Adapters, faults: Faults, id: string, canonical: string, p: Payload, maxRedirects: int)
    requires OneOwner(registry) && forall c :: c in faults ==> Supported(registry, c, faults[c].kind)
    requires id in registry && Owns(registry[id], canonical)
    ensures Dispatch(faults, registry[id], canonical, p, maxRedirects) == DefensiveError
            <==> canonical in faults && faults[canonical].kind == PersistFailure
  {
    if canonical in faults && !IsDecoratorNative(faults[canonical].kind) && faults[canonical].kind != PersistFailure {
      var fault := faults[canonical];
      var owner :| owner in registry && Owns(registry[owner], canonical) && fault.kind in SupportedFaults(registry[owner].family, canonical);
      assert owner == id;
      SupportMatchesSynthesis(registry[id].family, canonical, p, fault, maxRedirects);
    }
  }

  /** The loader does accept persist_failure under an adapter. */
  lemma LoaderAcceptsMisplacedPersistFailure(canonical: string)
    ensures Loadable(RawProfile(1, "p", true, map[canonical := RawFault("persist_failure", "", map[])], None), {canonical})
    ensures Supported(map[], canonical, PersistFailure)
  {
    hide ParseKind, NameOf;
    KnownNames();
  }

  lemma {:induction false} SearchFinds(k: FaultKind, kinds: seq<FaultKind>)
    requires k in kinds
    ensures Search(NameOf(k), kinds) == Some(k)
  {
    if kinds[0] != k {
      if NameOf(kinds[0]) == NameOf(k) {
        SameName(kinds[0], k);
      }
      SearchFinds(k, kinds[1..]);
    }
  }

  /** Length and first letter tell the names apart. */
  lemma SameName(a: FaultKind, b: FaultKind)
    requires NameOf(a) == NameOf(b)
    ensures a == b
  {
    assert |NameOf(a)| == |NameOf(b)| && NameOf(a)[0] == NameOf(b)[0];
  }

  lemma ParseKindOfName(k: FaultKind)
    ensures ParseKind(NameOf(k)) == Some(k)
  {
    assert ALL_FAULT_KINDS[0] == Latency && ALL_FAULT_KINDS[1] == ConnectionReset && ALL_FAULT_KINDS[2] == HangUntilCancel
        && ALL_FAULT_KINDS[3] == Eio && ALL_FAULT_KINDS[4] == Enospc && ALL_FAULT_KINDS[5] == PermissionDenied
        && ALL_FAULT_KINDS[6] == RemoteUnreachable && ALL_FAULT_KINDS[7] == AuthFailure && ALL_FAULT_KINDS[8] == InjectPanic
        && ALL_FAULT_KINDS[9] == ProcessSignal && ALL_FAULT_KINDS[10] == ProcessExit && ALL_FAULT_KINDS[11] == SlowBody
        && ALL_FAULT_KINDS[12] == RedirectLoop && ALL_FAULT_KINDS[13] == TlsHandshakeFail && ALL_FAULT_KINDS[14] == PersistFailure;
    assert k in ALL_FAULT_KINDS;
    SearchFinds(k, ALL_FAULT_KINDS);
  }

  /** The names a profile may use. */
  lemma KnownNames()
    ensures ParseKind("latency") == Some(Latency) && ParseKind("connection_reset") == Some(ConnectionReset)
    ensures ParseKind("hang_until_cancel") == Some(HangUntilCancel) && ParseKind("eio") == Some(Eio) && ParseKind("enospc") == Some(Enospc)
    ensures ParseKind("permission_denied") == Some(PermissionDenied) && ParseKind("remote_unreachable") == Some(RemoteUnreachable)
    ensures ParseKind("auth_failure") == Some(AuthFailure) && ParseKind("inject_panic") == Some(InjectPanic)
    ensures ParseKind("process_signal") == Some(ProcessSignal) && ParseKind("process_exit") == Some(ProcessExit)
    ensures ParseKind("slow_body") == Some(SlowBody) && ParseKind("redirect_loop") == Some(RedirectLoop)
    ensures ParseKind("tls_handshake_fail") == Some(TlsHandshakeFail) && ParseKind("persist_failure") == Some(PersistFailure)
  {
    hide ParseKind;
    forall k: FaultKind
      ensures ParseKind(NameOf(k)) == Some(k)
    {
      ParseKindOfName(k);
    }
    assert NameOf(Latency) == "latency" && NameOf(ConnectionReset) == "connection_reset" && NameOf(HangUntilCancel) == "hang_until_cancel";
    assert NameOf(Eio) == "eio" && NameOf(Enospc) == "enospc" && NameOf(PermissionDenied) == "permission_denied";
    assert NameOf(RemoteUnreachable) == "remote_unreachable" && NameOf(AuthFailure) == "auth_failure" && NameOf(InjectPanic) == "inject_panic";
    assert NameOf(ProcessSignal) == "process_signal" && NameOf(ProcessExit) == "process_exit" && NameOf(SlowBody) == "slow_body";
    assert NameOf(RedirectLoop) == "redirect_loop" && NameOf(TlsHandshakeFail) == "tls_handshake_fail" && NameOf(PersistFailure) == "persist_failure";
  }

  // ---------------------------------------------------------------- what the normalizers make of it

  /** The two configurations in which the injected fault is no fault. */
  predicate Harmless(family: Family, p: Payload, fault: FaultConfig) {
    || (fault.kind == ProcessExit && "exit_code" in fault.matching && Atoi(fault.matching["exit_code"]) == Some(0))
    || (family == Http && fault.kind == AuthFailure && 401 in p.expectedStatus)
  }

  predicate ExternallyFailed(r: ExecutionResult) {
    r.status == Failure && r.errClass == ExternalFailure
  }

  /** A raw outcome that carries an adapter error and nothing else. */
  lemma FailingDraft(text: string, now: int)
    requires text != ""
    ensures Preempted(Failing(text), now) == Some(Plain(Failure, Unknown, ExternalFailure, text, 0, now))
    ensures Build(Plain(Failure, Unknown, ExternalFailure, text, 0, now)).Ok?
    ensures ExternallyFailed(Build(Plain(Failure, Unknown, ExternalFailure, text, 0, now)).value)
  {
  }

  /** The normalizer answered, with success exactly for a harmless fault. */
  predicate Judged(n: Result<ExecutionResult>, harmless: bool) {
    n.Ok? && if harmless then n.value.status == Success else ExternallyFailed(n.value)
  }

  /** What it takes to be judged, of the constructor's arguments. */
  lemma DraftJudged(d: Draft, harmless: bool)
    requires ValueBytes(d.meta) <= MAX_ADAPTER_META_BYTES && d.bytesRead >= 0 && d.bytesWritten >= 0 && d.duration >= 0
    requires !d.retry.OtherHint?
    requires if harmless then d.status == Success && d.errClass == NoClass && d.errMsg == ""
             else d.status == Failure && d.errClass == ExternalFailure && d.errMsg != ""
    ensures Judged(Build(d), harmless)
  {
  }

  lemma ShellOutcome(p: Payload, fault: FaultConfig, allowsPartial: bool, exists': bool, limit: int, now: int)
    requires limit > 0 && SynthesizeShell(fault.kind, fault.matching).Some?
    ensures Judged(Normalize(Some(ShellExec), SynthesizeShell(fault.kind, fault.matching), allowsPartial, exists', limit, now),
                   Harmless(Shell, p, fault))
  {
    hide Atoi, Decimal, Listed, Normalize, Build, Judged;
    var raw := SynthesizeShell(fault.kind, fault.matching).value;
    NormalizesAs(ShellExec, raw, allowsPartial, exists', limit, now);
    ExecOutcome(raw, limit, now);
  }

  lemma ExecOutcome(raw: Raw, limit: int, now: int)
    requires raw.ExecRaw? && raw.common.ctxErr.None? && raw.common.validation == "" && raw.common.durationMs == 0
    ensures Judged(Build(ExecDraft(raw, limit, now)), raw.exitCode in raw.exitSuccess)
  {
    hide Decimal, Listed, Build, Judged;
    DraftJudged(ExecDraft(raw, limit, now), raw.exitCode in raw.exitSuccess);
  }

  lemma CloneMetaSmall()
    ensures ValueBytes(map["fetch_ok" := "false", "checkout_ok" := "false"]) == 10
  {
    ValueBytesSingleton("fetch_ok", "false");
    ValueBytesInsert(map["fetch_ok" := "false"], "checkout_ok", "false");
    assert map["fetch_ok" := "false"]["checkout_ok" := "false"] == map["fetch_ok" := "false", "checkout_ok" := "false"];
  }

  lemma CloneOutcome(p: Payload, fault: FaultConfig, allowsPartial: bool, exists': bool, limit: int, now: int)
    requires SynthesizeClone(p, fault.kind).Some?
    ensures Judged(Normalize(Some(GitClone), SynthesizeClone(p, fault.kind), allowsPartial, exists', limit, now), false)
  {
    CloneMetaSmall();
    hide Normalize, Build, Judged, ValueBytes;
    var raw := SynthesizeClone(p, fault.kind).value;
    NormalizesAs(GitClone, raw, allowsPartial, exists', limit, now);
    assert CloneArtifacts(raw, exists') == [];
    DraftJudged(CloneDraft(raw, allowsPartial, exists', now), false);
  }

  lemma ReadOutcome(p: Payload, fault: FaultConfig, allowsPartial: bool, exists': bool, limit: int, now: int)
    requires SynthesizeRead(p, fault.kind).Some?
    ensures Judged(Normalize(Some(FsRead), SynthesizeRead(p, fault.kind), allowsPartial, exists', limit, now), false)
  {
    hide Build, ExternallyFailed;
    FailingDraft(SynthesizeRead(p, fault.kind).value.common.runErr.value, now);
  }

  lemma WriteOutcome(p: Payload, fault: FaultConfig, allowsPartial: bool, exists': bool, limit: int, now: int)
    requires SynthesizeWrite(p, fault.kind).Some?
    ensures Judged(Normalize(Some(FsWrite), SynthesizeWrite(p, fault.kind), allowsPartial, exists', limit, now), false)
  {
    hide Build, ExternallyFailed;
    FailingDraft(SynthesizeWrite(p, fault.kind).value.common.runErr.value, now);
  }

  lemma ShortNumbers()
    ensures |Decimal(401)| == 3 && |Decimal(0)| == 1
  {
  }

  /** The meta of the synthesized 401. */
  lemma AuthMetaSmall(raw: Raw)
    requires raw.HttpRaw? && raw.headers == map[] && raw.statusCode == 401 && raw.totalBytes == 0 && raw.redirectCount == 0 && !raw.bodyTruncated
    ensures ValueBytes(HttpMeta(raw)) <= MAX_ADAPTER_META_BYTES
  {
    ShortNumbers();
    hide Digits, Decimal, ValueBytes;
    assert Prefixed(raw.headers) == map[];
    hide Prefixed;
    var code, zero := Decimal(401), Decimal(0);
    var m1 := map["status_code" := code];
    var m2 := m1["body_truncated" := "false"];
    var m3 := m2["total_bytes" := zero];
    var m4 := m3["redirect_count" := zero];
    ValueBytesSingleton("status_code", code);
    ValueBytesAtMost(m1, "body_truncated", "false");
    ValueBytesAtMost(m2, "total_bytes", zero);
    ValueBytesAtMost(m3, "redirect_count", zero);
    assert m4 + map[] == m4;
  }

  lemma AuthOutcome(raw: Raw, limit: int, now: int)
    requires limit > 0 && raw.HttpRaw? && raw == HttpRaw(QUIET, 401, map[], "", false, 0, 0, raw.expectedStatus) && raw.expectedStatus != []
    ensures Judged(Build(HttpDraft(raw, limit, now)), 401 in raw.expectedStatus)
  {
    AuthMetaSmall(raw);
    hide HttpMeta, Decimal, Listed, ValueBytes, Build, Judged;
    DraftJudged(HttpDraft(raw, limit, now), 401 in raw.expectedStatus);
  }

  lemma HttpErrorOutcome(raw: Raw, limit: int, now: int)
    requires raw.HttpRaw? && raw.common.runErr.Some? && raw.common == Failing(raw.common.runErr.value) && raw.common.runErr.value != ""
    ensures Judged(Build(HttpDraft(raw, limit, now)), false)
  {
    hide HttpMeta, Build, ExternallyFailed;
    FailingDraft(raw.common.runErr.value, now);
  }

  lemma HttpOutcome(p: Payload, fault: FaultConfig, maxRedirects: int, allowsPartial: bool, exists': bool, limit: int, now: int)
    requires limit > 0 && SynthesizeHttp(p, fault.kind, maxRedirects).Some?
    ensures Judged(Normalize(Some(HttpRequest), SynthesizeHttp(p, fault.kind, maxRedirects), allowsPartial, exists', limit, now),
                   Harmless(Http, p, fault))
  {
    hide Build, Judged, HttpDraft, Normalize;
    var raw := SynthesizeHttp(p, fault.kind, maxRedirects).value;
    NormalizesAs(HttpRequest, raw, allowsPartial, exists', limit, now);
    if fault.kind == AuthFailure {
      AuthOutcome(raw, limit, now);
    } else {
      HttpErrorOutcome(raw, limit, now);
    }
  }

  /** The normalizer that will see a synthesized outcome. */
  lemma KindsOfSupported(family: Family, canonical: string)
    requires SupportedFaults(family, canonical) != []
    ensures Assembly.KindOf(canonical) ==
              match family
              case Shell => Some(ShellExec)
              case Git => Some(GitClone)
              case Http => Some(HttpRequest)
              case _ => if canonical == "filesystem.read_file@v1" then Some(FsRead) else Some(FsWrite)
  {
    assert Assembly.KindOf("shell.exec@v1") == Some(ShellExec) && Assembly.KindOf("git.clone@v1") == Some(GitClone);
    assert Assembly.KindOf("filesystem.read_file@v1") == Some(FsRead) && Assembly.KindOf("filesystem.write_file@v1") == Some(FsWrite);
    assert Assembly.KindOf("http.request@v1") == Some(HttpRequest);
    hide Assembly.KindOf;
  }

  /** Every outcome the decorator synthesizes normalizes to failure/external_failure, except a process_exit
      configured with code 0 and an http auth_failure whose caller expects 401: those succeed. */
  lemma SyntheticOutcomesFail(family: Family, canonical: string, p: Payload, fault: FaultConfig, maxRedirects: int,
                              allowsPartial: bool, exists': bool, limit: int, now: int)
    requires limit > 0 && fault.kind in SupportedFaults(family, canonical)
    ensures Judged(Normalize(Assembly.KindOf(canonical), Synthesize(family, canonical, p, fault, maxRedirects),
                             allowsPartial, exists', limit, now),
                   Harmless(family, p, fault))
  {
    SupportMatchesSynthesis(family, canonical, p, fault, maxRedirects);
    KindsOfSupported(family, canonical);
    hide Judged, Normalize, Assembly.KindOf, ExitCode, SynthesizeShell, SynthesizeClone, SynthesizeRead, SynthesizeWrite, SynthesizeHttp;
    if family == Shell {
      ShellOutcome(p, fault, allowsPartial, exists', limit, now);
    } else if family == Git {
      CloneOutcome(p, fault, allowsPartial, exists', limit, now);
    } else if family == Http {
      HttpOutcome(p, fault, maxRedirects, allowsPartial, exists', limit, now);
    } else if canonical == "filesystem.read_file@v1" {
      ReadOutcome(p, fault, allowsPartial, exists', limit, now);
    } else {
      WriteOutcome(p, fault, allowsPartial, exists', limit, now);
    }
  }
}
