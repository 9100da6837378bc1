/** Runs of the protocol in which receipts are assembled the way the service assembles them. */
module HonestRuns {
  import opened Wrappers
  import opened Domain
  import opened Capabilities
  import opened Stores
  import opened Protocol
  import opened Assembly
  import Replay
  import Ulids

  function ToOption<T>(r: Result<T>): Option<T> {
    if r.Ok? then Some(r.value) else None
  }

  /** The receipt of an Assemble event is what the service computes for some behaviour of its environment. */
  ghost predicate DispatchedBy(cfg: Config, limit: int, req: Request, receipt: Option<Receipt>, env: Env) {
    var found := Lookup(cfg.registry, req.target.Canonical());
    found.Ok? && receipt == ToOption(AssembleDispatched(limit, req, found.value, env))
  }

  ghost predicate StructuralBy(req: Request, cause: ErrorClass, receipt: Option<Receipt>, msg: string, handleOk: bool, id: string, now: int) {
    receipt == ToOption(AssembleStructural(req, cause, msg, handleOk, id, now))
  }

  ghost predicate Honest(cfg: Config, limit: int, s: State, ev: Event)
    requires Enabled(s, ev)
  {
    ev.Assemble? ==>
      var call := s.calls[ev.c];
      if call.pc.Executing? then exists env :: DispatchedBy(cfg, limit, call.req, ev.receipt, env)
      else exists msg, handleOk, id, now :: StructuralBy(call.req, call.pc.cause, ev.receipt, msg, handleOk, id, now)
  }

  ghost predicate HonestRun(cfg: Config, limit: int, s: State, evs: seq<Event>)
    requires Runs(cfg, s, evs)
    decreases |evs|
  {
    evs == [] || (Honest(cfg, limit, s, evs[0]) && HonestRun(cfg, limit, Next(cfg, s, evs[0]), evs[1..]))
  }

  /** The events of `log` lead from the initial state to s, and every receipt in them is the service's own. */
  ghost predicate HonestlyReached(cfg: Config, limit: int, log: seq<Event>, s: State) {
    Runs(cfg, Init(), log) && Final(cfg, Init(), log) == s && HonestRun(cfg, limit, Init(), log)
  }

  lemma {:induction false} HonestSnoc(cfg: Config, limit: int, s: State, evs: seq<Event>, ev: Event)
    requires Runs(cfg, s, evs) && HonestRun(cfg, limit, s, evs)
    requires Enabled(Final(cfg, s, evs), ev) && Honest(cfg, limit, Final(cfg, s, evs), ev)
    ensures Runs(cfg, s, evs + [ev]) && HonestRun(cfg, limit, s, evs + [ev])
    decreases |evs|
  {
    RunsSnoc(cfg, s, evs, ev);
    if evs == [] {
      assert evs + [ev] == [ev];
      assert HonestRun(cfg, limit, Next(cfg, s, ev), [ev][1..]);
    } else {
      assert (evs + [ev])[0] == evs[0] && (evs + [ev])[1..] == evs[1..] + [ev];
      HonestSnoc(cfg, limit, Next(cfg, s, evs[0]), evs[1..], ev);
    }
  }

  lemma HonestStep(cfg: Config, limit: int, log: seq<Event>, s: State, ev: Event)
    requires HonestlyReached(cfg, limit, log, s) && Enabled(s, ev) && Honest(cfg, limit, s, ev)
    ensures HonestlyReached(cfg, limit, log + [ev], Next(cfg, s, ev))
  {
    RunsSnoc(cfg, Init(), log, ev);
    HonestSnoc(cfg, limit, Init(), log, ev);
  }

  /** Only assembling a receipt can be dishonest. */
  lemma PlainStep(cfg: Config, limit: int, log: seq<Event>, s: State, ev: Event)
    requires HonestlyReached(cfg, limit, log, s) && Enabled(s, ev) && !ev.Assemble?
    ensures HonestlyReached(cfg, limit, log + [ev], Next(cfg, s, ev))
  {
    hide HonestlyReached, DispatchedBy, StructuralBy;
    HonestStep(cfg, limit, log, s, ev);
  }

  lemma DispatchedStep(cfg: Config, limit: int, log: seq<Event>, s: State, c: CallId, receipt: Option<Receipt>, env: Env)
    requires HonestlyReached(cfg, limit, log, s) && Enabled(s, Assemble(c, receipt)) && s.calls[c].pc.Executing?
    requires DispatchedBy(cfg, limit, s.calls[c].req, receipt, env)
    ensures HonestlyReached(cfg, limit, log + [Assemble(c, receipt)],
              s.(calls := s.calls[c := AfterAssembly(s.calls[c], receipt)]))
  {
    hide DispatchedBy, StructuralBy, HonestlyReached;
    HonestStep(cfg, limit, log, s, Assemble(c, receipt));
  }

  lemma StructuralStep(cfg: Config, limit: int, log: seq<Event>, s: State, c: CallId, receipt: Option<Receipt>,
                       msg: string, handleOk: bool, id: string, now: int)
    requires HonestlyReached(cfg, limit, log, s) && Enabled(s, Assemble(c, receipt)) && s.calls[c].pc.Structural?
    requires StructuralBy(s.calls[c].req, s.calls[c].pc.cause, receipt, msg, handleOk, id, now)
    ensures HonestlyReached(cfg, limit, log + [Assemble(c, receipt)],
              s.(calls := s.calls[c := AfterAssembly(s.calls[c], receipt)]))
  {
    hide DispatchedBy, StructuralBy, HonestlyReached;
    HonestStep(cfg, limit, log, s, Assemble(c, receipt));
  }

  // ---------------------------------------------------------------- every receipt is sound

  /** The causes persistStructural is called with. */
  predicate KnownCause(pc: Pc) {
    pc.Structural? ==> pc.cause in {CapabilityUnknown, ValidationFailure, AdapterInternalError}
  }

  ghost predicate SoundPc(limit: int, pc: Pc) {
    KnownCause(pc) && (pc.Saving? ==> SoundReceipt(limit, pc.receipt))
  }

  ghost predicate SoundState(limit: int, s: State) {
    && (forall rid :: rid in s.repo ==> SoundReceipt(limit, s.repo[rid]))
    && (forall c :: c in s.calls ==> SoundPc(limit, s.calls[c].pc))
  }

  lemma AssembledSound(cfg: Config, limit: int, s: State, ev: Event)
    requires Enabled(s, ev) && ev.Assemble? && ev.receipt.Some? && Honest(cfg, limit, s, ev)
    requires limit > 0 && Filed(cfg.registry) && KnownCause(s.calls[ev.c].pc)
    ensures SoundReceipt(limit, ev.receipt.value)
  {
    var call := s.calls[ev.c];
    if call.pc.Executing? {
      var env :| DispatchedBy(cfg, limit, call.req, ev.receipt, env);
      DispatchedReceiptIsSound(limit, call.req, Lookup(cfg.registry, call.req.target.Canonical()).value, env);
    } else {
      var msg, handleOk, id, now :| StructuralBy(call.req, call.pc.cause, ev.receipt, msg, handleOk, id, now);
      StructuralReceiptIsSound(limit, call.req, call.pc.cause, msg, handleOk, id, now);
    }
  }

  lemma OtherStepsSound(cfg: Config, limit: int, s: State, ev: Event)
    requires Enabled(s, ev) && !ev.Tick? && !ev.Arrive?
    requires ev.Assemble? && ev.receipt.Some? ==> SoundReceipt(limit, ev.receipt.value)
    ensures SoundPc(limit, CallAfter(cfg, s, ev).pc)
  {
  }

  lemma SoundStep(cfg: Config, limit: int, s: State, ev: Event)
    requires Enabled(s, ev) && Honest(cfg, limit, s, ev) && SoundState(limit, s)
    requires limit > 0 && Filed(cfg.registry)
    ensures SoundState(limit, Next(cfg, s, ev))
  {
    if !ev.Tick? && !ev.Arrive? {
      assert SoundPc(limit, s.calls[ev.c].pc);
      if ev.Assemble? && ev.receipt.Some? {
        AssembledSound(cfg, limit, s, ev);
      }
      OtherStepsSound(cfg, limit, s, ev);
    }
    RepoSound(cfg, limit, s, ev);
  }

  lemma RepoSound(cfg: Config, limit: int, s: State, ev: Event)
    requires Enabled(s, ev) && SoundState(limit, s)
    ensures forall rid :: rid in SharedAfter(cfg, s, ev).repo ==> SoundReceipt(limit, SharedAfter(cfg, s, ev).repo[rid])
  {
    if ev.Save? {
      assert SoundPc(limit, s.calls[ev.c].pc);
      assert SoundReceipt(limit, WithPersistedAt(s.calls[ev.c].pc.receipt, s.now));
    }
  }

  /** In every interleaving, every receipt that ever reaches the repository, from the adapter path or from
      persistStructural, satisfies the status/class table, the caps, the partial rule and the hint rule. */
  lemma {:induction false} EveryReceiptIsSound(cfg: Config, limit: int, s: State, evs: seq<Event>)
    requires Runs(cfg, s, evs) && HonestRun(cfg, limit, s, evs) && SoundState(limit, s)
    requires limit > 0 && Filed(cfg.registry)
    ensures SoundState(limit, Final(cfg, s, evs))
    decreases |evs|
  {
    if evs != [] {
      SoundStep(cfg, limit, s, evs[0]);
      EveryReceiptIsSound(cfg, limit, Next(cfg, s, evs[0]), evs[1..]);
    }
  }

  // ---------------------------------------------------------------- every receipt is the service's own

  /** What a call assembled is what the service computes: after a dispatch from the adapter's behaviour, otherwise
      for one of persistStructural's causes. */
  ghost predicate OwnAssembly(cfg: Config, limit: int, call: Call) {
    call.assembled.Some? ==>
      if call.dispatches == 1 then exists env :: DispatchedBy(cfg, limit, call.req, call.assembled, env)
      else exists cause, msg, handleOk, id, now :: StructuralBy(call.req, cause, call.assembled, msg, handleOk, id, now)
  }

  ghost predicate OwnAssemblies(cfg: Config, limit: int, s: State) {
    forall c :: c in s.calls ==> OwnAssembly(cfg, limit, s.calls[c])
  }

  lemma AssemblyUntouched(cfg: Config, s: State, ev: Event)
    requires Enabled(s, ev) && !ev.Tick? && !ev.Arrive? && CallFits(s.calls[ev.c])
    ensures !(ev.Assemble? && ev.receipt.Some?) ==> CallAfter(cfg, s, ev).assembled == s.calls[ev.c].assembled
    ensures s.calls[ev.c].assembled.Some? ==> CallAfter(cfg, s, ev).dispatches == s.calls[ev.c].dispatches
    ensures ev.Assemble? && ev.receipt.Some? ==> CallAfter(cfg, s, ev).assembled == ev.receipt
    ensures ev.Assemble? ==> CallAfter(cfg, s, ev).dispatches == (if s.calls[ev.c].pc.Executing? then 1 else 0)
    ensures CallAfter(cfg, s, ev).req == s.calls[ev.c].req
  {
  }

  lemma OwnAssemblyStep(cfg: Config, limit: int, s: State, ev: Event)
    requires Enabled(s, ev) && Honest(cfg, limit, s, ev) && !ev.Tick? && !ev.Arrive?
    requires CallFits(s.calls[ev.c]) && OwnAssembly(cfg, limit, s.calls[ev.c])
    ensures OwnAssembly(cfg, limit, CallAfter(cfg, s, ev))
  {
    hide CallFits, CallAfter, DispatchedBy, StructuralBy;
    AssemblyUntouched(cfg, s, ev);
  }

  lemma {:induction false} OwnAssembliesAlong(cfg: Config, limit: int, s: State, evs: seq<Event>)
    requires Runs(cfg, s, evs) && HonestRun(cfg, limit, s, evs) && CallsFit(s) && OwnAssemblies(cfg, limit, s)
    ensures OwnAssemblies(cfg, limit, Final(cfg, s, evs))
    decreases |evs|
  {
    hide CallFits, CallAfter, SharedAfter, DispatchedBy, StructuralBy, Honest;
    if evs != [] {
      var ev := evs[0];
      CallsFitStep(cfg, s, ev);
      SharedKeepsCalls(cfg, s, ev);
      if ev.Arrive? {
        assert OwnAssembly(cfg, limit, NewCall(ev.req));
      } else if !ev.Tick? {
        OwnAssemblyStep(cfg, limit, s, ev);
      }
      OwnAssembliesAlong(cfg, limit, Next(cfg, s, ev), evs[1..]);
    }
  }

  /** In every interleaving, every stored receipt is, but for its persistence time, what the service computes for
      its author's request: from some behaviour of adapter, context and normalizer if the author dispatched, as a
      structural receipt otherwise. */
  lemma EveryReceiptIsTheServicesOwn(cfg: Config, limit: int, evs: seq<Event>, rid: ReceiptId)
    requires Runs(cfg, Init(), evs) && HonestRun(cfg, limit, Init(), evs) && rid in Final(cfg, Init(), evs).repo
    ensures var s := Final(cfg, Init(), evs);
            && rid in s.author && s.author[rid] in s.calls
            && var call, bare := s.calls[s.author[rid]], Some(s.repo[rid].(persistedAt := None));
            if call.dispatches == 1 then exists env :: DispatchedBy(cfg, limit, call.req, bare, env)
            else exists cause, msg, handleOk, id, now :: StructuralBy(call.req, cause, bare, msg, handleOk, id, now)
  {
    hide DispatchedBy, StructuralBy, HonestRun;
    var s := Final(cfg, Init(), evs);
    assert Reachable(cfg, s);
    Replay.StoredAsAssembled(cfg, s, rid);
    OwnAssembliesAlong(cfg, limit, Init(), evs);
    assert OwnAssembly(cfg, limit, s.calls[s.author[rid]]);
  }

  // ---------------------------------------------------------------- a dispatch always leads to one Save

  /** A monotone clock, a valid id generator and a submitted request, for every dispatched call of the run. */
  ghost predicate Healthy(cfg: Config, limit: int, s: State, ev: Event)
    requires Enabled(s, ev)
  {
    ev.Assemble? && s.calls[ev.c].pc.Executing? ==>
      var req := s.calls[ev.c].req;
      && req.submittedAt != 0
      && exists env :: DispatchedBy(cfg, limit, req, ev.receipt, env) && env.tStart <= env.tEnd && Ulids.IsUlid(env.id)
  }

  ghost predicate HealthyRun(cfg: Config, limit: int, s: State, evs: seq<Event>)
    requires Runs(cfg, s, evs)
    decreases |evs|
  {
    evs == [] || (Healthy(cfg, limit, s, evs[0]) && HealthyRun(cfg, limit, Next(cfg, s, evs[0]), evs[1..]))
  }

  /** No dispatched call has failed before its Save. */
  predicate SaveBound(call: Call) {
    call.route == Missed && (call.pc.Deactivating? || call.pc.Releasing? || call.pc.CountingDown? || call.pc.Done?) ==>
      !call.pc.outcome.FailedEarly?
  }

  ghost predicate AllSaveBound(s: State) {
    forall c :: c in s.calls ==> SaveBound(s.calls[c])
  }

  lemma HealthyAssembles(cfg: Config, limit: int, s: State, ev: Event)
    requires Enabled(s, ev) && Healthy(cfg, limit, s, ev) && limit > 0
    requires ev.Assemble? && s.calls[ev.c].pc.Executing?
    ensures ev.receipt.Some?
  {
    var req := s.calls[ev.c].req;
    var env :| DispatchedBy(cfg, limit, req, ev.receipt, env) && env.tStart <= env.tEnd && Ulids.IsUlid(env.id);
    var cap := Lookup(cfg.registry, req.target.Canonical()).value;
    AssemblyReachesSaveIff(limit, req, cap, KindOf(cap.id.Canonical()), env);
  }

  lemma SaveBoundStep(cfg: Config, limit: int, s: State, ev: Event)
    requires Enabled(s, ev) && !ev.Tick? && !ev.Arrive?
    requires CallFits(s.calls[ev.c]) && SaveBound(s.calls[ev.c])
    requires ev.Assemble? && s.calls[ev.c].pc.Executing? ==> ev.receipt.Some?
    ensures SaveBound(CallAfter(cfg, s, ev))
  {
  }

  lemma {:induction false} SaveBoundAlong(cfg: Config, limit: int, s: State, evs: seq<Event>)
    requires Runs(cfg, s, evs) && HealthyRun(cfg, limit, s, evs) && limit > 0
    requires CallsFit(s) && AllSaveBound(s)
    ensures CallsFit(Final(cfg, s, evs)) && AllSaveBound(Final(cfg, s, evs))
    decreases |evs|
  {
    if evs != [] {
      var ev := evs[0];
      CallsFitStep(cfg, s, ev);
      if !ev.Tick? && !ev.Arrive? {
        if ev.Assemble? && s.calls[ev.c].pc.Executing? {
          HealthyAssembles(cfg, limit, s, ev);
        }
        SaveBoundStep(cfg, limit, s, ev);
      }
      SaveBoundAlong(cfg, limit, Next(cfg, s, ev), evs[1..]);
    }
  }

  /** Whatever adapters, contexts, normalizers and stores do, a dispatched call that has ended attempted
      exactly one Save, and it returned a receipt exactly when that Save succeeded. */
  lemma DispatchedMeansOneSave(cfg: Config, limit: int, evs: seq<Event>, c: CallId)
    requires Runs(cfg, Init(), evs) && HealthyRun(cfg, limit, Init(), evs) && limit > 0
    requires var s := Final(cfg, Init(), evs); c in s.calls && s.calls[c].pc.Done? && s.calls[c].dispatches >= 1
    ensures var call := Final(cfg, Init(), evs).calls[c];
            && call.saves == 1
            && (call.pc.outcome.Returned? <==> call.saveStatus == SaveOk)
            && (call.pc.outcome.PersistFailed? <==> call.saveStatus == SaveFailed)
  {
    SaveBoundAlong(cfg, limit, Init(), evs);
    var call := Final(cfg, Init(), evs).calls[c];
    assert CallFits(call) && SaveBound(call);
  }
}
