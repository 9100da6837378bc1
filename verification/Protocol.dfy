/** The execution protocol as a transition system. Any number of concurrent Execute calls share one
    service: the concurrency limiter, the idempotency keys, the receipt repository and the counters.
    A call is a program counter over the numbered steps of Execute and persistStructural; each event is
    one atomic action of one call, and the events of different calls interleave freely. Whatever the
    environment decides (store answers, panics, generated ids, the assembled receipt) is part of the event. */
module Protocol {
  import opened Wrappers
  import opened Domain
  import opened Capabilities
  import opened Stores
  import Timeouts

  type CallId = nat

  datatype Config = Config(max: nat, window: nat, maxTimeout: int, registry: Registry, adapters: set<string>)

  /** What Execute hands back to its caller. */
  datatype Outcome =
    | Rejected                    // limiter full
    | Replayed(receipt: Receipt)  // cached receipt of the idempotency key
    | ReplayFailed                // the cached receipt could not be read
    | Returned(receipt: Receipt)  // freshly saved receipt
    | PersistFailed               // Save returned an error or panicked
    | FailedEarly                 // error, or a panic nobody recovers, before any Save

  datatype Pc =
    | Entering
    | Rejecting
    | CountingUp
    | LookingUp
    | Finding(rid: ReceiptId)
    | Resolving
    | Activating
    | Dispatching
    | Executing
    | Structural(cause: ErrorClass)
    | Saving(receipt: Receipt)
    | CountingFailure
    | RecordingKey(receipt: Receipt)
    | Emitting(receipt: Receipt)
    | Deactivating(outcome: Outcome)
    | Releasing(outcome: Outcome)
    | CountingDown(outcome: Outcome)
    | Done(outcome: Outcome)

  /** Missed: past the idempotency lookup and heading for the adapter. Shortcut: persistStructural. */
  datatype Route = Undecided | Missed | Shortcut

  datatype SaveStatus = NotSaved | SaveOk | SaveFailed

  /** `active` says whether this call's ExecutionActive +1 is outstanding. The last five fields are history:
      adapter dispatches, Save attempts, how Save ended, whether a store or the receipt assembly failed
      this call after the lookup began, and the receipt it assembled. */
  datatype Call = Call(req: Request, pc: Pc, route: Route, active: bool,
                       dispatches: nat, saves: nat, saveStatus: SaveStatus, faulted: bool,
                       assembled: Option<Receipt>)

  /** `author` is history: the call that saved each receipt. */
  datatype State = State(
    calls: map<CallId, Call>,
    slots: nat, inUse: int,                            // limiter: channel length, observability counter
    active: int, rejects: nat, total: nat, persistFailures: nat,
    keys: KeyTable, repo: Repository, author: map<ReceiptId, CallId>,
    now: nat)

  datatype LookupAnswer = Answered | LookupError | LookupPanic

  /** A write that does not acknowledge (error or panic) may or may not have taken effect. */
  datatype WriteAnswer = Acknowledged | LostBefore | LostAfter

  datatype Event =
    | Arrive(c: CallId, req: Request)
    | TakeSlot(c: CallId)
    | CountReject(c: CallId)
    | CountUp(c: CallId)
    | LookUp(c: CallId, lookup: LookupAnswer)
    | Find(c: CallId, readable: bool)
    | Resolve(c: CallId, handleOk: bool)
    | CountActive(c: CallId)
    | Dispatch(c: CallId)
    | Assemble(c: CallId, receipt: Option<Receipt>)
    | Save(c: CallId, write: WriteAnswer)
    | CountFailure(c: CallId)
    | Record(c: CallId, write: WriteAnswer)
    | Emit(c: CallId)
    | CountInactive(c: CallId)
    | FreeSlot(c: CallId)
    | CountDown(c: CallId)
    | Tick(time: nat)

  function Init(): State {
    State(map[], 0, 0, 0, 0, 0, 0, map[], map[], map[], 0)
  }

  function NewCall(req: Request): Call {
    Call(req, Entering, Undecided, false, 0, 0, NotSaved, false, None)
  }

  // ---------------------------------------------------------------- the steps

  /** Steps 3 to 7: what sends a request to persistStructural instead of its adapter. */
  function Obstacle(cfg: Config, req: Request, handleOk: bool): Option<ErrorClass> {
    var found := Lookup(cfg.registry, req.target.Canonical());
    if found.Err? then Some(CapabilityUnknown)
    else if Timeouts.Min3(req.budget, found.value.defaultTimeout, cfg.maxTimeout) <= 0 then Some(ValidationFailure)
    else if !handleOk then Some(AdapterInternalError)
    else if found.value.id.adapter !in cfg.adapters then Some(CapabilityUnknown)
    else None
  }

  /** Some of the three durations is positive. */
  predicate HasTimeout(a: int, b: int, c: int) {
    a > 0 || b > 0 || c > 0
  }

  /** Exactly when a request goes on to its adapter, and what it is refused with otherwise: unknown capability,
      no positive timeout, no handle, no adapter, in this order. */
  lemma ObstacleIff(cfg: Config, req: Request, handleOk: bool)
    ensures var canonical, obstacle := req.target.Canonical(), Obstacle(cfg, req, handleOk);
            if canonical !in cfg.registry then obstacle == Some(CapabilityUnknown)
            else
              var cap := cfg.registry[canonical];
              if !HasTimeout(req.budget, cap.defaultTimeout, cfg.maxTimeout) then obstacle == Some(ValidationFailure)
              else if !handleOk then obstacle == Some(AdapterInternalError)
              else obstacle == if cap.id.adapter in cfg.adapters then None else Some(CapabilityUnknown)
  {
    var canonical := req.target.Canonical();
    hide Triple.Canonical;
    if canonical in cfg.registry {
      var a, b, c := req.budget, cfg.registry[canonical].defaultTimeout, cfg.maxTimeout;
      assert a in [a, b, c] && b in [a, b, c] && c in [a, b, c];
    }
  }

  /** The deferred calls run in reverse order: ExecutionActive -1 if it was bumped, then Release. */
  function Unwind(call: Call, o: Outcome): Call {
    call.(pc := if call.active then Deactivating(o) else Releasing(o))
  }

  function AfterAssembly(call: Call, receipt: Option<Receipt>): Call {
    if receipt.Some? then call.(pc := Saving(receipt.value), assembled := receipt)
    else Unwind(call.(faulted := true), FailedEarly)
  }

  /** The calling program point an event needs. */
  predicate AtPoint(pc: Pc, ev: Event) {
    match ev
    case Arrive(_, _) => false
    case TakeSlot(_) => pc.Entering?
    case CountReject(_) => pc.Rejecting?
    case CountUp(_) => pc.CountingUp?
    case LookUp(_, _) => pc.LookingUp?
    case Find(_, _) => pc.Finding?
    case Resolve(_, _) => pc.Resolving?
    case CountActive(_) => pc.Activating?
    case Dispatch(_) => pc.Dispatching?
    case Assemble(_, _) => pc.Executing? || pc.Structural?
    case Save(_, _) => pc.Saving?
    case CountFailure(_) => pc.CountingFailure?
    case Record(_, _) => pc.RecordingKey?
    case Emit(_) => pc.Emitting?
    case CountInactive(_) => pc.Deactivating?
    case FreeSlot(_) => pc.Releasing?
    case CountDown(_) => pc.CountingDown?
    case Tick(_) => false
  }

  predicate Enabled(s: State, ev: Event) {
    if ev.Tick? then s.now <= ev.time
    else if ev.Arrive? then ev.c !in s.calls
    else
      && ev.c in s.calls
      && AtPoint(s.calls[ev.c].pc, ev)
      && (ev.Assemble? && ev.receipt.Some? ==>
            ev.receipt.value.request == s.calls[ev.c].req && ev.receipt.value.persistedAt == None)
      && (ev.LookUp? && s.calls[ev.c].req.key.None? ==> ev.lookup == Answered)
      && (ev.Save? && s.calls[ev.c].pc.receipt.id in s.repo ==> ev.write == LostBefore)
      && (ev.Record? ==> s.calls[ev.c].req.key.Some?)
      && (ev.FreeSlot? ==> s.slots > 0)  // a receive from the empty channel would block
  }

  /** The calling call after its event. */
  function CallAfter(cfg: Config, s: State, ev: Event): Call
    requires Enabled(s, ev) && !ev.Tick? && !ev.Arrive?
  {
    var call := s.calls[ev.c];
    match ev
    case TakeSlot(_) => call.(pc := if s.slots < cfg.max then CountingUp else Rejecting)
    case CountReject(_) => call.(pc := Done(Rejected))
    case CountUp(_) => call.(pc := LookingUp)
    case LookUp(_, answer) =>
      if call.req.key.None? then call.(pc := Resolving, route := Missed)
      else if answer == LookupPanic then call.(pc := Structural(AdapterInternalError), route := Shortcut)
      else if answer == LookupError then call.(pc := Resolving, route := Missed, faulted := true)
      else
        var hit := Live(s.keys, call.req.key.value, s.now);
        if hit.Some? then call.(pc := Finding(hit.value))
        else call.(pc := Resolving, route := Missed)
    case Find(_, readable) =>
      if readable && call.pc.rid in s.repo then Unwind(call, Replayed(s.repo[call.pc.rid]))
      else Unwind(call, ReplayFailed)
    case Resolve(_, handleOk) =>
      var obstacle := Obstacle(cfg, call.req, handleOk);
      if obstacle.Some? then call.(pc := Structural(obstacle.value), route := Shortcut)
      else call.(pc := Activating)
    case CountActive(_) => call.(pc := Dispatching, active := true)
    case Dispatch(_) => call.(pc := Executing, dispatches := call.dispatches + 1)
    case Assemble(_, receipt) =>
      AfterAssembly(call, receipt)
    case Save(_, answer) =>
      var tried := call.(saves := call.saves + 1);
      if answer != Acknowledged then tried.(pc := CountingFailure, saveStatus := SaveFailed, faulted := true)
      else
        var saved := WithPersistedAt(call.pc.receipt, s.now);
        tried.(pc := if call.route == Missed && call.req.key.Some? then RecordingKey(saved) else Emitting(saved),
               saveStatus := SaveOk)
    case CountFailure(_) => Unwind(call, PersistFailed)
    case Record(_, answer) =>
      call.(pc := Emitting(call.pc.receipt), faulted := call.faulted || answer != Acknowledged)
    case Emit(_) => Unwind(call, Returned(call.pc.receipt))
    case CountInactive(_) => call.(pc := Releasing(call.pc.outcome), active := false)
    case FreeSlot(_) => call.(pc := CountingDown(call.pc.outcome))
    case CountDown(_) => call.(pc := Done(call.pc.outcome))
  }

  /** The shared fields after an event, calls aside. */
  function SharedAfter(cfg: Config, s: State, ev: Event): State
    requires Enabled(s, ev)
  {
    match ev
    case TakeSlot(_) => if s.slots < cfg.max then s.(slots := s.slots + 1) else s
    case CountReject(_) => s.(rejects := s.rejects + 1)
    case CountUp(_) => s.(inUse := s.inUse + 1)
    case CountActive(_) => s.(active := s.active + 1)
    case Save(c, answer) =>
      if answer == LostBefore then s
      else
        var receipt := s.calls[c].pc.receipt;
        s.(repo := s.repo[receipt.id := WithPersistedAt(receipt, s.now)], author := s.author[receipt.id := c])
    case CountFailure(_) => s.(persistFailures := s.persistFailures + 1)
    case Record(c, answer) =>
      if answer == LostBefore then s
      else
        var call := s.calls[c];
        s.(keys := AfterRecord(s.keys, call.req.key.value, call.pc.receipt.id, s.now + cfg.window))
    case Emit(_) => s.(total := s.total + 1)
    case CountInactive(_) => s.(active := s.active - 1)
    case FreeSlot(_) => s.(slots := s.slots - 1)
    case CountDown(_) => s.(inUse := s.inUse - 1)
    case Tick(t) => s.(now := t)
    case _ => s
  }

  function Next(cfg: Config, s: State, ev: Event): State
    requires Enabled(s, ev)
  {
    var shared := SharedAfter(cfg, s, ev);
    if ev.Tick? then shared
    else if ev.Arrive? then shared.(calls := s.calls[ev.c := NewCall(ev.req)])
    else shared.(calls := s.calls[ev.c := CallAfter(cfg, s, ev)])
  }

  lemma SharedKeepsCalls(cfg: Config, s: State, ev: Event)
    requires Enabled(s, ev)
    ensures SharedAfter(cfg, s, ev).calls == s.calls
  {
  }

  // ---------------------------------------------------------------- runs

  predicate Runs(cfg: Config, s: State, evs: seq<Event>)
    decreases |evs|
  {
    evs == [] || (Enabled(s, evs[0]) && Runs(cfg, Next(cfg, s, evs[0]), evs[1..]))
  }

  function Final(cfg: Config, s: State, evs: seq<Event>): State
    requires Runs(cfg, s, evs)
    decreases |evs|
  {
    if evs == [] then s else Final(cfg, Next(cfg, s, evs[0]), evs[1..])
  }

  ghost predicate Reachable(cfg: Config, s: State) {
    exists evs :: Runs(cfg, Init(), evs) && Final(cfg, Init(), evs) == s
  }

  lemma {:induction false} RunsConcat(cfg: Config, s: State, a: seq<Event>, b: seq<Event>)
    requires Runs(cfg, s, a) && Runs(cfg, Final(cfg, s, a), b)
    ensures Runs(cfg, s, a + b) && Final(cfg, s, a + b) == Final(cfg, Final(cfg, s, a), b)
    decreases |a|
  {
    if a == [] {
      assert a + b == b;
    } else {
      assert (a + b)[0] == a[0] && (a + b)[1..] == a[1..] + b;
      RunsConcat(cfg, Next(cfg, s, a[0]), a[1..], b);
    }
  }

  lemma RunsSnoc(cfg: Config, s: State, evs: seq<Event>, ev: Event)
    requires Runs(cfg, s, evs) && Enabled(Final(cfg, s, evs), ev)
    ensures Runs(cfg, s, evs + [ev])
    ensures Final(cfg, s, evs + [ev]) == Next(cfg, Final(cfg, s, evs), ev)
  {
    var last := Final(cfg, s, evs);
    assert [ev][1..] == [];
    assert Runs(cfg, Next(cfg, last, ev), [ev][1..]);
    RunsConcat(cfg, s, evs, [ev]);
  }

  lemma ReachableStep(cfg: Config, s: State, ev: Event) returns (t: State)
    requires Reachable(cfg, s) && Enabled(s, ev)
    ensures t == Next(cfg, s, ev) && Reachable(cfg, t)
  {
    var evs :| Runs(cfg, Init(), evs) && Final(cfg, Init(), evs) == s;
    RunsSnoc(cfg, Init(), evs, ev);
    t := Next(cfg, s, ev);
  }

  // ---------------------------------------------------------------- what one call may look like

  predicate OutcomeFits(call: Call, o: Outcome) {
    match o
    case Rejected => call.route == Undecided && call.dispatches == 0 && call.saves == 0 && !call.faulted
    case Replayed(_) => call.route == Undecided && call.dispatches == 0 && call.saves == 0 && call.req.key.Some?
    case ReplayFailed => call.route == Undecided && call.dispatches == 0 && call.saves == 0 && call.req.key.Some?
    case Returned(r) => call.route != Undecided && call.saves == 1 && call.saveStatus == SaveOk && r.request == call.req
    case PersistFailed => call.route != Undecided && call.saves == 1 && call.saveStatus == SaveFailed && call.faulted
    case FailedEarly => call.route != Undecided && call.saves == 0 && call.faulted
  }

  /** Before the lookup has answered. */
  predicate Untouched(call: Call) {
    call.route == Undecided && !call.active && call.dispatches == 0 && call.saves == 0 && !call.faulted
  }

  /** Past the adapter, or past persistStructural's assembly. */
  predicate OnItsWay(call: Call) {
    if call.route == Missed then call.active && call.dispatches == 1
    else call.route == Shortcut && !call.active && call.dispatches == 0
  }

  predicate Leaving(call: Call, o: Outcome) {
    !call.active && (call.route == Missed ==> call.dispatches == 1) && OutcomeFits(call, o)
  }

  predicate Unassembled(pc: Pc) {
    pc.Entering? || pc.CountingUp? || pc.LookingUp? || pc.Resolving? || pc.Activating? || pc.Dispatching?
  }

  /** How program point and history agree. */
  predicate CallFits(call: Call) {
    && (call.saves == 0 <==> call.saveStatus == NotSaved)
    && call.saves <= 1 && call.dispatches <= 1
    && (call.dispatches == 1 ==> call.route == Missed)
    && (Unassembled(call.pc) ==> call.assembled.None?)
    && match call.pc
       case Entering => Untouched(call)
       case Rejecting => Untouched(call)
       case CountingUp => Untouched(call)
       case LookingUp => Untouched(call)
       case Finding(_) => Untouched(call) && call.req.key.Some?
       case Resolving => call.route == Missed && !call.active && call.dispatches == 0 && call.saves == 0
       case Activating => call.route == Missed && !call.active && call.dispatches == 0 && call.saves == 0
       case Dispatching => call.route == Missed && call.active && call.dispatches == 0 && call.saves == 0
       case Executing => call.route == Missed && OnItsWay(call) && call.saves == 0
       case Structural(_) => call.route == Shortcut && OnItsWay(call) && call.saves == 0
       case Saving(r) =>
         OnItsWay(call) && call.saves == 0 && r.request == call.req && r.persistedAt == None && call.assembled == Some(r)
       case CountingFailure => OnItsWay(call) && call.saveStatus == SaveFailed && call.faulted
       case RecordingKey(r) =>
         call.route == Missed && OnItsWay(call) && call.saveStatus == SaveOk && r.request == call.req && call.req.key.Some?
       case Emitting(r) => OnItsWay(call) && call.saveStatus == SaveOk && r.request == call.req
       case Deactivating(o) => call.active && call.dispatches == 1 && OutcomeFits(call, o)
       case Releasing(o) => Leaving(call, o) && !o.Rejected?
       case CountingDown(o) => Leaving(call, o) && !o.Rejected?
       case Done(o) => Leaving(call, o)
  }

  ghost predicate CallsFit(s: State) {
    forall c :: c in s.calls ==> CallFits(s.calls[c])
  }

  predicate BeforeAdapter(ev: Event) {
    ev.TakeSlot? || ev.CountReject? || ev.CountUp? || ev.LookUp? || ev.Find? || ev.Resolve? || ev.CountActive?
  }

  lemma EarlyCallFits(cfg: Config, s: State, ev: Event)
    requires Enabled(s, ev) && BeforeAdapter(ev)
    requires CallFits(s.calls[ev.c])
    ensures CallFits(CallAfter(cfg, s, ev))
  {
  }

  predicate Deferred(ev: Event) {
    ev.CountInactive? || ev.FreeSlot? || ev.CountDown?
  }

  lemma SavingCallFits(cfg: Config, s: State, ev: Event)
    requires Enabled(s, ev) && (ev.Assemble? || ev.Save?)
    requires CallFits(s.calls[ev.c])
    ensures CallFits(CallAfter(cfg, s, ev))
  {
  }

  lemma LateCallFits(cfg: Config, s: State, ev: Event)
    requires Enabled(s, ev) && !ev.Tick? && !ev.Arrive? && !BeforeAdapter(ev) && !Deferred(ev) && !ev.Assemble? && !ev.Save?
    requires CallFits(s.calls[ev.c])
    ensures CallFits(CallAfter(cfg, s, ev))
  {
  }

  lemma LeavingCallFits(cfg: Config, s: State, ev: Event)
    requires Enabled(s, ev) && Deferred(ev)
    requires CallFits(s.calls[ev.c])
    ensures CallFits(CallAfter(cfg, s, ev))
  {
  }

  lemma CallsFitStep(cfg: Config, s: State, ev: Event)
    requires Enabled(s, ev) && CallsFit(s)
    ensures CallsFit(Next(cfg, s, ev))
  {
    if !ev.Tick? && !ev.Arrive? {
      assert CallFits(s.calls[ev.c]);
      if BeforeAdapter(ev) {
        EarlyCallFits(cfg, s, ev);
      } else if Deferred(ev) {
        LeavingCallFits(cfg, s, ev);
      } else if ev.Assemble? || ev.Save? {
        SavingCallFits(cfg, s, ev);
      } else {
        LateCallFits(cfg, s, ev);
      }
    }
  }
}
