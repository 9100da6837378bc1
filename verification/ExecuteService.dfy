/** Execute and persistStructural as the source runs them, over the limiter, the two stores and the
    counters. Every call drives the objects through a run of the protocol, so each result about runs holds
    of this code. What the environment does during the call is its `World`. */
module Execution {
  import opened Wrappers
  import opened Domain
  import opened Capabilities
  import opened Stores
  import opened Protocol
  import opened Assembly
  import opened HonestRuns
  import Timeouts

  /** A fixed-size, non-blocking semaphore; `slots` is the channel's length. */
  class ConcurrencyLimiter {
    const max: nat
    var slots: nat
    var inUse: int

    constructor (max: nat)
      requires max > 0  // the source panics on a non-positive capacity
      ensures this.max == max && slots == 0 && inUse == 0
    {
      this.max := max;
      slots, inUse := 0, 0;
    }

    method TryAcquire() returns (ok: bool)
      modifies this
      ensures ok <==> old(slots) < max
      ensures ok ==> slots == old(slots) + 1 && inUse == old(inUse) + 1
      ensures !ok ==> slots == old(slots) && inUse == old(inUse)
    {
      if slots < max {
        slots := slots + 1;
        inUse := inUse + 1;
        return true;
      }
      ok := false;
    }

    /** Pairs with a successful TryAcquire; on an empty channel the receive would block. */
    method Release()
      requires slots > 0
      modifies this
      ensures slots == old(slots) - 1 && inUse == old(inUse) - 1
    {
      slots := slots - 1;
      inUse := inUse - 1;
    }
  }

  datatype World = World(lookup: LookupAnswer, readable: bool, handleOk: bool, env: Env,
                         message: string, pseudoHandleOk: bool, structuralId: string,
                         save: WriteAnswer, record: WriteAnswer)

  lemma OthersKept(m: map<CallId, Call>, c: CallId, call: Call)
    ensures m[c := call] - {c} == m - {c}
  {
  }

  /** Neither the request nor the number of dispatches changed. */
  ghost predicate Same(a: Call, b: Call) {
    a.req == b.req && a.dispatches == b.dispatches
  }

  lemma SlotTaken(cfg: Config, limit: int, log: seq<Event>, s: State, c: CallId)
    requires HonestlyReached(cfg, limit, log, s) && c in s.calls && s.calls[c].pc.Entering? && s.slots < cfg.max
    ensures HonestlyReached(cfg, limit, log + [TakeSlot(c), CountUp(c)],
              s.(slots := s.slots + 1, inUse := s.inUse + 1, calls := s.calls[c := s.calls[c].(pc := LookingUp)]))
  {
    PlainStep(cfg, limit, log, s, TakeSlot(c));
    PlainStep(cfg, limit, log + [TakeSlot(c)], Next(cfg, s, TakeSlot(c)), CountUp(c));
    assert log + [TakeSlot(c)] + [CountUp(c)] == log + [TakeSlot(c), CountUp(c)];
  }

  lemma SlotRefused(cfg: Config, limit: int, log: seq<Event>, s: State, c: CallId)
    requires HonestlyReached(cfg, limit, log, s) && c in s.calls && s.calls[c].pc.Entering? && s.slots >= cfg.max
    ensures HonestlyReached(cfg, limit, log + [TakeSlot(c), CountReject(c)],
              s.(rejects := s.rejects + 1, calls := s.calls[c := s.calls[c].(pc := Done(Rejected))]))
  {
    PlainStep(cfg, limit, log, s, TakeSlot(c));
    PlainStep(cfg, limit, log + [TakeSlot(c)], Next(cfg, s, TakeSlot(c)), CountReject(c));
    assert log + [TakeSlot(c)] + [CountReject(c)] == log + [TakeSlot(c), CountReject(c)];
  }

  lemma SlotFreed(cfg: Config, limit: int, log: seq<Event>, s: State, c: CallId, o: Outcome)
    requires HonestlyReached(cfg, limit, log, s) && c in s.calls && s.calls[c].pc == Releasing(o) && s.slots > 0
    ensures HonestlyReached(cfg, limit, log + [FreeSlot(c), CountDown(c)],
              s.(slots := s.slots - 1, inUse := s.inUse - 1, calls := s.calls[c := s.calls[c].(pc := Done(o))]))
  {
    PlainStep(cfg, limit, log, s, FreeSlot(c));
    PlainStep(cfg, limit, log + [FreeSlot(c)], Next(cfg, s, FreeSlot(c)), CountDown(c));
    assert log + [FreeSlot(c)] + [CountDown(c)] == log + [FreeSlot(c), CountDown(c)];
  }

  lemma AdapterEntered(cfg: Config, limit: int, log: seq<Event>, s: State, c: CallId)
    requires HonestlyReached(cfg, limit, log, s) && c in s.calls && s.calls[c].pc.Activating?
    ensures HonestlyReached(cfg, limit, log + [CountActive(c), Dispatch(c)],
              s.(active := s.active + 1,
                 calls := s.calls[c := s.calls[c].(pc := Executing, active := true, dispatches := s.calls[c].dispatches + 1)]))
  {
    PlainStep(cfg, limit, log, s, CountActive(c));
    PlainStep(cfg, limit, log + [CountActive(c)], Next(cfg, s, CountActive(c)), Dispatch(c));
    assert log + [CountActive(c)] + [Dispatch(c)] == log + [CountActive(c), Dispatch(c)];
  }

  /** When a request that missed its lookup goes on to its adapter. */
  predicate Dispatchable(cfg: Config, req: Request, handleOk: bool) {
    var canonical := req.target.Canonical();
    && canonical in cfg.registry
    && (req.budget > 0 || cfg.registry[canonical].defaultTimeout > 0 || cfg.maxTimeout > 0)
    && handleOk && cfg.registry[canonical].id.adapter in cfg.adapters
  }

  /** What persistStructural is called with. */
  predicate IsCause(cause: ErrorClass) {
    cause == CapabilityUnknown || cause == ValidationFailure || cause == AdapterInternalError
  }

  lemma InternalErrorIsCause()
    ensures IsCause(AdapterInternalError)
  {
  }

  /** What it is refused with otherwise. */
  function CauseOf(cfg: Config, req: Request, handleOk: bool): (cause: ErrorClass)
    ensures IsCause(cause)
  {
    var canonical := req.target.Canonical();
    if canonical !in cfg.registry then CapabilityUnknown
    else if req.budget <= 0 && cfg.registry[canonical].defaultTimeout <= 0 && cfg.maxTimeout <= 0 then ValidationFailure
    else if !handleOk then AdapterInternalError
    else CapabilityUnknown
  }

  /** A returned receipt is stamped now and is otherwise what the service assembles: for the environment's
      behaviour after a dispatch; for the cause without one, and then a non-retryable failure of that class. */
  ghost predicate Explained(cfg: Config, limit: int, req: Request, dispatched: bool, cause: ErrorClass, w: World, now: int, o: Outcome) {
    o.Returned? ==>
      && o.receipt.persistedAt == Some(now)
      && var bare := Some(o.receipt.(persistedAt := None));
      if dispatched then DispatchedBy(cfg, limit, req, bare, w.env)
      else
        && StructuralBy(req, cause, bare, w.message, w.pseudoHandleOk, w.structuralId, now)
        && o.receipt.result.status == Failure && o.receipt.result.errClass == cause && o.receipt.result.retry == NonRetryable
  }

  /** The same for the whole of Execute: a panic of the lookup comes first. */
  predicate Proceeds(cfg: Config, req: Request, w: World) {
    !(req.key.Some? && w.lookup == LookupPanic) && Dispatchable(cfg, req, w.handleOk)
  }

  function FirstCause(cfg: Config, req: Request, w: World): ErrorClass {
    if req.key.Some? && w.lookup == LookupPanic then AdapterInternalError else CauseOf(cfg, req, w.handleOk)
  }

  /** Nothing needs explaining without a receipt of the call's own. */
  lemma NothingReturned(cfg: Config, limit: int, req: Request, dispatched: bool, cause: ErrorClass, w: World, now: int, o: Outcome)
    requires !o.Returned?
    ensures Explained(cfg, limit, req, dispatched, cause, w, now, o)
  {
  }

  lemma StructuralTells(req: Request, cause: ErrorClass, receipt: Receipt, w: World, now: int)
    requires StructuralBy(req, cause, Some(receipt), w.message, w.pseudoHandleOk, w.structuralId, now)
    requires IsCause(cause)
    ensures receipt.result.status == Failure && receipt.result.errClass == cause && receipt.result.retry == NonRetryable
  {
    StructuralReceiptIs(req, cause, w.message, w.pseudoHandleOk, w.structuralId, now);
    hide AssembleStructural;
  }

  class ExecuteService {
    const cfg: Config
    const limit: int
    const limiter: ConcurrencyLimiter
    const keys: InMemoryIdempotencyStore
    const receipts: InMemoryReceiptRepository
    var active: int
    var rejects: nat
    var total: nat
    var persistFailures: nat
    var now: nat
    ghost var calls: map<CallId, Call>
    ghost var author: map<ReceiptId, CallId>
    ghost var log: seq<Event>

    /** The protocol state these objects are in. */
    ghost function Abs(): State
      reads this, limiter, keys, receipts
    {
      State(calls, limiter.slots, limiter.inUse, active, rejects, total, persistFailures,
            keys.m, receipts.m, author, now)
    }

    /** The log is a run of the protocol that ends here, with receipts only this service assembles. */
    ghost predicate Valid()
      reads this, limiter, keys, receipts
    {
      limiter.max == cfg.max && cfg.window > 0 && HonestlyReached(cfg, limit, log, Abs())
    }

    constructor (cfg: Config, limit: int)
      requires cfg.max > 0 && cfg.window > 0
      ensures Valid() && log == [] && this.cfg == cfg && this.limit == limit
      ensures fresh(limiter) && fresh(keys) && fresh(receipts)
    {
      this.cfg, this.limit := cfg, limit;
      limiter := new ConcurrencyLimiter(cfg.max);
      keys := new InMemoryIdempotencyStore();
      receipts := new InMemoryReceiptRepository();
      active, rejects, total, persistFailures, now := 0, 0, 0, 0, 0;
      calls, author, log := map[], map[], [];
    }

    /** Books events of call c that the real fields have made. */
    ghost method BookAll(c: CallId, call: Call, evs: seq<Event>)
      requires limiter.max == cfg.max && cfg.window > 0
      requires HonestlyReached(cfg, limit, log + evs, Abs().(calls := calls[c := call]))
      modifies this`calls, this`log
      ensures Valid() && log == old(log) + evs && c in calls && calls[c] == call && calls - {c} == old(calls - {c})
    {
      hide HonestlyReached;
      OthersKept(calls, c, call);
      calls, log := calls[c := call], log + evs;
    }

    ghost method Book(before: State, ev: Event)
      requires limiter.max == cfg.max && cfg.window > 0 && before.calls == calls && before.author == author
      requires HonestlyReached(cfg, limit, log, before) && Enabled(before, ev) && !ev.Assemble? && !ev.Tick?
      requires Abs() == Next(cfg, before, ev).(calls := calls, author := author)
      modifies this`calls, this`author, this`log
      ensures Valid() && log == old(log) + [ev] && ev.c in calls && calls - {ev.c} == old(calls - {ev.c})
      ensures calls[ev.c] == if ev.Arrive? then NewCall(ev.req) else CallAfter(cfg, before, ev)
    {
      hide HonestlyReached;
      PlainStep(cfg, limit, log, before, ev);
      OthersKept(calls, ev.c, Next(cfg, before, ev).calls[ev.c]);
      calls, author, log := Next(cfg, before, ev).calls, Next(cfg, before, ev).author, log + [ev];
    }

    // ------------------------------------------------------------ one action each

    /** Call c moved on through protocol events; the other calls, the reject counter and the clock did not. */
    twostate predicate Onward(c: CallId, call: Call)
      reads this, limiter, keys, receipts
    {
      && Valid() && old(log) <= log && now == old(now) && rejects == old(rejects)
      && c in calls && calls[c] == call && calls - {c} == old(calls - {c})
    }

    /** Nor did the counters and the stores. */
    twostate predicate Quietly(c: CallId, call: Call)
      reads this, limiter, keys, receipts
    {
      && Onward(c, call) && active == old(active) && total == old(total) && persistFailures == old(persistFailures)
      && keys.m == old(keys.m) && receipts.m == old(receipts.m)
    }

    method Begin(c: CallId, req: Request)
      requires Valid() && c !in calls
      modifies this
      ensures Quietly(c, NewCall(req))
    {
      hide HonestlyReached;
      Book(Abs(), Arrive(c, req));
    }

    method Acquire(c: CallId) returns (ok: bool)
      requires Valid() && c in calls && calls[c].pc.Entering?
      modifies this, limiter
      ensures Valid() && old(log) <= log && now == old(now) && rejects == old(rejects) + (if ok then 0 else 1)
      ensures active == old(active) && total == old(total) && persistFailures == old(persistFailures)
      ensures ok <==> old(limiter.slots) < cfg.max
      ensures c in calls && calls[c] == old(calls[c]).(pc := if ok then LookingUp else Done(Rejected)) && calls - {c} == old(calls - {c})
      ensures limiter.slots == old(limiter.slots) + (if ok then 1 else 0)
      ensures limiter.inUse == old(limiter.inUse) + (if ok then 1 else 0)
    {
      hide HonestlyReached;
      ghost var before := Abs();
      ok := limiter.TryAcquire();
      if ok {
        SlotTaken(cfg, limit, log, before, c);
        BookAll(c, calls[c].(pc := LookingUp), [TakeSlot(c), CountUp(c)]);
      } else {
        rejects := rejects + 1;
        SlotRefused(cfg, limit, log, before, c);
        BookAll(c, calls[c].(pc := Done(Rejected)), [TakeSlot(c), CountReject(c)]);
      }
    }

    method LookUpKey(c: CallId, req: Request, answer: LookupAnswer) returns (hit: Option<ReceiptId>)
      requires Valid() && c in calls && calls[c].pc.LookingUp? && calls[c].req == req
      modifies this
      ensures hit == if req.key.Some? && answer == Answered then Live(keys.m, req.key.value, now) else None
      ensures c in calls && Quietly(c, calls[c]) && calls[c].active == old(calls[c]).active && Same(calls[c], old(calls[c]))
      ensures if hit.Some? then calls[c].pc == Finding(hit.value)
              else if req.key.Some? && answer == LookupPanic then calls[c].pc == Structural(AdapterInternalError) && calls[c].route == Shortcut
              else calls[c].pc == Resolving && calls[c].route == Missed
    {
      hide HonestlyReached;
      hit := None;
      if req.key.Some? && answer == Answered {
        var r := keys.Lookup(None, req.key.value, now);
        hit := r.value;
      }
      Book(Abs(), LookUp(c, if req.key.Some? then answer else Answered));
    }

    method FindReceipt(c: CallId, rid: ReceiptId, readable: bool) returns (o: Outcome)
      requires Valid() && c in calls && calls[c].pc == Finding(rid) && !calls[c].active
      modifies this
      ensures Quietly(c, old(calls[c]).(pc := Releasing(o)))
      ensures o == if readable && rid in receipts.m then Replayed(receipts.m[rid]) else ReplayFailed
    {
      hide HonestlyReached;
      var r := receipts.FindByID(if readable then None else Some("store unreadable"), rid);
      o := if r.Ok? then Replayed(r.value) else ReplayFailed;
      Book(Abs(), Find(c, readable));
    }

    /** Steps 3 to 7: the capability, or what persistStructural is called with. */
    method ResolveRequest(c: CallId, req: Request, handleOk: bool) returns (cap: Option<Capability>, cause: ErrorClass)
      requires Valid() && c in calls && calls[c].pc.Resolving? && calls[c].req == req
      modifies this
      ensures cap.Some? ==> Lookup(cfg.registry, req.target.Canonical()) == Ok(cap.value) && cap.value.id.adapter in cfg.adapters
      ensures cap.Some? <==> Dispatchable(cfg, req, handleOk)
      ensures cap.None? ==> cause == CauseOf(cfg, req, handleOk)
      ensures Quietly(c, if cap.Some? then old(calls[c]).(pc := Activating)
                         else old(calls[c]).(pc := Structural(cause), route := Shortcut))
    {
      hide HonestlyReached;
      ObstacleIff(cfg, req, handleOk);
      cap, cause := None, CapabilityUnknown;
      var found := Lookup(cfg.registry, req.target.Canonical());
      if found.Ok? {
        var effective := Timeouts.MinDuration([req.budget, found.value.defaultTimeout, cfg.maxTimeout]);
        Timeouts.PositiveIff(effective, req.budget, found.value.defaultTimeout, cfg.maxTimeout);
        if effective <= 0 {
          cause := ValidationFailure;
        } else if !handleOk {
          cause := AdapterInternalError;
        } else if found.value.id.adapter in cfg.adapters {
          cap := Some(found.value);
        }
      }
      hide Obstacle;
      Book(Abs(), Resolve(c, handleOk));
    }

    /** ExecutionActive +1, then the adapter call itself. */
    method Activate(c: CallId)
      requires Valid() && c in calls && calls[c].pc.Activating?
      modifies this
      ensures Onward(c, old(calls[c]).(pc := Executing, active := true, dispatches := old(calls[c]).dispatches + 1))
      ensures active == old(active) + 1 && total == old(total) && persistFailures == old(persistFailures)
    {
      hide HonestlyReached;
      ghost var before := Abs();
      active := active + 1;
      AdapterEntered(cfg, limit, log, before, c);
      BookAll(c, calls[c].(pc := Executing, active := true, dispatches := calls[c].dispatches + 1), [CountActive(c), Dispatch(c)]);
    }

    /** The repository under recover: an unacknowledged Save may have stored the receipt. */
    method SaveReceipt(c: CallId, receipt: Receipt, answer: WriteAnswer) returns (saved: Option<Receipt>)
      requires Valid() && c in calls && calls[c].pc == Saving(receipt) && receipt.persistedAt == None
      modifies this, receipts
      ensures c in calls && Onward(c, calls[c]) && Same(calls[c], old(calls[c]))
      ensures active == old(active) && total == old(total) && persistFailures == old(persistFailures)
      ensures calls[c].route == old(calls[c].route) && calls[c].active == old(calls[c].active)
      ensures saved.Some? <==> receipt.id !in old(receipts.m) && answer == Acknowledged
      ensures saved.Some? ==> saved.value == WithPersistedAt(receipt, now) && receipts.m == old(receipts.m)[receipt.id := saved.value]
      ensures if saved.None? then calls[c].pc == CountingFailure
              else if calls[c].route == Missed && calls[c].req.key.Some? then calls[c].pc == RecordingKey(saved.value)
              else calls[c].pc == Emitting(saved.value)
    {
      hide HonestlyReached;
      ghost var before := Abs();
      saved := None;
      if answer != LostBefore {
        var r := receipts.Save(None, receipt, now);
        if r.Ok? && answer == Acknowledged {
          saved := Some(r.value);
        }
      }
      Book(before, Save(c, if receipt.id in before.repo then LostBefore else answer));
    }

    method CountSaveFailure(c: CallId)
      requires Valid() && c in calls && calls[c].pc.CountingFailure?
      modifies this
      ensures Onward(c, Unwind(old(calls[c]), PersistFailed))
      ensures active == old(active) && total == old(total) && persistFailures == old(persistFailures) + 1
    {
      hide HonestlyReached;
      ghost var before := Abs();
      persistFailures := persistFailures + 1;
      Book(before, CountFailure(c));
    }

    /** The idempotency store under recover, its error ignored. */
    method RecordKey(c: CallId, key: Key, saved: Receipt, answer: WriteAnswer)
      requires Valid() && c in calls && calls[c].pc == RecordingKey(saved) && calls[c].req.key == Some(key)
      modifies this, keys
      ensures c in calls && Onward(c, calls[c]) && Same(calls[c], old(calls[c])) && calls[c].pc == Emitting(saved) && calls[c].active == old(calls[c].active)
      ensures active == old(active) && total == old(total) && persistFailures == old(persistFailures)
      ensures keys.m == if answer == LostBefore then old(keys.m) else AfterRecord(old(keys.m), key, saved.id, now + cfg.window)
    {
      hide HonestlyReached;
      ghost var before := Abs();
      if answer != LostBefore {
        var _ := keys.Record(None, key, saved.id, cfg.window, now);
      }
      Book(before, Record(c, answer));
    }

    method EmitTotal(c: CallId)
      requires Valid() && c in calls && calls[c].pc.Emitting?
      modifies this
      ensures Onward(c, Unwind(old(calls[c]), Returned(old(calls[c]).pc.receipt)))
      ensures active == old(active) && total == old(total) + 1 && persistFailures == old(persistFailures)
    {
      hide HonestlyReached;
      ghost var before := Abs();
      total := total + 1;
      Book(before, Emit(c));
    }

    /** The first deferred call to run. */
    method Deactivate(c: CallId, o: Outcome)
      requires Valid() && c in calls && calls[c].pc == Deactivating(o)
      modifies this
      ensures Onward(c, old(calls[c]).(pc := Releasing(o), active := false))
      ensures active == old(active) - 1 && total == old(total) && persistFailures == old(persistFailures)
    {
      hide HonestlyReached;
      ghost var before := Abs();
      active := active - 1;
      Book(before, CountInactive(c));
    }

    /** The last deferred call to run. */
    method ReleaseSlot(c: CallId, o: Outcome)
      requires Valid() && c in calls && calls[c].pc == Releasing(o) && limiter.slots > 0
      modifies this, limiter
      ensures Onward(c, old(calls[c]).(pc := Done(o)))
      ensures active == old(active) && total == old(total) && persistFailures == old(persistFailures)
      ensures limiter.slots == old(limiter.slots) - 1 && limiter.inUse == old(limiter.inUse) - 1
    {
      hide HonestlyReached;
      ghost var before := Abs();
      limiter.Release();
      SlotFreed(cfg, limit, log, before, c, o);
      BookAll(c, calls[c].(pc := Done(o)), [FreeSlot(c), CountDown(c)]);
    }

    /** The deferred calls, the last registered first. */
    method Leave(c: CallId, o: Outcome, bumped: bool)
      requires Valid() && c in calls && calls[c].pc == (if bumped then Deactivating(o) else Releasing(o)) && limiter.slots > 0
      modifies this, limiter
      ensures c in calls && Onward(c, calls[c]) && Same(calls[c], old(calls[c])) && calls[c].pc == Done(o)
      ensures active == old(active) - (if bumped then 1 else 0)
      ensures total == old(total) && persistFailures == old(persistFailures)
      ensures limiter.slots == old(limiter.slots) - 1 && limiter.inUse == old(limiter.inUse) - 1
    {
      hide HonestlyReached;
      if bumped { Deactivate(c, o); }
      ReleaseSlot(c, o);
    }

    /** Time passes between the actions. */
    method Advance(t: nat)
      requires Valid() && now <= t
      modifies this
      ensures Valid() && log == old(log) + [Tick(t)] && now == t && calls == old(calls)
    {
      hide HonestlyReached;
      ghost var before := Abs();
      now := t;
      PlainStep(cfg, limit, log, before, Tick(t));
      log := log + [Tick(t)];
    }

    // ------------------------------------------------------------ the source's procedures

    /** What a finished procedure did to the counters and the repository, by its outcome. */
    twostate predicate Settled(o: Outcome)
      reads this, receipts
    {
      && total == old(total) + (if o.Returned? then 1 else 0)
      && persistFailures == old(persistFailures) + (if o.PersistFailed? then 1 else 0)
      && (o.Returned? ==> o.receipt.id !in old(receipts.m) && receipts.m == old(receipts.m)[o.receipt.id := o.receipt])
      && (!o.Returned? && !o.PersistFailed? ==> receipts.m == old(receipts.m))
    }

    /** After a successful Save: the key, recorded only on the adapter's path, and the final emit. */
    method Conclude(c: CallId, req: Request, missed: bool, saved: Receipt, w: World)
      requires Valid() && c in calls && calls[c].req == req && missed == calls[c].active
      requires calls[c].pc == if missed && req.key.Some? then RecordingKey(saved) else Emitting(saved)
      modifies this, keys
      ensures c in calls && Onward(c, calls[c]) && Same(calls[c], old(calls[c])) && calls[c].active == missed
      ensures active == old(active) && total == old(total) + 1 && persistFailures == old(persistFailures)
      ensures calls[c].pc == if missed then Deactivating(Returned(saved)) else Releasing(Returned(saved))
      ensures keys.m == if missed && req.key.Some? && w.record != LostBefore
                        then AfterRecord(old(keys.m), req.key.value, saved.id, now + cfg.window) else old(keys.m)
    {
      hide HonestlyReached, AfterRecord;
      if missed && req.key.Some? {
        RecordKey(c, req.key.value, saved, w.record);
      }
      EmitTotal(c);
    }

    /** Steps 10 and 11, and the end of persistStructural, which never records the key. */
    method Persist(c: CallId, req: Request, missed: bool, receipt: Receipt, w: World) returns (o: Outcome)
      requires Valid() && c in calls && calls[c].pc == Saving(receipt) && calls[c].req == req
      requires receipt.persistedAt == None && missed == (calls[c].route == Missed) && missed == calls[c].active
      modifies this, keys, receipts
      ensures c in calls && Onward(c, calls[c]) && Same(calls[c], old(calls[c])) && Settled(o) && active == old(active) && calls[c].active == missed
      ensures calls[c].pc == if missed then Deactivating(o) else Releasing(o)
      ensures o.Returned? || o.PersistFailed?
      ensures o.Returned? <==> receipt.id !in old(receipts.m) && w.save == Acknowledged
      ensures o.Returned? ==> o.receipt.persistedAt == Some(now) && o.receipt.(persistedAt := None) == receipt
      ensures keys.m == if missed && o.Returned? && req.key.Some? && w.record != LostBefore
                        then AfterRecord(old(keys.m), req.key.value, receipt.id, now + cfg.window) else old(keys.m)
    {
      hide HonestlyReached, AfterRecord;
      var saved := SaveReceipt(c, receipt, w.save);
      if saved.None? {
        CountSaveFailure(c);
        return PersistFailed;
      }
      Conclude(c, req, missed, saved.value, w);
      o := Returned(saved.value);
    }

    method AssembleShortcut(c: CallId, req: Request, cause: ErrorClass, w: World) returns (r: Option<Receipt>)
      requires Valid() && c in calls && calls[c].pc == Structural(cause) && calls[c].req == req && !calls[c].active
      modifies this
      ensures c in calls && Quietly(c, calls[c]) && Same(calls[c], old(calls[c])) && calls[c].route == old(calls[c].route) && !calls[c].active
      ensures calls[c].pc == if r.Some? then Saving(r.value) else Releasing(FailedEarly)
      ensures StructuralBy(req, cause, r, w.message, w.pseudoHandleOk, w.structuralId, now)
      ensures r.Some? ==> r.value.persistedAt == None
    {
      hide HonestlyReached, AssembleStructural;
      var result := AssembleStructuralReceipt(req, cause, w.message, w.pseudoHandleOk, w.structuralId, now);
      r := ToOption(result);
      assert StructuralBy(req, cause, r, w.message, w.pseudoHandleOk, w.structuralId, now);
      hide StructuralBy;
      StructuralStep(cfg, limit, log, Abs(), c, r, w.message, w.pseudoHandleOk, w.structuralId, now);
      BookAll(c, AfterAssembly(calls[c], r), [Assemble(c, r)]);
    }

    method PersistStructural(c: CallId, req: Request, cause: ErrorClass, w: World) returns (o: Outcome)
      requires Valid() && c in calls && calls[c].pc == Structural(cause) && calls[c].req == req
      requires calls[c].route == Shortcut && !calls[c].active && IsCause(cause)
      modifies this, keys, receipts
      ensures c in calls && Onward(c, calls[c]) && Same(calls[c], old(calls[c])) && Settled(o) && active == old(active)
      ensures calls[c].pc == Releasing(o) && !calls[c].active
      ensures o.Returned? || o.PersistFailed? || o.FailedEarly?
      ensures keys.m == old(keys.m) && Explained(cfg, limit, req, false, cause, w, now, o)
    {
      hide HonestlyReached, StructuralBy, DispatchedBy;
      var r := AssembleShortcut(c, req, cause, w);
      if r.None? { return FailedEarly; }
      StructuralTells(req, cause, r.value, w, now);
      o := Persist(c, req, false, r.value, w);
    }

    /** Steps 7 to 9: dispatch, classification and receipt. */
    method RunAdapter(c: CallId, req: Request, cap: Capability, env: Env) returns (r: Option<Receipt>)
      requires Valid() && c in calls && calls[c].pc.Activating? && calls[c].req == req
      requires calls[c].route == Missed && Lookup(cfg.registry, req.target.Canonical()) == Ok(cap)
      modifies this
      ensures c in calls && Onward(c, calls[c]) && calls[c].req == req && active == old(active) + 1
      ensures total == old(total) && persistFailures == old(persistFailures)
      ensures calls[c].active && calls[c].route == Missed && calls[c].dispatches == old(calls[c].dispatches) + 1
      ensures calls[c].pc == if r.Some? then Saving(r.value) else Deactivating(FailedEarly)
      ensures DispatchedBy(cfg, limit, req, r, env)
      ensures r.Some? ==> r.value.persistedAt == None
    {
      hide HonestlyReached, AssembleKind;
      Activate(c);
      var result := AssembleReceipt(limit, req, cap, KindOf(cap.id.Canonical()), env);
      r := ToOption(result);
      assert DispatchedBy(cfg, limit, req, r, env);
      hide DispatchedBy;
      DispatchedStep(cfg, limit, log, Abs(), c, r, env);
      BookAll(c, AfterAssembly(calls[c], r), [Assemble(c, r)]);
    }

    /** Steps 7 to 11. */
    method Dispatched(c: CallId, req: Request, cap: Capability, w: World) returns (o: Outcome)
      requires Valid() && c in calls && calls[c].pc.Activating? && calls[c].req == req
      requires calls[c].route == Missed && Lookup(cfg.registry, req.target.Canonical()) == Ok(cap)
      modifies this, keys, receipts
      ensures c in calls && Onward(c, calls[c]) && calls[c].req == req && Settled(o) && active == old(active) + 1
      ensures calls[c].pc == Deactivating(o) && calls[c].active && calls[c].dispatches == old(calls[c].dispatches) + 1
      ensures o.Returned? || o.PersistFailed? || o.FailedEarly?
      ensures o.Returned? && req.key.Some? && w.record == Acknowledged ==> req.key.value in keys.m
      ensures Explained(cfg, limit, req, true, CauseOf(cfg, req, w.handleOk), w, now, o)
    {
      hide HonestlyReached, DispatchedBy;
      var r := RunAdapter(c, req, cap, w.env);
      if r.None? { return FailedEarly; }
      o := Persist(c, req, true, r.value, w);
    }

    /** Steps 3 to 11: after a miss. */
    method ExecuteMissed(c: CallId, req: Request, w: World) returns (o: Outcome, bumped: bool)
      requires Valid() && c in calls && calls[c].pc.Resolving? && calls[c].req == req
      requires calls[c].route == Missed && !calls[c].active
      modifies this, keys, receipts
      ensures c in calls && Onward(c, calls[c]) && calls[c].req == req && Settled(o) && active == old(active) + (if bumped then 1 else 0)
      ensures calls[c].active == bumped && calls[c].pc == if bumped then Deactivating(o) else Releasing(o)
      ensures o.Returned? || o.PersistFailed? || o.FailedEarly?
      ensures !bumped ==> calls[c].dispatches == old(calls[c].dispatches) && keys.m == old(keys.m)
      ensures bumped ==> calls[c].dispatches == old(calls[c].dispatches) + 1
      ensures bumped <==> Dispatchable(cfg, req, w.handleOk)
      ensures Explained(cfg, limit, req, bumped, CauseOf(cfg, req, w.handleOk), w, now, o)
      ensures bumped && o.Returned? && req.key.Some? && w.record == Acknowledged ==> req.key.value in keys.m
    {
      hide HonestlyReached, Dispatchable, CauseOf, IsCause, Explained;
      var cap, cause := ResolveRequest(c, req, w.handleOk);
      bumped := cap.Some?;
      if bumped {
        o := Dispatched(c, req, cap.value, w);
      } else {
        o := PersistStructural(c, req, cause, w);
      }
    }

    /** Execute once a slot is held. */
    method ExecuteHolding(c: CallId, req: Request, w: World) returns (o: Outcome, bumped: bool)
      requires Valid() && c in calls && calls[c].pc.LookingUp? && calls[c].req == req
      requires !calls[c].active
      modifies this, keys, receipts
      ensures c in calls && Onward(c, calls[c]) && calls[c].req == req && Settled(o) && active == old(active) + (if bumped then 1 else 0)
      ensures calls[c].active == bumped && calls[c].pc == if bumped then Deactivating(o) else Releasing(o)
      ensures !o.Rejected?
      ensures o.Replayed? || o.ReplayFailed? <==>
                req.key.Some? && w.lookup == Answered && Live(old(keys.m), req.key.value, now).Some?
      ensures o.Replayed? ==> var rid := Live(old(keys.m), req.key.value, now).value;
                rid in receipts.m && o.receipt == receipts.m[rid]
      ensures !bumped ==> calls[c].dispatches == old(calls[c].dispatches) && keys.m == old(keys.m)
      ensures bumped ==> calls[c].dispatches == old(calls[c].dispatches) + 1
      ensures bumped <==> !o.Replayed? && !o.ReplayFailed? && Proceeds(cfg, req, w)
      ensures Explained(cfg, limit, req, bumped, FirstCause(cfg, req, w), w, now, o)
      ensures bumped && o.Returned? && req.key.Some? && w.record == Acknowledged ==> req.key.value in keys.m
    {
      hide HonestlyReached, Dispatchable, CauseOf, IsCause, Explained, Live;
      InternalErrorIsCause();
      var hit := LookUpKey(c, req, w.lookup);
      bumped := false;
      if req.key.Some? && w.lookup == LookupPanic {
        o := PersistStructural(c, req, AdapterInternalError, w);
      } else if hit.Some? {
        o := FindReceipt(c, hit.value, w.readable);
        NothingReturned(cfg, limit, req, false, FirstCause(cfg, req, w), w, now, o);
      } else {
        o, bumped := ExecuteMissed(c, req, w);
      }
    }

    /** Execute from the slot to the end, deferred calls included. */
    method ExecuteAdmitted(c: CallId, req: Request, w: World) returns (o: Outcome)
      requires Valid() && c in calls && calls[c].pc.LookingUp? && calls[c].req == req
      requires !calls[c].active && calls[c].dispatches == 0 && limiter.slots > 0
      modifies this, limiter, keys, receipts
      ensures c in calls && Onward(c, calls[c]) && calls[c].req == req && calls[c].pc == Done(o) && Settled(o) && !o.Rejected?
      ensures limiter.slots == old(limiter.slots) - 1 && limiter.inUse == old(limiter.inUse) - 1 && active == old(active)
      ensures o.Replayed? || o.ReplayFailed? <==>
                req.key.Some? && w.lookup == Answered && Live(old(keys.m), req.key.value, now).Some?
      ensures o.Replayed? ==> var rid := Live(old(keys.m), req.key.value, now).value;
                rid in receipts.m && o.receipt == receipts.m[rid]
      ensures calls[c].dispatches == if !o.Replayed? && !o.ReplayFailed? && Proceeds(cfg, req, w) then 1 else 0
      ensures Explained(cfg, limit, req, calls[c].dispatches == 1, FirstCause(cfg, req, w), w, now, o)
      ensures calls[c].dispatches == 0 ==> keys.m == old(keys.m)
      ensures calls[c].dispatches == 1 && o.Returned? && req.key.Some? && w.record == Acknowledged ==> req.key.value in keys.m
    {
      hide HonestlyReached, Live, Proceeds, FirstCause, Explained;
      var bumped;
      o, bumped := ExecuteHolding(c, req, w);
      Leave(c, o, bumped);
    }

    /** From any reachable state of the service, whatever the other calls are in the middle of. */
    method Execute(c: CallId, req: Request, w: World) returns (o: Outcome)
      requires Valid() && c !in calls
      modifies this, limiter, keys, receipts
      ensures Valid() && old(log) <= log && now == old(now)
      ensures c in calls && calls - {c} == old(calls - {c}) && calls[c].req == req && calls[c].pc == Done(o)
      ensures limiter.slots == old(limiter.slots) && limiter.inUse == old(limiter.inUse) && active == old(active)
      ensures o.Rejected? <==> old(limiter.slots) >= cfg.max
      ensures rejects == old(rejects) + (if o.Rejected? then 1 else 0) && Settled(o)
      ensures o.Replayed? || o.ReplayFailed? <==>
                !o.Rejected? && req.key.Some? && w.lookup == Answered && Live(old(keys.m), req.key.value, now).Some?
      ensures o.Replayed? ==> var rid := Live(old(keys.m), req.key.value, now).value;
                rid in receipts.m && o.receipt == receipts.m[rid]
      ensures calls[c].dispatches == if !o.Rejected? && !o.Replayed? && !o.ReplayFailed? && Proceeds(cfg, req, w) then 1 else 0
      ensures Explained(cfg, limit, req, calls[c].dispatches == 1, FirstCause(cfg, req, w), w, now, o)
      ensures calls[c].dispatches == 0 ==> keys.m == old(keys.m)
      ensures calls[c].dispatches == 1 && o.Returned? && req.key.Some? && w.record == Acknowledged ==> req.key.value in keys.m
    {
      hide HonestlyReached, Live, Proceeds, FirstCause, Explained;
      Begin(c, req);
      var ok := Acquire(c);
      NothingReturned(cfg, limit, req, false, FirstCause(cfg, req, w), w, now, Rejected);
      if !ok { return Rejected; }
      o := ExecuteAdmitted(c, req, w);
    }
  }
}
