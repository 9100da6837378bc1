/** The dispatch bound cannot be improved: it is attained for every capacity, and it needs the expiry condition. */
module DedupSharp {
  import opened Wrappers
  import opened Domain
  import opened Capabilities
  import opened Stores
  import opened Protocol
  import opened Counting
  import opened Dedup

  function InAdapter(req: Request): Call {
    Call(req, Executing, Missed, true, 1, 0, NotSaved, false, None)
  }

  /** `s` with one call in a given condition. */
  function With(s: State, c: CallId, call: Call): State {
    s.(calls := s.calls[c := call])
  }

  /** One step of one call, as a change of that call and of the shared fields only. */
  lemma Move(cfg: Config, s: State, c: CallId, from: Call, ev: Event, s': State, to: Call)
    requires Reachable(cfg, With(s, c, from)) && !ev.Tick? && !ev.Arrive? && ev.c == c
    requires Enabled(With(s, c, from), ev)
    requires CallAfter(cfg, With(s, c, from), ev) == to
    requires SharedAfter(cfg, With(s, c, from), ev) == With(s', c, from)
    ensures Reachable(cfg, With(s', c, to))
  {
    hide CallAfter, SharedAfter, Enabled, Reachable;
    var t := ReachableStep(cfg, With(s, c, from), ev);
    SharedKeepsCalls(cfg, With(s, c, from), ev);
    assert s'.calls[c := from][c := to] == s'.calls[c := to];
    assert With(s, c, from).calls[c := to] == s'.calls[c := to];
  }

  /** Admission: arrival, slot, counter. */
  lemma Enter(cfg: Config, s: State, c: CallId, req: Request) returns (t: State)
    requires Reachable(cfg, s) && c !in s.calls && s.slots < cfg.max
    ensures t == s.(slots := s.slots + 1, inUse := s.inUse + 1)
    ensures Reachable(cfg, With(t, c, NewCall(req).(pc := LookingUp)))
  {
    hide Reachable;
    var arrived := ReachableStep(cfg, s, Arrive(c, req));
    var counting := NewCall(req).(pc := CountingUp);
    var s1 := s.(slots := s.slots + 1);
    Move(cfg, s, c, NewCall(req), TakeSlot(c), s1, counting);
    t := s1.(inUse := s.inUse + 1);
    Move(cfg, s1, c, counting, CountUp(c), t, NewCall(req).(pc := LookingUp));
  }

  /** Lookup and resolution. */
  lemma Approach(cfg: Config, s: State, c: CallId, req: Request, missed: Call)
    requires Reachable(cfg, With(s, c, NewCall(req).(pc := LookingUp)))
    requires req.key.Some? && Live(s.keys, req.key.value, s.now) == None
    requires Obstacle(cfg, req, true) == None
    requires missed == NewCall(req).(pc := Resolving, route := Missed)
    ensures Reachable(cfg, With(s, c, missed.(pc := Activating)))
  {
    hide Reachable, Obstacle;
    Move(cfg, s, c, NewCall(req).(pc := LookingUp), LookUp(c, Answered), s, missed);
    Move(cfg, s, c, missed, Resolve(c, true), s, missed.(pc := Activating));
  }

  /** A call that misses its lookup and meets no obstacle runs undisturbed into its adapter. */
  lemma Admit(cfg: Config, s: State, c: CallId, req: Request) returns (t: State)
    requires Reachable(cfg, s) && c !in s.calls && s.slots < cfg.max
    requires req.key.Some? && Live(s.keys, req.key.value, s.now) == None
    requires Obstacle(cfg, req, true) == None
    ensures Reachable(cfg, t)
    ensures t == With(s, c, InAdapter(req)).(slots := s.slots + 1, inUse := s.inUse + 1, active := s.active + 1)
  {
    hide Reachable, Obstacle, Live;
    var s1 := Enter(cfg, s, c, req);
    var missed := NewCall(req).(pc := Resolving, route := Missed);
    Approach(cfg, s1, c, req, missed);
    var s2 := s1.(active := s.active + 1);
    var ready := missed.(pc := Dispatching, active := true);
    Move(cfg, s1, c, missed.(pc := Activating), CountActive(c), s2, ready);
    Move(cfg, s2, c, ready, Dispatch(c), s2, InAdapter(req));
    t := With(s2, c, InAdapter(req));
  }

  function Completed(req: Request, r: Receipt): Call {
    Call(req, Done(Returned(r)), Missed, false, 1, 1, SaveOk, false, Some(r.(persistedAt := None)))
  }

  /** From the adapter into the repository. */
  lemma Store(cfg: Config, s: State, c: CallId, r: Receipt) returns (t: State)
    requires Reachable(cfg, With(s, c, InAdapter(r.request)))
    requires r.request.key.Some? && r.id !in s.repo && r.persistedAt == None
    ensures t == s.(repo := s.repo[r.id := WithPersistedAt(r, s.now)], author := s.author[r.id := c])
    ensures Reachable(cfg, With(t, c, Stored(WithPersistedAt(r, s.now), RecordingKey(WithPersistedAt(r, s.now)))))
  {
    hide Reachable;
    var saving := InAdapter(r.request).(pc := Saving(r), assembled := Some(r));
    Move(cfg, s, c, InAdapter(r.request), Assemble(c, Some(r)), s, saving);
    t := s.(repo := s.repo[r.id := WithPersistedAt(r, s.now)], author := s.author[r.id := c]);
    Move(cfg, s, c, saving, Save(c, Acknowledged), t, Stored(WithPersistedAt(r, s.now), RecordingKey(WithPersistedAt(r, s.now))));
  }

  /** A dispatched call after its successful Save. */
  function Stored(saved: Receipt, pc: Pc): Call {
    Call(saved.request, pc, Missed, true, 1, 1, SaveOk, false, Some(saved.(persistedAt := None)))
  }

  /** From Record to the end of the metrics. */
  lemma Report(cfg: Config, s: State, c: CallId, saved: Receipt) returns (t: State)
    requires Reachable(cfg, With(s, c, Stored(saved, RecordingKey(saved)))) && saved.request.key.Some?
    ensures t == s.(keys := AfterRecord(s.keys, saved.request.key.value, saved.id, s.now + cfg.window), total := s.total + 1)
    ensures Reachable(cfg, With(t, c, Stored(saved, Deactivating(Returned(saved)))))
  {
    hide Reachable;
    var s1 := s.(keys := AfterRecord(s.keys, saved.request.key.value, saved.id, s.now + cfg.window));
    Move(cfg, s, c, Stored(saved, RecordingKey(saved)), Record(c, Acknowledged),
         s1, Stored(saved, Emitting(saved)));
    t := s1.(total := s1.total + 1);
    Move(cfg, s1, c, Stored(saved, Emitting(saved)), Emit(c),
         t, Stored(saved, Deactivating(Returned(saved))));
  }

  /** The deferred Release. */
  lemma Release(cfg: Config, s: State, c: CallId, over: Call, o: Outcome) returns (t: State)
    requires over.pc == Done(o) && Reachable(cfg, With(s, c, over.(pc := Releasing(o)))) && s.slots > 0
    ensures t == s.(slots := s.slots - 1, inUse := s.inUse - 1)
    ensures Reachable(cfg, With(t, c, over))
  {
    hide Reachable;
    var s1 := s.(slots := s.slots - 1);
    Move(cfg, s, c, over.(pc := Releasing(o)), FreeSlot(c), s1, over.(pc := CountingDown(o)));
    t := s1.(inUse := s1.inUse - 1);
    Move(cfg, s1, c, over.(pc := CountingDown(o)), CountDown(c), t, over);
  }

  /** The deferred calls. */
  lemma Leave(cfg: Config, s: State, c: CallId, saved: Receipt) returns (t: State)
    requires Reachable(cfg, With(s, c, Stored(saved, Deactivating(Returned(saved))))) && s.slots > 0
    ensures t == s.(active := s.active - 1, slots := s.slots - 1, inUse := s.inUse - 1)
    ensures Reachable(cfg, With(t, c, Completed(saved.request, saved)))
  {
    hide Reachable;
    var o := Returned(saved);
    var s1 := s.(active := s.active - 1);
    var over := Completed(saved.request, saved);
    Move(cfg, s, c, Stored(saved, Deactivating(o)), CountInactive(c), s1, over.(pc := Releasing(o)));
    t := Release(cfg, s1, c, over, o);
  }

  /** With stores that acknowledge and a fresh id, a dispatched call runs undisturbed to its end. */
  lemma Complete(cfg: Config, s: State, c: CallId, r: Receipt) returns (t: State)
    requires Reachable(cfg, With(s, c, InAdapter(r.request))) && s.slots > 0
    requires r.request.key.Some? && r.id !in s.repo && r.persistedAt == None
    ensures Reachable(cfg, With(t, c, Completed(r.request, WithPersistedAt(r, s.now))))
    ensures t.calls == s.calls && t.slots == s.slots - 1 && t.now == s.now
    ensures t.repo == s.repo[r.id := WithPersistedAt(r, s.now)]
    ensures t.keys == AfterRecord(s.keys, r.request.key.value, r.id, s.now + cfg.window)
  {
    hide Reachable;
    var s1 := Store(cfg, s, c, r);
    var s2 := Report(cfg, s1, c, WithPersistedAt(r, s.now));
    t := Leave(cfg, s2, c, WithPersistedAt(r, s.now));
  }

  // ---------------------------------------------------------------- a small service

  const TARGET := Triple("ab", "cd", "v1")
  const THE_KEY := Key("k")
  const THE_REQUEST := Request(Some(THE_KEY), TARGET, 1, 1)

  function Service(max: nat): Config {
    Config(max, 1, 0, map[TARGET.Canonical() := Capability(TARGET, false, 1)], {"ab"})
  }

  lemma ReachableInit(cfg: Config)
    ensures Reachable(cfg, Init())
  {
    assert Runs(cfg, Init(), []);
  }

  /** `n` calls at once inside the adapter with the same key. */
  ghost predicate Crowd(s: State, n: nat) {
    && s.slots == n && s.keys == map[]
    && |s.calls| == n
    && forall c :: c in s.calls ==> c < n && s.calls[c] == InAdapter(THE_REQUEST)
  }

  lemma {:induction false} Crowding(max: nat, n: nat) returns (s: State)
    requires n <= max
    ensures Reachable(Service(max), s) && Crowd(s, n)
  {
    if n == 0 {
      s := Init();
      ReachableInit(Service(max));
    } else {
      var before := Crowding(max, n - 1);
      s := Admit(Service(max), before, n - 1, THE_REQUEST);
    }
  }

  /** For every capacity some run, with no store failure at all, dispatches one key `max` times: concurrent
      duplicates are limited only by the limiter. */
  lemma MaxDispatchesAttained(max: nat)
    ensures exists s :: Reachable(Service(max), s) && Unexpired(s, THE_KEY)
                        && |Dispatches(s, THE_KEY)| == max && FaultedDispatches(s, THE_KEY) == {}
  {
    var s := Crowding(max, max);
    assert Dispatches(s, THE_KEY) == s.calls.Keys;
    assert FaultedDispatches(s, THE_KEY) == {};
  }

  /** A key recorded by call 0 under receipt "1", now expired. */
  lemma Expire(cfg: Config, result: ExecutionResult) returns (s: State)
    requires cfg == Service(1)
    ensures Reachable(cfg, s) && s.slots == 0 && s.calls.Keys == {0} && ReceiptId("2") !in s.repo
    ensures s.calls[0].dispatches == 1 && !s.calls[0].faulted && s.calls[0].req == THE_REQUEST
    ensures THE_KEY in s.keys && s.keys[THE_KEY].rid == ReceiptId("1") && s.keys[THE_KEY].expiresAt <= s.now
  {
    ReachableInit(cfg);
    var r1 := Receipt(ReceiptId("1"), THE_REQUEST, TARGET, result, 0, 0, None);
    var s1 := Admit(cfg, Init(), 0, THE_REQUEST);
    assert With(s1, 0, InAdapter(THE_REQUEST)) == s1;
    var done := Complete(cfg, s1, 0, r1);
    var s2 := With(done, 0, Completed(THE_REQUEST, WithPersistedAt(r1, 0)));
    s := ReachableStep(cfg, s2, Tick(s2.now + 1));
  }

  /** Past expiry the bound is lost although no store failed: with one slot the key is dispatched twice, and the
      second call saves and returns its own receipt while the stale row keeps it from being recorded. */
  lemma ExpiryLosesDedup(result: ExecutionResult)
    ensures exists s :: Reachable(Service(1), s) && !Unexpired(s, THE_KEY)
                        && |Dispatches(s, THE_KEY)| == 2 && FaultedDispatches(s, THE_KEY) == {}
                        && 1 in s.calls && s.calls[1].pc.Done? && s.calls[1].pc.outcome.Returned?
                        && s.calls[1].pc.outcome.receipt.id == ReceiptId("2") && s.calls[1].req.key == Some(THE_KEY)
                        && THE_KEY in s.keys && s.keys[THE_KEY].rid == ReceiptId("1")
  {
    var cfg := Service(1);
    var s3 := Expire(cfg, result);
    var r2 := Receipt(ReceiptId("2"), THE_REQUEST, TARGET, result, 0, 0, None);
    var s4 := Admit(cfg, s3, 1, THE_REQUEST);
    hide Reachable;
    assert With(s4, 1, InAdapter(THE_REQUEST)) == s4;
    var done := Complete(cfg, s4, 1, r2);
    var s := With(done, 1, Completed(THE_REQUEST, WithPersistedAt(r2, s4.now)));
    assert s.calls.Keys == {0, 1} && s.calls[0] == s3.calls[0];
    assert Dispatches(s, THE_KEY) == {0, 1};
    assert FaultedDispatches(s, THE_KEY) == {};
  }
}
