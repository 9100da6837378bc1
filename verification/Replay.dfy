/** Idempotent replay over every interleaving: the key table and the repository only grow, each key leads
    to a saved receipt of a dispatched request with that key, and all replays of a key agree. */
module Replay {
  import opened Wrappers
  import opened Domain
  import opened Stores
  import opened Protocol

  // ---------------------------------------------------------------- nothing is ever taken back

  ghost predicate SubTable<K(!new), V>(a: map<K, V>, b: map<K, V>) {
    forall k :: k in a ==> k in b && b[k] == a[k]
  }

  /** `t` is a later state of the same run. */
  ghost predicate Extends(s: State, t: State) {
    && SubTable(s.keys, t.keys) && SubTable(s.repo, t.repo) && SubTable(s.author, t.author)
    && s.now <= t.now
    && (forall c :: c in s.calls ==>
          && c in t.calls && t.calls[c].req == s.calls[c].req
          && s.calls[c].dispatches <= t.calls[c].dispatches && s.calls[c].saves <= t.calls[c].saves
          && (s.calls[c].saves >= 1 ==> t.calls[c].assembled == s.calls[c].assembled))
  }

  /** Every saved receipt has an author. */
  ghost predicate Authored(s: State) {
    s.repo.Keys == s.author.Keys
  }

  lemma StoresGrow(cfg: Config, s: State, ev: Event)
    requires Enabled(s, ev) && Authored(s)
    ensures var t := SharedAfter(cfg, s, ev);
            && SubTable(s.keys, t.keys) && SubTable(s.repo, t.repo) && SubTable(s.author, t.author)
            && s.now <= t.now && Authored(t)
  {
    if ev.Save? && ev.write != LostBefore {
      assert s.calls[ev.c].pc.receipt.id !in s.author;
    }
  }

  lemma HistoryGrows(cfg: Config, s: State, ev: Event)
    requires Enabled(s, ev) && !ev.Tick? && !ev.Arrive? && CallFits(s.calls[ev.c])
    ensures var old', new' := s.calls[ev.c], CallAfter(cfg, s, ev);
            && new'.req == old'.req && old'.dispatches <= new'.dispatches && old'.saves <= new'.saves
            && (old'.saves >= 1 ==> new'.assembled == old'.assembled)
  {
  }

  lemma StepExtends(cfg: Config, s: State, ev: Event)
    requires Enabled(s, ev) && Authored(s)
    requires !ev.Tick? && !ev.Arrive? ==> CallFits(s.calls[ev.c])
    ensures Extends(s, Next(cfg, s, ev)) && Authored(Next(cfg, s, ev))
  {
    StoresGrow(cfg, s, ev);
    if !ev.Tick? && !ev.Arrive? {
      HistoryGrows(cfg, s, ev);
    }
  }

  // ---------------------------------------------------------------- the store invariant

  ghost predicate ReceiptOwned(s: State, rid: ReceiptId)
    requires rid in s.repo
  {
    && s.repo[rid].id == rid && rid in s.author && s.author[rid] in s.calls
    && s.calls[s.author[rid]].req == s.repo[rid].request && s.calls[s.author[rid]].saves >= 1
    && s.repo[rid].persistedAt.Some? && s.calls[s.author[rid]].assembled == Some(s.repo[rid].(persistedAt := None))
  }

  ghost predicate ReceiptsOwned(s: State) {
    forall rid :: rid in s.repo ==> ReceiptOwned(s, rid)
  }

  /** A recorded key leads to a saved receipt of a dispatched request carrying that key. */
  ghost predicate KeyBacked(s: State, k: Key)
    requires k in s.keys
  {
    var rid := s.keys[k].rid;
    && rid in s.repo && rid in s.author && s.author[rid] in s.calls
    && s.repo[rid].request.key == Some(k)
    && s.calls[s.author[rid]].dispatches >= 1
  }

  ghost predicate KeysBacked(s: State) {
    forall k :: k in s.keys ==> KeyBacked(s, k)
  }

  ghost predicate OwnReceipt(s: State, c: CallId, r: Receipt) {
    r.id in s.repo && s.repo[r.id] == r && r.id in s.author && s.author[r.id] == c
  }

  ghost predicate CachedReceipt(s: State, key: Option<Key>, r: Receipt) {
    key.Some? && key.value in s.keys && s.keys[key.value].rid in s.repo && s.repo[s.keys[key.value].rid] == r
  }

  ghost predicate OutcomeStored(s: State, c: CallId, key: Option<Key>, o: Outcome) {
    && (o.Replayed? ==> CachedReceipt(s, key, o.receipt))
    && (o.Returned? ==> OwnReceipt(s, c, o.receipt))
  }

  /** What a call in progress relies on in the stores. */
  ghost predicate CallStored(s: State, c: CallId, call: Call) {
    && (call.pc.Finding? ==>
          call.req.key.Some? && call.req.key.value in s.keys && s.keys[call.req.key.value].rid == call.pc.rid)
    && (call.pc.RecordingKey? || call.pc.Emitting? ==> OwnReceipt(s, c, call.pc.receipt))
    && (call.pc.Deactivating? || call.pc.Releasing? || call.pc.CountingDown? || call.pc.Done? ==>
          OutcomeStored(s, c, call.req.key, call.pc.outcome))
  }

  ghost predicate CallsStored(s: State) {
    forall c :: c in s.calls ==> CallStored(s, c, s.calls[c])
  }

  ghost predicate StoreInv(s: State) {
    Authored(s) && ReceiptsOwned(s) && KeysBacked(s) && CallsStored(s)
  }

  lemma StoredStays(s: State, t: State, c: CallId, call: Call)
    requires Extends(s, t) && CallStored(s, c, call)
    ensures CallStored(t, c, call)
  {
  }

  /** The steps that take a receipt out of a store or put one in. */
  predicate TouchesReceipt(ev: Event) {
    ev.Save? || ev.Find? || ev.LookUp?
  }

  lemma CarrierStored(cfg: Config, s: State, ev: Event, t: State)
    requires Enabled(s, ev) && !ev.Tick? && !ev.Arrive? && !TouchesReceipt(ev)
    requires CallStored(t, ev.c, s.calls[ev.c])
    ensures CallStored(t, ev.c, CallAfter(cfg, s, ev))
  {
  }

  lemma TakerStored(cfg: Config, s: State, ev: Event, t: State)
    requires Enabled(s, ev) && TouchesReceipt(ev)
    requires SharedAfter(cfg, s, ev).keys == t.keys && SharedAfter(cfg, s, ev).repo == t.repo
    requires SharedAfter(cfg, s, ev).author == t.author
    requires CallStored(s, ev.c, s.calls[ev.c])
    requires ev.Find? ==> s.calls[ev.c].pc.rid in s.repo
    ensures CallStored(t, ev.c, CallAfter(cfg, s, ev))
  {
  }

  lemma ActorStored(cfg: Config, s: State, ev: Event)
    requires Enabled(s, ev) && !ev.Tick? && !ev.Arrive? && CallFits(s.calls[ev.c])
    requires Authored(s) && CallStored(s, ev.c, s.calls[ev.c])
    requires ev.Find? ==> s.calls[ev.c].pc.rid in s.repo
    ensures CallStored(Next(cfg, s, ev), ev.c, CallAfter(cfg, s, ev))
  {
    var t := Next(cfg, s, ev);
    if TouchesReceipt(ev) {
      TakerStored(cfg, s, ev, t);
    } else {
      StepExtends(cfg, s, ev);
      StoredStays(s, t, ev.c, s.calls[ev.c]);
      CarrierStored(cfg, s, ev, t);
    }
  }

  lemma CallsStoredStep(cfg: Config, s: State, ev: Event)
    requires Enabled(s, ev) && StoreInv(s) && CallsFit(s)
    ensures CallsStored(Next(cfg, s, ev))
  {
    hide CallAfter, CallFits, SharedAfter, CallStored;
    var t := Next(cfg, s, ev);
    SharedKeepsCalls(cfg, s, ev);
    StepExtends(cfg, s, ev);
    forall c | c in t.calls
      ensures CallStored(t, c, t.calls[c])
    {
      if ev.Tick? || ev.c != c {
        StoredStays(s, t, c, s.calls[c]);
      } else if ev.Arrive? {
        FreshCallStored(t, c, ev.req);
      } else {
        FindingBacked(s, c);
        ActorStored(cfg, s, ev);
      }
    }
  }

  lemma FreshCallStored(s: State, c: CallId, req: Request)
    ensures CallStored(s, c, NewCall(req))
  {
  }

  /** A call about to read a cached receipt will find it. */
  lemma FindingBacked(s: State, c: CallId)
    requires StoreInv(s) && c in s.calls
    ensures s.calls[c].pc.Finding? ==> s.calls[c].pc.rid in s.repo
  {
    assert CallStored(s, c, s.calls[c]);
    if s.calls[c].pc.Finding? {
      assert KeyBacked(s, s.calls[c].req.key.value);
    }
  }

  lemma NewReceiptOwned(cfg: Config, s: State, ev: Event, rid: ReceiptId)
    requires Enabled(s, ev) && rid !in s.repo && rid in SharedAfter(cfg, s, ev).repo
    requires !ev.Tick? && !ev.Arrive? ==> CallFits(s.calls[ev.c])
    ensures ReceiptOwned(Next(cfg, s, ev), rid)
  {
  }

  lemma ReceiptsOwnedStep(cfg: Config, s: State, ev: Event)
    requires Enabled(s, ev) && Authored(s) && ReceiptsOwned(s)
    requires !ev.Tick? && !ev.Arrive? ==> CallFits(s.calls[ev.c])
    ensures ReceiptsOwned(Next(cfg, s, ev))
  {
    hide CallAfter, Enabled, CallFits;
    var t := Next(cfg, s, ev);
    StepExtends(cfg, s, ev);
    forall rid | rid in t.repo
      ensures ReceiptOwned(t, rid)
    {
      if rid in s.repo {
        assert ReceiptOwned(s, rid);
      } else {
        NewReceiptOwned(cfg, s, ev, rid);
      }
    }
  }

  /** A key is recorded for the receipt its own dispatched call has saved. */
  lemma NewKeyBacked(cfg: Config, s: State, ev: Event, k: Key)
    requires Enabled(s, ev) && Authored(s)
    requires k !in s.keys && k in SharedAfter(cfg, s, ev).keys
    requires !ev.Tick? && !ev.Arrive? ==> CallFits(s.calls[ev.c]) && CallStored(s, ev.c, s.calls[ev.c])
    ensures KeyBacked(Next(cfg, s, ev), k)
  {
  }

  lemma KeysBackedStep(cfg: Config, s: State, ev: Event)
    requires Enabled(s, ev) && StoreInv(s) && CallsFit(s)
    ensures KeysBacked(Next(cfg, s, ev))
  {
    var t := Next(cfg, s, ev);
    StepExtends(cfg, s, ev);
    forall k | k in t.keys
      ensures KeyBacked(t, k)
    {
      if k in s.keys {
        assert KeyBacked(s, k);
      } else {
        NewKeyBacked(cfg, s, ev, k);
      }
    }
  }

  lemma StoreInvStep(cfg: Config, s: State, ev: Event)
    requires Enabled(s, ev) && StoreInv(s) && CallsFit(s)
    ensures StoreInv(Next(cfg, s, ev)) && CallsFit(Next(cfg, s, ev)) && Extends(s, Next(cfg, s, ev))
  {
    StepExtends(cfg, s, ev);
    CallsFitStep(cfg, s, ev);
    CallsStoredStep(cfg, s, ev);
    ReceiptsOwnedStep(cfg, s, ev);
    KeysBackedStep(cfg, s, ev);
  }

  lemma {:induction false} StoreInvAlong(cfg: Config, s: State, evs: seq<Event>)
    requires Runs(cfg, s, evs) && StoreInv(s) && CallsFit(s)
    ensures StoreInv(Final(cfg, s, evs)) && CallsFit(Final(cfg, s, evs)) && Extends(s, Final(cfg, s, evs))
    decreases |evs|
  {
    if evs != [] {
      StoreInvStep(cfg, s, evs[0]);
      StoreInvAlong(cfg, Next(cfg, s, evs[0]), evs[1..]);
    }
  }

  lemma StoreInvWhenReachable(cfg: Config, s: State)
    requires Reachable(cfg, s)
    ensures StoreInv(s) && CallsFit(s)
  {
    var evs :| Runs(cfg, Init(), evs) && Final(cfg, Init(), evs) == s;
    StoreInvAlong(cfg, Init(), evs);
  }

  // ---------------------------------------------------------------- main results

  /** Every recorded key maps to a saved receipt whose request carries that key and whose author reached
      the adapter: structural failures are never cached. */
  lemma RecordedKeysAreReal(cfg: Config, s: State, k: Key)
    requires Reachable(cfg, s) && k in s.keys
    ensures var rid := s.keys[k].rid;
            && rid in s.repo && s.repo[rid].id == rid
            && s.repo[rid].request.key == Some(k)
            && rid in s.author && s.author[rid] in s.calls
            && s.calls[s.author[rid]].req == s.repo[rid].request
            && s.calls[s.author[rid]].dispatches == 1 && s.calls[s.author[rid]].route == Missed
  {
    StoreInvWhenReachable(cfg, s);
    assert KeyBacked(s, k);
    assert CallFits(s.calls[s.author[s.keys[k].rid]]);
  }

  lemma FoundUnwinds(cfg: Config, s: State, c: CallId)
    requires c in s.calls && CallFits(s.calls[c]) && s.calls[c].pc.Finding? && s.calls[c].pc.rid in s.repo
    ensures CallAfter(cfg, s, Find(c, true)).pc == Releasing(Replayed(s.repo[s.calls[c].pc.rid]))
  {
  }

  /** A lookup hit always finds its receipt: the replay read can only fail by an unreadable store. */
  lemma ReplayNeverDangles(cfg: Config, s: State, c: CallId)
    requires Reachable(cfg, s) && c in s.calls && s.calls[c].pc.Finding?
    ensures s.calls[c].pc.rid in s.repo
    ensures CallAfter(cfg, s, Find(c, true)).pc == Releasing(Replayed(s.repo[s.calls[c].pc.rid]))
  {
    StoreInvWhenReachable(cfg, s);
    assert CallStored(s, c, s.calls[c]) && KeyBacked(s, s.calls[c].req.key.value);
    FoundUnwinds(cfg, s, c);
  }

  /** All replays of one key in one run return the same receipt, the one recorded for the key. */
  lemma ReplaysAgree(cfg: Config, s: State, c: CallId, d: CallId)
    requires Reachable(cfg, s) && c in s.calls && d in s.calls
    requires s.calls[c].pc.Done? && s.calls[c].pc.outcome.Replayed?
    requires s.calls[d].pc.Done? && s.calls[d].pc.outcome.Replayed?
    requires s.calls[c].req.key == s.calls[d].req.key
    ensures s.calls[c].pc.outcome.receipt == s.calls[d].pc.outcome.receipt
    ensures s.calls[c].pc.outcome.receipt.request.key == s.calls[c].req.key
  {
    StoreInvWhenReachable(cfg, s);
    assert CallStored(s, c, s.calls[c]) && CallStored(s, d, s.calls[d]);
    assert KeyBacked(s, s.calls[c].req.key.value);
  }

  /** Every stored receipt is, but for its persistence time, exactly the receipt its author assembled. */
  lemma StoredAsAssembled(cfg: Config, s: State, rid: ReceiptId)
    requires Reachable(cfg, s) && rid in s.repo
    ensures rid in s.author && s.author[rid] in s.calls
    ensures s.repo[rid].persistedAt.Some?
    ensures s.calls[s.author[rid]].assembled == Some(s.repo[rid].(persistedAt := None))
  {
    StoreInvWhenReachable(cfg, s);
    assert ReceiptOwned(s, rid);
  }

  /** Receipts handed to callers are exactly what the repository holds, and stay so. */
  lemma ReturnedReceiptsArePersisted(cfg: Config, s: State, c: CallId, evs: seq<Event>)
    requires Reachable(cfg, s) && c in s.calls && s.calls[c].pc.Done?
    requires s.calls[c].pc.outcome.Returned? || s.calls[c].pc.outcome.Replayed?
    requires Runs(cfg, s, evs)
    ensures var r := s.calls[c].pc.outcome.receipt;
            r.id in Final(cfg, s, evs).repo && Final(cfg, s, evs).repo[r.id] == r
  {
    StoreInvWhenReachable(cfg, s);
    assert CallStored(s, c, s.calls[c]);
    StoreInvAlong(cfg, s, evs);
  }

  /** The mapping of a key is write-once, expired or not; and because an expired row also blocks every
      later Record, a key that has expired never answers again. */
  lemma KeysAreWriteOnce(cfg: Config, s: State, k: Key, evs: seq<Event>)
    requires Reachable(cfg, s) && k in s.keys && Runs(cfg, s, evs)
    ensures k in Final(cfg, s, evs).keys && Final(cfg, s, evs).keys[k] == s.keys[k]
    ensures Live(s.keys, k, s.now) == None ==> Live(Final(cfg, s, evs).keys, k, Final(cfg, s, evs).now) == None
  {
    StoreInvWhenReachable(cfg, s);
    StoreInvAlong(cfg, s, evs);
  }
}
