/** How often one idempotency key can reach an adapter. */
module Dedup {
  import opened Wrappers
  import opened Domain
  import opened Stores
  import opened Protocol
  import opened Counting
  import Accounting
  import Replay

  // ---------------------------------------------------------------- the calls of one key

  /** Past a missed lookup, heading for the adapter or through it, and not let down by a store. */
  predicate IsCommitted(k: Key, call: Call) {
    call.req.key == Some(k) && call.route == Missed && !call.faulted
  }

  /** Between the missed lookup and the end of Record. */
  predicate IsInFlight(k: Key, call: Call) {
    && call.req.key == Some(k) && call.route == Missed
    && (call.pc.Resolving? || call.pc.Activating? || call.pc.Dispatching? || call.pc.Executing?
        || call.pc.Saving? || call.pc.RecordingKey?)
  }

  predicate IsDispatched(k: Key, call: Call) {
    call.req.key == Some(k) && call.dispatches >= 1
  }

  function CommittedTest(k: Key): Call -> bool { (call: Call) => IsCommitted(k, call) }

  function InFlightTest(k: Key): Call -> bool { (call: Call) => IsInFlight(k, call) }

  function DispatchedTest(k: Key): Call -> bool { (call: Call) => IsDispatched(k, call) }

  function FaultedTest(k: Key): Call -> bool { (call: Call) => IsDispatched(k, call) && call.faulted }

  ghost function Committed(s: State, k: Key): set<CallId> { Where(s.calls, CommittedTest(k)) }

  ghost function InFlight(s: State, k: Key): set<CallId> { Where(s.calls, InFlightTest(k)) }

  /** Calls that handed the key's request to an adapter; each does so at most once. */
  ghost function Dispatches(s: State, k: Key): set<CallId> { Where(s.calls, DispatchedTest(k)) }

  /** Dispatches whose lookup, assembly, Save or Record failed. */
  ghost function FaultedDispatches(s: State, k: Key): set<CallId> { Where(s.calls, FaultedTest(k)) }

  /** Dispatches no store failed. */
  ghost function CleanDispatches(s: State, k: Key): set<CallId> { Dispatches(s, k) - FaultedDispatches(s, k) }

  predicate Unexpired(s: State, k: Key) {
    k in s.keys ==> s.now < s.keys[k].expiresAt
  }

  // ---------------------------------------------------------------- the invariant

  /** Before the key is recorded, every committed call is still in flight; afterwards none is added. `among` is
      the set of calls that are counted. */
  ghost predicate Contained(s: State, k: Key, among: set<CallId>, bound: nat) {
    if k in s.keys then |Committed(s, k) * among| <= bound else Committed(s, k) <= InFlight(s, k)
  }

  lemma ActorContained(cfg: Config, s: State, ev: Event, k: Key)
    requires Enabled(s, ev) && !ev.Tick? && !ev.Arrive? && CallFits(s.calls[ev.c])
    requires IsCommitted(k, CallAfter(cfg, s, ev))
    ensures IsCommitted(k, s.calls[ev.c]) ||
            (ev.LookUp? && ev.lookup == Answered && Live(s.keys, k, s.now) == None && CallAfter(cfg, s, ev).pc == Resolving)
    ensures IsCommitted(k, s.calls[ev.c]) && IsInFlight(k, s.calls[ev.c]) ==>
              IsInFlight(k, CallAfter(cfg, s, ev)) || k in SharedAfter(cfg, s, ev).keys
  {
  }

  lemma CommittedGrowsOnlyOnMiss(cfg: Config, s: State, ev: Event, k: Key)
    requires Enabled(s, ev) && CallsFit(s)
    ensures var t := Next(cfg, s, ev);
            Committed(t, k) <= Committed(s, k) || (k !in t.keys && Committed(t, k) <= Committed(s, k) + {ev.c} && ev.c in InFlight(t, k))
            || !Unexpired(s, k)
  {
    var t := Next(cfg, s, ev);
    forall c | c in Committed(t, k) && c !in Committed(s, k)
      ensures !ev.Tick? && c == ev.c && (!Unexpired(s, k) || (k !in t.keys && c in InFlight(t, k)))
    {
      if !ev.Tick? && !ev.Arrive? && c == ev.c {
        ActorContained(cfg, s, ev, k);
      }
    }
  }

  lemma InFlightKept(cfg: Config, s: State, ev: Event, k: Key)
    requires Enabled(s, ev) && CallsFit(s)
    requires k !in Next(cfg, s, ev).keys
    requires Committed(s, k) <= InFlight(s, k)
    ensures var t := Next(cfg, s, ev);
            forall c :: c in Committed(s, k) && c in Committed(t, k) ==> c in InFlight(t, k)
  {
    var t := Next(cfg, s, ev);
    forall c | c in Committed(s, k) && c in Committed(t, k)
      ensures c in InFlight(t, k)
    {
      if !ev.Tick? && !ev.Arrive? && c == ev.c {
        ActorContained(cfg, s, ev, k);
      } else {
        assert t.calls[c] == s.calls[c];
      }
    }
  }

  lemma ContainedStep(cfg: Config, s: State, ev: Event, k: Key, among: set<CallId>, bound: nat)
    requires Enabled(s, ev) && CallsFit(s) && Replay.Authored(s)
    requires Contained(s, k, among, bound) && Unexpired(s, k) && |InFlight(s, k) * among| <= bound
    ensures Contained(Next(cfg, s, ev), k, among, bound)
  {
    hide CallAfter, SharedAfter, CallFits, Committed, InFlight;
    var t := Next(cfg, s, ev);
    Replay.StepExtends(cfg, s, ev);
    CommittedGrowsOnlyOnMiss(cfg, s, ev, k);
    if k in t.keys {
      SubsetSize(Committed(t, k) * among, Committed(s, k) * among);
      if k !in s.keys {
        SubsetSize(Committed(s, k) * among, InFlight(s, k) * among);
      }
    } else {
      InFlightKept(cfg, s, ev, k);
    }
  }

  /** At every state of the run, at most `bound` of the calls in `among` are in flight with the key. */
  ghost predicate OverlapAtMost(cfg: Config, s: State, evs: seq<Event>, k: Key, among: set<CallId>, bound: nat)
    requires Runs(cfg, s, evs)
    decreases |evs|
  {
    |InFlight(s, k) * among| <= bound && (evs == [] || OverlapAtMost(cfg, Next(cfg, s, evs[0]), evs[1..], k, among, bound))
  }

  /** A key unexpired at the end was unexpired all along. */
  lemma UnexpiredEarlier(cfg: Config, s: State, evs: seq<Event>, k: Key)
    requires Runs(cfg, s, evs) && CallsFit(s) && Replay.StoreInv(s)
    requires Unexpired(Final(cfg, s, evs), k)
    ensures Unexpired(s, k)
  {
    Replay.StoreInvAlong(cfg, s, evs);
  }

  lemma {:induction false} ContainedAlong(cfg: Config, s: State, evs: seq<Event>, k: Key, among: set<CallId>, bound: nat)
    requires Runs(cfg, s, evs) && CallsFit(s) && Replay.StoreInv(s)
    requires Contained(s, k, among, bound) && OverlapAtMost(cfg, s, evs, k, among, bound)
    requires Unexpired(Final(cfg, s, evs), k)
    ensures Contained(Final(cfg, s, evs), k, among, bound)
    ensures |InFlight(Final(cfg, s, evs), k) * among| <= bound
    decreases |evs|
  {
    if evs != [] {
      UnexpiredEarlier(cfg, s, evs, k);
      Replay.StoreInvStep(cfg, s, evs[0]);
      ContainedStep(cfg, s, evs[0], k, among, bound);
      ContainedAlong(cfg, Next(cfg, s, evs[0]), evs[1..], k, among, bound);
    }
  }

  lemma CleanIsCommitted(s: State, k: Key)
    requires CallsFit(s)
    ensures CleanDispatches(s, k) <= Committed(s, k)
    ensures |Dispatches(s, k)| == |CleanDispatches(s, k)| + |FaultedDispatches(s, k)|
  {
    var d, f := Dispatches(s, k), FaultedDispatches(s, k);
    forall c | c in d && c !in f
      ensures c in Committed(s, k)
    {
      assert CallFits(s.calls[c]);
    }
    assert d == (d - f) + f;
  }

  // ---------------------------------------------------------------- main results

  /** Over every run, before the key's entry expires: the dispatches of a key number at most those that ever
      overlapped, plus the dispatches some store failed. Overlap is counted among the clean dispatches alone: a
      call with the key that ends in persistStructural, or that a store fails, may overlap any of them. */
  lemma DispatchBound(cfg: Config, evs: seq<Event>, k: Key, bound: nat)
    requires Runs(cfg, Init(), evs) && Unexpired(Final(cfg, Init(), evs), k)
    requires OverlapAtMost(cfg, Init(), evs, k, CleanDispatches(Final(cfg, Init(), evs), k), bound)
    ensures var s := Final(cfg, Init(), evs);
            |Dispatches(s, k)| <= bound + |FaultedDispatches(s, k)|
  {
    var s := Final(cfg, Init(), evs);
    var clean := CleanDispatches(s, k);
    assert Committed(Init(), k) == {};
    ContainedAlong(cfg, Init(), evs, k, clean, bound);
    Replay.StoreInvAlong(cfg, Init(), evs);
    CleanIsCommitted(s, k);
    if k in s.keys {
      SubsetSize(clean, Committed(s, k) * clean);
    } else {
      SubsetSize(clean, InFlight(s, k) * clean);
    }
  }

  /** The limiter bounds the overlap of any key by its capacity. */
  lemma OverlapWithinMax(cfg: Config, s: State, k: Key)
    requires Accounting.Books(cfg, s)
    ensures |InFlight(s, k)| <= cfg.max
  {
    SubsetSize(InFlight(s, k), Where(s.calls, Accounting.RoleTest(Accounting.HoldsSlot)));
  }

  lemma {:induction false} OverlapAlwaysWithinMax(cfg: Config, s: State, evs: seq<Event>, k: Key, among: set<CallId>)
    requires Runs(cfg, s, evs) && Accounting.Books(cfg, s)
    ensures OverlapAtMost(cfg, s, evs, k, among, cfg.max)
    decreases |evs|
  {
    OverlapWithinMax(cfg, s, k);
    SubsetSize(InFlight(s, k) * among, InFlight(s, k));
    if evs != [] {
      Accounting.BooksStep(cfg, s, evs[0]);
      OverlapAlwaysWithinMax(cfg, Next(cfg, s, evs[0]), evs[1..], k, among);
    }
  }

  /** In every interleaving of any number of calls, a key whose dispatches no store failed is dispatched at
      most `max` times before its entry expires. */
  lemma AtMostMaxDispatches(cfg: Config, evs: seq<Event>, k: Key)
    requires Runs(cfg, Init(), evs) && Unexpired(Final(cfg, Init(), evs), k)
    ensures var s := Final(cfg, Init(), evs);
            && |Dispatches(s, k)| <= cfg.max + |FaultedDispatches(s, k)|
            && (FaultedDispatches(s, k) == {} ==> |Dispatches(s, k)| <= cfg.max)
  {
    Accounting.BooksAtStart(cfg);
    OverlapAlwaysWithinMax(cfg, Init(), evs, k, CleanDispatches(Final(cfg, Init(), evs), k));
    DispatchBound(cfg, evs, k, cfg.max);
  }

  /** A key whose dispatching calls never overlap reaches the adapter at most once, and exactly once as soon as
      it is recorded. */
  lemma ExactlyOnceWithoutOverlap(cfg: Config, evs: seq<Event>, k: Key)
    requires Runs(cfg, Init(), evs) && Unexpired(Final(cfg, Init(), evs), k)
    requires OverlapAtMost(cfg, Init(), evs, k, Dispatches(Final(cfg, Init(), evs), k), 1)
    requires FaultedDispatches(Final(cfg, Init(), evs), k) == {}
    ensures var s := Final(cfg, Init(), evs);
            |Dispatches(s, k)| <= 1 && (k in s.keys ==> |Dispatches(s, k)| == 1)
  {
    var s := Final(cfg, Init(), evs);
    assert CleanDispatches(s, k) == Dispatches(s, k);
    DispatchBound(cfg, evs, k, 1);
    if k in s.keys {
      assert Reachable(cfg, s);
      Replay.RecordedKeysAreReal(cfg, s, k);
      assert s.author[s.keys[k].rid] in Dispatches(s, k);
    }
  }
}
