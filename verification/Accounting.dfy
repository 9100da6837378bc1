/** Slot accounting and counter conservation over every interleaving: each shared counter equals a number
    of calls, up to the calls that are between the two halves of a non-atomic update. */
module Accounting {
  import opened Wrappers
  import opened Domain
  import opened Stores
  import opened Protocol
  import opened Counting

  datatype Role =
    | HoldsSlot         // between the channel send and the channel receive
    | AwaitsCountUp     // sent, inUse not yet bumped
    | AwaitsCountDown   // received, inUse not yet lowered
    | IsActive          // ExecutionActive +1 outstanding
    | WasRejected
    | Finished
    | FinishedReplay
    | FinishedEarly     // error before any Save
    | SavedOk
    | SavedBadly
    | AwaitsEmit        // saved, execution.total not yet bumped
    | AwaitsFailureCount
    | Settling          // counted as saved or failed, deferred calls still to run

  predicate Plays(role: Role, call: Call) {
    match role
    case HoldsSlot => !call.pc.Entering? && !call.pc.Rejecting? && !call.pc.CountingDown? && !call.pc.Done?
    case AwaitsCountUp => call.pc.CountingUp?
    case AwaitsCountDown => call.pc.CountingDown?
    case IsActive => call.active
    case WasRejected => call.pc == Done(Rejected)
    case Finished => call.pc.Done?
    case FinishedReplay => call.pc.Done? && (call.pc.outcome.Replayed? || call.pc.outcome.ReplayFailed?)
    case FinishedEarly => call.pc == Done(FailedEarly)
    case SavedOk => call.saveStatus == SaveOk
    case SavedBadly => call.saveStatus == SaveFailed
    case AwaitsEmit => call.pc.RecordingKey? || call.pc.Emitting?
    case AwaitsFailureCount => call.pc.CountingFailure?
    case Settling =>
      && (call.pc.Deactivating? || call.pc.Releasing? || call.pc.CountingDown?)
      && (call.pc.outcome.Returned? || call.pc.outcome.PersistFailed?)
  }

  function RoleTest(role: Role): Call -> bool {
    (call: Call) => Plays(role, call)
  }

  ghost function Count(s: State, role: Role): nat {
    |Where(s.calls, RoleTest(role))|
  }

  function Weight(role: Role, call: Call): nat {
    if Plays(role, call) then 1 else 0
  }

  /** A step moves a count by its own call's change and by nothing else. */
  lemma CountAfterStep(cfg: Config, s: State, ev: Event, role: Role)
    requires Enabled(s, ev)
    ensures var s' := Next(cfg, s, ev);
            Count(s', role) == if ev.Tick? then Count(s, role)
                               else if ev.Arrive? then Count(s, role) + Weight(role, NewCall(ev.req))
                               else Count(s, role) - Weight(role, s.calls[ev.c]) + Weight(role, CallAfter(cfg, s, ev))
  {
    if ev.Arrive? {
      WhereUpdate(s.calls, ev.c, NewCall(ev.req), RoleTest(role));
    } else if !ev.Tick? {
      WhereUpdate(s.calls, ev.c, CallAfter(cfg, s, ev), RoleTest(role));
    }
  }

  /** What one event does to the limiter's channel, against what it does to its own call. */
  lemma SlotDelta(cfg: Config, s: State, ev: Event)
    requires Enabled(s, ev) && !ev.Tick? && !ev.Arrive? && CallFits(s.calls[ev.c])
    ensures var s', old', new' := SharedAfter(cfg, s, ev), s.calls[ev.c], CallAfter(cfg, s, ev);
            && s'.slots - s.slots == Weight(HoldsSlot, new') - Weight(HoldsSlot, old')
            && s'.slots <= (if s.slots <= cfg.max then cfg.max else s.slots)
  {
  }

  /** And to the observability counter. */
  lemma InUseDelta(cfg: Config, s: State, ev: Event)
    requires Enabled(s, ev) && !ev.Tick? && !ev.Arrive?
    ensures var s', old', new' := SharedAfter(cfg, s, ev), s.calls[ev.c], CallAfter(cfg, s, ev);
            s'.inUse - s.inUse == (s'.slots - s.slots) + (Weight(AwaitsCountDown, new') - Weight(AwaitsCountDown, old'))
                                  - (Weight(AwaitsCountUp, new') - Weight(AwaitsCountUp, old'))
  {
  }

  lemma ActiveDelta(cfg: Config, s: State, ev: Event)
    requires Enabled(s, ev) && !ev.Tick? && !ev.Arrive? && CallFits(s.calls[ev.c])
    ensures SharedAfter(cfg, s, ev).active - s.active
            == Weight(IsActive, CallAfter(cfg, s, ev)) - Weight(IsActive, s.calls[ev.c])
  {
  }

  lemma RejectDelta(cfg: Config, s: State, ev: Event)
    requires Enabled(s, ev) && !ev.Tick? && !ev.Arrive? && CallFits(s.calls[ev.c])
    ensures SharedAfter(cfg, s, ev).rejects - s.rejects
            == Weight(WasRejected, CallAfter(cfg, s, ev)) - Weight(WasRejected, s.calls[ev.c])
  {
  }

  lemma TotalDelta(cfg: Config, s: State, ev: Event)
    requires Enabled(s, ev) && !ev.Tick? && !ev.Arrive? && CallFits(s.calls[ev.c])
    ensures var old', new' := s.calls[ev.c], CallAfter(cfg, s, ev);
            SharedAfter(cfg, s, ev).total - s.total == (Weight(SavedOk, new') - Weight(SavedOk, old'))
                                                       - (Weight(AwaitsEmit, new') - Weight(AwaitsEmit, old'))
  {
  }

  lemma FailureDelta(cfg: Config, s: State, ev: Event)
    requires Enabled(s, ev) && !ev.Tick? && !ev.Arrive? && CallFits(s.calls[ev.c])
    ensures var old', new' := s.calls[ev.c], CallAfter(cfg, s, ev);
            SharedAfter(cfg, s, ev).persistFailures - s.persistFailures
            == (Weight(SavedBadly, new') - Weight(SavedBadly, old'))
               - (Weight(AwaitsFailureCount, new') - Weight(AwaitsFailureCount, old'))
  {
  }

  /** The limiter's books. */
  ghost predicate SlotsBalance(cfg: Config, s: State) {
    && s.slots == Count(s, HoldsSlot) <= cfg.max
    && s.inUse + Count(s, AwaitsCountUp) == s.slots + Count(s, AwaitsCountDown)
    && s.active == Count(s, IsActive)
  }

  /** The metric counters' books. */
  ghost predicate CountersBalance(s: State) {
    && s.rejects == Count(s, WasRejected)
    && s.total + Count(s, AwaitsEmit) == Count(s, SavedOk)
    && s.persistFailures + Count(s, AwaitsFailureCount) == Count(s, SavedBadly)
  }

  lemma SlotsBalanceStep(cfg: Config, s: State, ev: Event)
    requires Enabled(s, ev) && CallsFit(s) && SlotsBalance(cfg, s)
    ensures SlotsBalance(cfg, Next(cfg, s, ev))
  {
    if !ev.Tick? && !ev.Arrive? {
      assert CallFits(s.calls[ev.c]);
      SlotDelta(cfg, s, ev);
      InUseDelta(cfg, s, ev);
      ActiveDelta(cfg, s, ev);
    }
    CountAfterStep(cfg, s, ev, HoldsSlot);
    CountAfterStep(cfg, s, ev, AwaitsCountUp);
    CountAfterStep(cfg, s, ev, AwaitsCountDown);
    CountAfterStep(cfg, s, ev, IsActive);
  }

  lemma RejectsBalanceStep(cfg: Config, s: State, ev: Event)
    requires Enabled(s, ev) && CallsFit(s) && s.rejects == Count(s, WasRejected)
    ensures Next(cfg, s, ev).rejects == Count(Next(cfg, s, ev), WasRejected)
  {
    if !ev.Tick? && !ev.Arrive? {
      assert CallFits(s.calls[ev.c]);
      RejectDelta(cfg, s, ev);
    }
    CountAfterStep(cfg, s, ev, WasRejected);
  }

  lemma TotalBalanceStep(cfg: Config, s: State, ev: Event)
    requires Enabled(s, ev) && CallsFit(s) && s.total + Count(s, AwaitsEmit) == Count(s, SavedOk)
    ensures var t := Next(cfg, s, ev); t.total + Count(t, AwaitsEmit) == Count(t, SavedOk)
  {
    if !ev.Tick? && !ev.Arrive? {
      assert CallFits(s.calls[ev.c]);
      TotalDelta(cfg, s, ev);
    }
    CountAfterStep(cfg, s, ev, SavedOk);
    CountAfterStep(cfg, s, ev, AwaitsEmit);
  }

  lemma FailuresBalanceStep(cfg: Config, s: State, ev: Event)
    requires Enabled(s, ev) && CallsFit(s) && s.persistFailures + Count(s, AwaitsFailureCount) == Count(s, SavedBadly)
    ensures var t := Next(cfg, s, ev); t.persistFailures + Count(t, AwaitsFailureCount) == Count(t, SavedBadly)
  {
    if !ev.Tick? && !ev.Arrive? {
      assert CallFits(s.calls[ev.c]);
      FailureDelta(cfg, s, ev);
    }
    CountAfterStep(cfg, s, ev, SavedBadly);
    CountAfterStep(cfg, s, ev, AwaitsFailureCount);
  }

  lemma CountersBalanceStep(cfg: Config, s: State, ev: Event)
    requires Enabled(s, ev) && CallsFit(s) && CountersBalance(s)
    ensures CountersBalance(Next(cfg, s, ev))
  {
    hide Enabled, CallsFit, Count, Next;
    RejectsBalanceStep(cfg, s, ev);
    TotalBalanceStep(cfg, s, ev);
    FailuresBalanceStep(cfg, s, ev);
  }

  ghost predicate Books(cfg: Config, s: State) {
    CallsFit(s) && SlotsBalance(cfg, s) && CountersBalance(s)
  }

  lemma BooksAtStart(cfg: Config)
    ensures Books(cfg, Init())
  {
    assert forall role :: Where(Init().calls, RoleTest(role)) == {};
  }

  lemma BooksStep(cfg: Config, s: State, ev: Event)
    requires Enabled(s, ev) && Books(cfg, s)
    ensures Books(cfg, Next(cfg, s, ev))
  {
    CallsFitStep(cfg, s, ev);
    SlotsBalanceStep(cfg, s, ev);
    CountersBalanceStep(cfg, s, ev);
  }

  lemma {:induction false} BooksAlong(cfg: Config, s: State, evs: seq<Event>)
    requires Runs(cfg, s, evs) && Books(cfg, s)
    ensures Books(cfg, Final(cfg, s, evs))
    decreases |evs|
  {
    if evs != [] {
      BooksStep(cfg, s, evs[0]);
      BooksAlong(cfg, Next(cfg, s, evs[0]), evs[1..]);
    }
  }

  lemma BooksWhenReachable(cfg: Config, s: State)
    requires Reachable(cfg, s)
    ensures Books(cfg, s)
  {
    var evs :| Runs(cfg, Init(), evs) && Final(cfg, Init(), evs) == s;
    BooksAtStart(cfg);
    BooksAlong(cfg, Init(), evs);
  }

  lemma SubsetCount(s: State, small: Role, large: Role)
    requires forall c :: c in s.calls && Plays(small, s.calls[c]) ==> Plays(large, s.calls[c])
    ensures Count(s, small) <= Count(s, large)
  {
    SubsetSize(Where(s.calls, RoleTest(small)), Where(s.calls, RoleTest(large)));
  }

  lemma ActiveHoldsSlot(call: Call)
    requires CallFits(call) && Plays(IsActive, call)
    ensures Plays(HoldsSlot, call)
  {
  }

  lemma HoldersCoverUpcounts(s: State)
    ensures Count(s, AwaitsCountUp) <= Count(s, HoldsSlot)
  {
    SubsetCount(s, AwaitsCountUp, HoldsSlot);
  }

  lemma HoldersCoverActive(s: State)
    requires CallsFit(s)
    ensures Count(s, IsActive) <= Count(s, HoldsSlot)
  {
    forall c | c in s.calls && Plays(IsActive, s.calls[c])
      ensures Plays(HoldsSlot, s.calls[c])
    {
      ActiveHoldsSlot(s.calls[c]);
    }
    hide CallFits, Plays;
    SubsetCount(s, IsActive, HoldsSlot);
  }

  lemma ReleaserHoldsSlot(s: State, c: CallId)
    requires c in s.calls && s.calls[c].pc.Releasing? && s.slots == Count(s, HoldsSlot)
    ensures Enabled(s, FreeSlot(c))
  {
    assert c in Where(s.calls, RoleTest(HoldsSlot));
  }

  // ---------------------------------------------------------------- main results

  /** In every reachable state: no more than `max` calls are admitted, the observability counter is
      within the releases in progress of the truth and never negative, ExecutionActive never exceeds the
      occupied slots, and a Release never blocks. */
  lemma LimiterSafety(cfg: Config, s: State)
    requires Reachable(cfg, s)
    ensures s.slots == Count(s, HoldsSlot) <= cfg.max
    ensures s.inUse + Count(s, AwaitsCountUp) == s.slots + Count(s, AwaitsCountDown)
    ensures 0 <= s.inUse <= cfg.max + Count(s, AwaitsCountDown)
    ensures 0 <= s.active <= s.slots
    ensures forall c :: c in s.calls && s.calls[c].pc.Releasing? ==> Enabled(s, FreeSlot(c))
  {
    BooksWhenReachable(cfg, s);
    hide Reachable, CallFits, Plays, Count, Enabled;
    HoldersCoverUpcounts(s);
    HoldersCoverActive(s);
    forall c | c in s.calls && s.calls[c].pc.Releasing?
      ensures Enabled(s, FreeSlot(c))
    {
      ReleaserHoldsSlot(s, c);
    }
  }

  /** inUse alone may exceed the capacity: one caller is between its receive and its decrement while
      another is already counted in. */
  lemma InUseCanExceedMax()
    ensures exists cfg, s :: Reachable(cfg, s) && s.inUse > cfg.max
  {
    var cfg := Config(1, 1, 0, map[], {});
    var req := Request(None, Capabilities.Triple("", "", ""), 1, 1);
    assert Reachable(cfg, Init()) by { assert Runs(cfg, Init(), []); }
    var s1 := ReachableStep(cfg, Init(), Arrive(0, req));
    var s2 := ReachableStep(cfg, s1, TakeSlot(0));
    var s3 := ReachableStep(cfg, s2, CountUp(0));
    var s4 := ReachableStep(cfg, s3, LookUp(0, Answered));
    var s5 := ReachableStep(cfg, s4, Resolve(0, true));
    var s6 := ReachableStep(cfg, s5, Assemble(0, None));
    var s7 := ReachableStep(cfg, s6, FreeSlot(0));
    var s8 := ReachableStep(cfg, s7, Arrive(1, req));
    var s9 := ReachableStep(cfg, s8, TakeSlot(1));
    var s10 := ReachableStep(cfg, s9, CountUp(1));
  }

  /** Saves and outcomes in every reachable state. Each call saves at most once; a call that is over
      returned a fresh receipt exactly when its one Save succeeded. */
  lemma SaveAtMostOnce(cfg: Config, s: State, c: CallId)
    requires Reachable(cfg, s) && c in s.calls
    ensures s.calls[c].saves <= 1 && s.calls[c].dispatches <= 1
    ensures s.calls[c].pc.Done? ==>
              var o := s.calls[c].pc.outcome;
              && (o.Returned? <==> s.calls[c].saveStatus == SaveOk)
              && (o.PersistFailed? <==> s.calls[c].saveStatus == SaveFailed)
              && (s.calls[c].dispatches == 1 ==> s.calls[c].saves == 1 || o.FailedEarly?)
  {
    hide Reachable, SlotsBalance, CountersBalance;
    BooksWhenReachable(cfg, s);
    assert CallFits(s.calls[c]);
  }

  /** Counter conservation, in every reachable state. The two persistence counters lag the Save attempts only by
      the calls that have not reached their increment; and the completed calls, together with those that only
      have their deferred calls to run after being counted, are the rejects, the replays, the total, the
      persistence failures and the errors before Save. */
  lemma CounterConservation(cfg: Config, s: State)
    requires Reachable(cfg, s)
    ensures s.total + Count(s, AwaitsEmit) == Count(s, SavedOk)
    ensures s.persistFailures + Count(s, AwaitsFailureCount) == Count(s, SavedBadly)
    ensures s.rejects == Count(s, WasRejected)
    ensures Count(s, Finished) + Count(s, Settling)
            == s.rejects + Count(s, FinishedReplay) + s.total + s.persistFailures + Count(s, FinishedEarly)
  {
    hide Reachable, CallFits;
    BooksWhenReachable(cfg, s);
    EndingsBalance(s);
  }

  /** With no call in flight every counter is exact, the limiter is empty, and every call is accounted for. */
  lemma QuietConservation(cfg: Config, s: State)
    requires Reachable(cfg, s) && Quiet(s)
    ensures Count(s, SavedOk) == s.total && Count(s, SavedBadly) == s.persistFailures
    ensures s.slots == 0 && s.inUse == 0 && s.active == 0
    ensures |s.calls| == s.rejects + Count(s, FinishedReplay) + s.total + s.persistFailures + Count(s, FinishedEarly)
  {
    hide Reachable, CallFits;
    BooksWhenReachable(cfg, s);
    CounterConservation(cfg, s);
    QuietCounts(s);
    QuietInactive(s);
  }

  /** No call is in flight. */
  ghost predicate Quiet(s: State) {
    forall c :: c in s.calls ==> s.calls[c].pc.Done?
  }

  lemma QuietCounts(s: State)
    requires Quiet(s)
    ensures Count(s, HoldsSlot) == Count(s, AwaitsCountUp) == Count(s, AwaitsCountDown) == 0
    ensures Count(s, AwaitsEmit) == Count(s, AwaitsFailureCount) == Count(s, Settling) == 0
    ensures Count(s, Finished) == |s.calls|
  {
    NobodyPlays(s, Settling);
    assert Where(s.calls, RoleTest(Finished)) == s.calls.Keys;
    NobodyPlays(s, HoldsSlot);
    NobodyPlays(s, AwaitsCountUp);
    NobodyPlays(s, AwaitsCountDown);
    NobodyPlays(s, AwaitsEmit);
    NobodyPlays(s, AwaitsFailureCount);
  }

  lemma QuietInactive(s: State)
    requires Quiet(s) && CallsFit(s)
    ensures Count(s, IsActive) == 0
  {
    NobodyPlays(s, IsActive);
  }

  lemma NobodyPlays(s: State, role: Role)
    requires forall c :: c in s.calls ==> !Plays(role, s.calls[c])
    ensures Count(s, role) == 0
  {
    assert Where(s.calls, RoleTest(role)) == {};
  }

  /** One call: over, settling or about to be counted, against how it ended or saved. */
  lemma OneEnding(call: Call)
    requires CallFits(call)
    ensures Weight(Finished, call) + Weight(Settling, call) + Weight(AwaitsEmit, call) + Weight(AwaitsFailureCount, call)
            == Weight(WasRejected, call) + Weight(FinishedReplay, call) + Weight(SavedOk, call)
               + Weight(SavedBadly, call) + Weight(FinishedEarly, call)
  {
  }

  lemma EndingsBalance(s: State)
    requires CallsFit(s)
    ensures Count(s, Finished) + Count(s, Settling) + Count(s, AwaitsEmit) + Count(s, AwaitsFailureCount)
            == Count(s, WasRejected) + Count(s, FinishedReplay) + Count(s, SavedOk) + Count(s, SavedBadly) + Count(s, FinishedEarly)
  {
    forall c | c in s.calls
      ensures Weight(Finished, s.calls[c]) + Weight(Settling, s.calls[c]) + Weight(AwaitsEmit, s.calls[c])
              + Weight(AwaitsFailureCount, s.calls[c])
              == Weight(WasRejected, s.calls[c]) + Weight(FinishedReplay, s.calls[c]) + Weight(SavedOk, s.calls[c])
                 + Weight(SavedBadly, s.calls[c]) + Weight(FinishedEarly, s.calls[c])
    {
      OneEnding(s.calls[c]);
    }
    hide CallFits, Plays;
    FourAgainstFive(s.calls, RoleTest(Finished), RoleTest(Settling), RoleTest(AwaitsEmit), RoleTest(AwaitsFailureCount),
                    RoleTest(WasRejected), RoleTest(FinishedReplay), RoleTest(SavedOk), RoleTest(SavedBadly), RoleTest(FinishedEarly));
  }
}
