/** What the results about runs mean for the service object itself. */
module Guarantees {
  import opened Wrappers
  import opened Stores
  import opened Protocol
  import opened Capabilities
  import Execution
  import HonestRuns
  import Accounting
  import Assembly
  import Replay

  lemma Reached(svc: Execution.ExecuteService)
    requires svc.Valid()
    ensures Reachable(svc.cfg, svc.Abs())
  {
  }

  lemma SoundAtStart(limit: int)
    ensures HonestRuns.SoundState(limit, Init())
  {
  }

  /** Whatever sequence of its methods has run, with whatever calls still in flight: the limiter is within its
      capacity and ExecutionActive within the limiter, every stored receipt is sound, and every recorded key
      leads to a stored receipt of a request with that key. */
  lemma ServiceIsSafe(svc: Execution.ExecuteService)
    requires svc.Valid() && svc.limit > 0 && Filed(svc.cfg.registry)
    ensures svc.limiter.slots <= svc.limiter.max && 0 <= svc.active <= svc.limiter.slots && svc.limiter.inUse >= 0
    ensures forall rid :: rid in svc.receipts.m ==> Assembly.SoundReceipt(svc.limit, svc.receipts.m[rid])
    ensures forall k :: k in svc.keys.m ==>
              var rid := svc.keys.m[k].rid; rid in svc.receipts.m && svc.receipts.m[rid].request.key == Some(k)
  {
    SoundAtStart(svc.limit);
    HonestRuns.EveryReceiptIsSound(svc.cfg, svc.limit, Init(), svc.log);
    assert HonestRuns.SoundState(svc.limit, svc.Abs());
    Reached(svc);
    hide HonestRuns.HonestlyReached, Reachable, Assembly.SoundReceipt;
    Accounting.LimiterSafety(svc.cfg, svc.Abs());
    forall k | k in svc.keys.m
      ensures var rid := svc.keys.m[k].rid; rid in svc.receipts.m && svc.receipts.m[rid].request.key == Some(k)
    {
      Replay.RecordedKeysAreReal(svc.cfg, svc.Abs(), k);
    }
  }
}
