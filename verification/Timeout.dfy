/** Timeout budgets: wire milliseconds, int64 nanoseconds, and the effective minimum. */
module Timeouts {
  import opened Wrappers
  import Int64

  /** NewTimeoutBudget: `max` = 0 means no upper bound. The product wraps. */
  function NewTimeoutBudget(ms: int, max: int): Result<int> {
    if ms <= 0 then Err("timeout_budget_ms must be > 0")
    else
      var d := Int64.FromMilliseconds(ms);
      if max > 0 && d > max then Err("timeout_budget exceeds max")
      else Ok(d)
  }

  /** The budget part of the request decoder: no maximum, then at least one whole millisecond. */
  function DecodeBudget(ms: int): Result<int> {
    var d := NewTimeoutBudget(ms, 0);
    if d.Err? then d
    else if Int64.Milliseconds(d.value) <= 0 then Err("timeout_budget must be > 0")
    else d
  }

  /** `m` is the least positive element of `ds`, or 0 when none is positive. */
  predicate IsLeastPositive(m: int, ds: seq<int>) {
    && (forall d :: d in ds && d > 0 ==> m <= d)
    && (if exists d :: d in ds && d > 0 then m in ds && m > 0 else m == 0)
  }

  method MinDuration(ds: seq<int>) returns (min: int)
    ensures IsLeastPositive(min, ds)
  {
    min := 0;
    for i := 0 to |ds|
      invariant IsLeastPositive(min, ds[..i])
    {
      assert ds[..i + 1] == ds[..i] + [ds[i]];
      if ds[i] <= 0 {
        continue;
      }
      assert ds[i] in ds[..i + 1];
      if min == 0 || ds[i] < min {
        min := ds[i];
      }
    }
    assert ds[..|ds|] == ds;
  }

  /** The same minimum as an expression of the three sources. */
  function Min3(a: int, b: int, c: int): (m: int)
    ensures IsLeastPositive(m, [a, b, c])
  {
    var m1 := if a > 0 then a else 0;
    var m2 := if b > 0 && (m1 == 0 || b < m1) then b else m1;
    var m3 := if c > 0 && (m2 == 0 || c < m2) then c else m2;
    assert a in [a, b, c] && b in [a, b, c] && c in [a, b, c];
    m3
  }

  /** The least positive of three is positive exactly when one of them is. */
  lemma PositiveIff(m: int, a: int, b: int, c: int)
    requires IsLeastPositive(m, [a, b, c])
    ensures m > 0 <==> a > 0 || b > 0 || c > 0
  {
    assert a in [a, b, c] && b in [a, b, c] && c in [a, b, c];
  }

  lemma LeastPositiveUnique(m: int, n: int, ds: seq<int>)
    requires IsLeastPositive(m, ds) && IsLeastPositive(n, ds)
    ensures m == n
  {
    if d :| d in ds && d > 0 {
      assert m in ds && n in ds;
    }
  }

  /** The largest budget whose nanosecond product still fits. */
  const MAX_EXACT_MS: int := 9_223_372_036_854

  /** A stored budget reads back as the wire value exactly up to the int64 limit. */
  lemma BudgetRoundTripIff(ms: int)
    requires 0 < ms <= Int64.MAX
    ensures Int64.Milliseconds(NewTimeoutBudget(ms, 0).value) == ms <==> ms <= 9_223_372_036_854
  {
    if ms <= MAX_EXACT_MS {
      assert Int64.InRange(ms * Int64.MILLISECOND);
    } else {
      assert Int64.MAX / Int64.MILLISECOND == MAX_EXACT_MS;
    }
  }

  /** Whatever the decoder accepts, wrapped products included, resolves to a positive timeout that no
      positive cap undercuts, so step 4's rejection is unreachable for decoded requests. */
  lemma EffectiveTimeoutSound(ms: int, defaultTimeout: int, maxTimeout: int)
    requires 0 < ms <= Int64.MAX && DecodeBudget(ms).Ok?
    requires defaultTimeout > 0 && maxTimeout >= 0
    ensures var d := DecodeBudget(ms).value;
            var effective := Min3(d, defaultTimeout, maxTimeout);
            && 0 < effective <= d && effective <= defaultTimeout
            && (maxTimeout > 0 ==> effective <= maxTimeout)
            && effective in {d, defaultTimeout, maxTimeout}
  {
    var d := DecodeBudget(ms).value;
    var ds := [d, defaultTimeout, maxTimeout];
    assert d in ds && defaultTimeout in ds && maxTimeout in ds;
  }

  /** A wrapped budget can be accepted although it is far shorter than requested: 2^58 ms wraps to 0 and is
      refused, 2^58 + 5 ms is accepted as 5 ms. */
  lemma WrappedBudgetAccepted()
    ensures DecodeBudget(0x0400_0000_0000_0000).Err?
    ensures DecodeBudget(0x0400_0000_0000_0005) == Ok(5 * Int64.MILLISECOND)
  {
    assert 0x0400_0000_0000_0005 * Int64.MILLISECOND
        == 5 * Int64.MILLISECOND + 15625 * Int64.MODULUS;
  }

  /** Up to that bound the constructor accepts exactly positive budgets within the cap, as nanoseconds. */
  lemma BudgetAcceptsIff(ms: int, max: int)
    requires ms <= 9_223_372_036_854
    ensures NewTimeoutBudget(ms, max).Ok? <==> ms > 0 && (max <= 0 || ms * 1_000_000 <= max)
    ensures NewTimeoutBudget(ms, max).Ok? ==> NewTimeoutBudget(ms, max).value == ms * 1_000_000
    ensures DecodeBudget(ms).Ok? <==> ms > 0
    ensures ms > 0 ==> DecodeBudget(ms) == Ok(ms * 1_000_000)
  {
    if ms > 0 {
      assert Int64.InRange(ms * Int64.MILLISECOND);
    }
  }
}
