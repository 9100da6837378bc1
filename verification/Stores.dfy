/** Requests, receipts and the two stores the execution service writes to: the insert-only receipt
    repository and the first-writer-wins idempotency store. Each store is a class over one map, proved
    against the functions below, which the protocol and the PostgreSQL refinement reuse. */
module Stores {
  import opened Wrappers
  import opened Domain
  import opened Capabilities

  datatype Key = Key(text: string)

  datatype ReceiptId = ReceiptId(text: string)

  /** `submittedAt` = 0 is Go's zero time; `budget` is in nanoseconds. */
  datatype Request = Request(key: Option<Key>, target: Triple, budget: int, submittedAt: nat)

  datatype Receipt = Receipt(id: ReceiptId, request: Request, handle: Triple, result: ExecutionResult,
                             startedAt: int, completedAt: int, persistedAt: Option<int>)

  type Repository = map<ReceiptId, Receipt>

  datatype Entry = Entry(rid: ReceiptId, expiresAt: int)

  type KeyTable = map<Key, Entry>

  function WithPersistedAt(r: Receipt, t: int): (p: Receipt)
    ensures p.persistedAt == Some(t) && p.(persistedAt := r.persistedAt) == r
  {
    r.(persistedAt := Some(t))
  }

  // ---------------------------------------------------------------- specifications

  /** A key answers only while its window is open. */
  function Live(m: KeyTable, k: Key, now: int): Option<ReceiptId> {
    if k in m && now < m[k].expiresAt then Some(m[k].rid) else None
  }

  datatype RecordOutcome = Recorded | SameReceipt | Conflict

  /** First writer wins; an existing row is kept whatever its age. */
  function Recording(m: KeyTable, k: Key, rid: ReceiptId): RecordOutcome {
    if k !in m then Recorded else if m[k].rid == rid then SameReceipt else Conflict
  }

  function AfterRecord(m: KeyTable, k: Key, rid: ReceiptId, expiresAt: int): KeyTable {
    if k !in m then m[k := Entry(rid, expiresAt)] else m
  }

  // ---------------------------------------------------------------- in-memory implementations

  class InMemoryIdempotencyStore {
    var m: KeyTable

    constructor ()
      ensures m == map[]
    {
      m := map[];
    }

    /** `ctxErr` is ctx.Err(); `now` is the clock reading. */
    method Lookup(ctxErr: Option<string>, key: Key, now: int) returns (r: Result<Option<ReceiptId>>)
      ensures r.Err? <==> ctxErr.Some?
      ensures r.Ok? ==> r.value == Live(m, key, now)
      ensures r.Ok? ==> r.value == if key in m && now < m[key].expiresAt then Some(m[key].rid) else None
    {
      if ctxErr.Some? { return Err(ctxErr.value); }
      if key !in m { return Ok(None); }
      var entry := m[key];
      if !(now < entry.expiresAt) { return Ok(None); }
      r := Ok(Some(entry.rid));
    }

    method Record(ctxErr: Option<string>, key: Key, id: ReceiptId, window: int, now: int)
      returns (r: Result<()>)
      modifies this
      ensures ctxErr.Some? || window <= 0 ==> r.Err? && m == old(m)
      ensures ctxErr.None? && window > 0 ==>
        && m == AfterRecord(old(m), key, id, now + window)
        && (r.Err? <==> Recording(old(m), key, id) == Conflict)
      ensures ctxErr.None? && window > 0 && key !in old(m) ==> r.Ok? && m == old(m)[key := Entry(id, now + window)]
      ensures ctxErr.None? && window > 0 && key in old(m) ==> m == old(m) && (r.Err? <==> old(m)[key].rid != id)
    {
      if ctxErr.Some? { return Err(ctxErr.value); }
      if window <= 0 { return Err("window must be > 0"); }
      if key in m {
        if m[key].rid != id { return Err("idempotency key conflict"); }
        return Ok(());
      }
      m := m[key := Entry(id, now + window)];
      r := Ok(());
    }
  }

  class InMemoryReceiptRepository {
    var m: Repository

    constructor ()
      ensures m == map[]
    {
      m := map[];
    }

    method Save(ctxErr: Option<string>, receipt: Receipt, now: int) returns (r: Result<Receipt>)
      modifies this
      ensures r.Ok? <==> ctxErr.None? && receipt.id !in old(m)
      ensures r.Ok? ==> r.value == WithPersistedAt(receipt, now) && m == old(m)[receipt.id := r.value]
      ensures r.Ok? ==> r.value.persistedAt == Some(now) && r.value.(persistedAt := receipt.persistedAt) == receipt
      ensures r.Err? ==> m == old(m)
    {
      if ctxErr.Some? { return Err(ctxErr.value); }
      if receipt.id in m { return Err("receipt already exists"); }
      var persisted := WithPersistedAt(receipt, now);
      m := m[receipt.id := persisted];
      r := Ok(persisted);
    }

    method FindByID(ctxErr: Option<string>, id: ReceiptId) returns (r: Result<Receipt>)
      ensures r.Ok? <==> ctxErr.None? && id in m
      ensures r.Ok? ==> r.value == m[id]
    {
      if ctxErr.Some? { return Err(ctxErr.value); }
      if id !in m { return Err("receipt not found"); }
      r := Ok(m[id]);
    }
  }
}
