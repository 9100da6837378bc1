/** The PostgreSQL idempotency store's Record: an INSERT that does nothing on conflict and, when no row was
    affected, a SELECT. Any number of calls interleave; each statement is atomic and may fail with or
    without effect. Every run without row deletion linearizes at the INSERT, against the atomic
    first-writer-wins Record of the in-memory store. */
module PgRecord {
  import opened Wrappers
  import opened Stores
  import Ulids

  type CallId = nat

  datatype Op = Op(caller: CallId, key: Key, rid: ReceiptId, expiresAt: int)

  datatype Answer = Nil | ConflictError | StoreError | WindowError

  datatype Pc = Inserting | Selecting | Done(answer: Answer)

  /** History: `invoked` and `responded` are how many operations had been linearized when the call began and
      ended, `point` is this call's place among them. */
  datatype Call = Call(op: Op, pc: Pc, invoked: nat, point: Option<nat>, responded: nat)

  /** `lin` is history: the operations in the order of their INSERTs. */
  datatype State = State(rows: KeyTable, calls: map<CallId, Call>, lin: seq<Op>)

  /** A statement that does not acknowledge may have taken effect. */
  datatype Fault = NoFault | LostBefore | LostAfter

  datatype Event =
    | Invoke(c: CallId, key: Key, rid: ReceiptId, window: int, now: int)
    | Insert(c: CallId, fault: Fault)
    | Select(c: CallId, failed: bool)
    | Delete(key: Key)

  predicate Enabled(s: State, ev: Event) {
    match ev
    case Invoke(c, _, _, _, _) => c !in s.calls
    case Insert(c, _) => c in s.calls && s.calls[c].pc.Inserting?
    case Select(c, _) => c in s.calls && s.calls[c].pc.Selecting?
    case Delete(_) => true
  }

  /** How the follow-up SELECT is read; a vanished row counts as success. */
  function Compare(rows: KeyTable, op: Op): Answer {
    if op.key !in rows || rows[op.key].rid == op.rid then Nil else ConflictError
  }

  function Next(s: State, ev: Event): State
    requires Enabled(s, ev)
  {
    match ev
    case Invoke(c, key, rid, window, now) =>
      var pc := if window <= 0 then Done(WindowError) else Inserting;
      s.(calls := s.calls[c := Call(Op(c, key, rid, now + window), pc, |s.lin|, None, |s.lin|)])
    case Insert(c, fault) =>
      var call := s.calls[c];
      if fault == LostBefore then s.(calls := s.calls[c := call.(pc := Done(StoreError), responded := |s.lin|)])
      else
        var affected := call.op.key !in s.rows;
        var pc := if fault == LostAfter then Done(StoreError) else if affected then Done(Nil) else Selecting;
        State(AfterRecord(s.rows, call.op.key, call.op.rid, call.op.expiresAt),
              s.calls[c := call.(pc := pc, point := Some(|s.lin|), responded := |s.lin| + 1)],
              s.lin + [call.op])
    case Select(c, failed) =>
      var call := s.calls[c];
      s.(calls := s.calls[c := call.(pc := Done(if failed then StoreError else Compare(s.rows, call.op)), responded := |s.lin|)])
    case Delete(key) => s.(rows := s.rows - {key})
  }

  predicate Runs(s: State, evs: seq<Event>)
    decreases |evs|
  {
    evs == [] || (Enabled(s, evs[0]) && Runs(Next(s, evs[0]), evs[1..]))
  }

  function Final(s: State, evs: seq<Event>): State
    requires Runs(s, evs)
    decreases |evs|
  {
    if evs == [] then s else Final(Next(s, evs[0]), evs[1..])
  }

  predicate DeletionFree(evs: seq<Event>) {
    forall i :: 0 <= i < |evs| ==> !evs[i].Delete?
  }

  // ---------------------------------------------------------------- the atomic store

  /** The rows after the first n operations, each recorded atomically. */
  ghost function AtomicRows(start: KeyTable, ops: seq<Op>, n: nat): KeyTable
    requires n <= |ops|
  {
    if n == 0 then start
    else AfterRecord(AtomicRows(start, ops, n - 1), ops[n - 1].key, ops[n - 1].rid, ops[n - 1].expiresAt)
  }

  function ToAnswer(o: RecordOutcome): Answer {
    if o == Conflict then ConflictError else Nil
  }

  ghost function AtomicAnswer(start: KeyTable, ops: seq<Op>, i: nat): Answer
    requires i < |ops|
  {
    ToAnswer(Recording(AtomicRows(start, ops, i), ops[i].key, ops[i].rid))
  }

  lemma {:induction false} AtomicRowsPrefix(start: KeyTable, ops: seq<Op>, more: seq<Op>, n: nat)
    requires n <= |ops|
    ensures AtomicRows(start, ops + more, n) == AtomicRows(start, ops, n)
  {
    if n > 0 {
      AtomicRowsPrefix(start, ops, more, n - 1);
    }
  }

  /** Rows are only ever added. */
  lemma {:induction false} AtomicRowsGrow(start: KeyTable, ops: seq<Op>, i: nat, n: nat)
    requires i <= n <= |ops|
    ensures forall k :: k in AtomicRows(start, ops, i) ==>
              k in AtomicRows(start, ops, n) && AtomicRows(start, ops, n)[k] == AtomicRows(start, ops, i)[k]
    decreases n
  {
    if i < n {
      AtomicRowsGrow(start, ops, i, n - 1);
    }
  }

  /** The in-memory store, given the operations one after the other, computes exactly these. */
  method RecordInOrder(store: InMemoryIdempotencyStore, ops: seq<Op>, now: int) returns (answers: seq<Answer>)
    requires forall i :: 0 <= i < |ops| ==> ops[i].expiresAt > now
    modifies store
    ensures store.m == AtomicRows(old(store.m), ops, |ops|) && |answers| == |ops|
    ensures forall i :: 0 <= i < |ops| ==> answers[i] == AtomicAnswer(old(store.m), ops, i)
  {
    answers := [];
    for n := 0 to |ops|
      invariant store.m == AtomicRows(old(store.m), ops, n) && |answers| == n
      invariant forall i :: 0 <= i < n ==> answers[i] == AtomicAnswer(old(store.m), ops, i)
    {
      var r := store.Record(None, ops[n].key, ops[n].rid, ops[n].expiresAt - now, now);
      answers := answers + [if r.Err? then ConflictError else Nil];
    }
  }

  /** The store itself, one call at a time. */
  class IdempotencyStorePG {
    var rows: KeyTable

    constructor ()
      ensures rows == map[]
    {
      rows := map[];
    }

    /** INSERT ... ON CONFLICT DO NOTHING; reports the number of rows affected. */
    method InsertRow(op: Op, fault: Fault) returns (affected: Option<nat>)
      modifies this
      ensures affected.Some? <==> fault == NoFault
      ensures rows == if fault == LostBefore then old(rows) else AfterRecord(old(rows), op.key, op.rid, op.expiresAt)
      ensures rows == if fault == LostBefore || op.key in old(rows) then old(rows) else old(rows)[op.key := Entry(op.rid, op.expiresAt)]
      ensures affected.Some? ==> affected.value == if op.key in old(rows) then 0 else 1
    {
      var n := if op.key in rows then 0 else 1;
      if fault != LostBefore && n == 1 {
        rows := rows[op.key := Entry(op.rid, op.expiresAt)];
      }
      affected := if fault == NoFault then Some(n) else None;
    }

    /** Without faults it is the in-memory Record; a failed call may have inserted its row. */
    method Record(c: CallId, key: Key, rid: ReceiptId, window: int, now: int, fault: Fault, selectFails: bool) returns (answer: Answer)
      modifies this
      ensures answer == WindowError <==> window <= 0
      ensures window <= 0 ==> rows == old(rows)
      ensures window > 0 ==> rows == if fault == LostBefore then old(rows) else AfterRecord(old(rows), key, rid, now + window)
      ensures window > 0 && fault != NoFault ==> answer == StoreError
      ensures window > 0 && fault == NoFault ==>
        answer == if selectFails && key in old(rows) then StoreError else ToAnswer(Recording(old(rows), key, rid))
    {
      if window <= 0 { return WindowError; }
      var expiresAt := now + window;
      var affected := InsertRow(Op(c, key, rid, expiresAt), fault);
      if affected.None? { return StoreError; }
      if affected.value == 1 { return Nil; }
      if selectFails { return StoreError; }
      var existing := rows[key].rid;
      if existing == rid { return Nil; }
      answer := ConflictError;
    }

    /** Fails when the query fails or the row it finds does not hold a well-formed receipt id. */
    method Lookup(key: Key, now: int, queryFails: bool) returns (r: Result<Option<ReceiptId>>)
      ensures r.Err? <==> queryFails || (Live(rows, key, now).Some? && !Ulids.IsUlid(Live(rows, key, now).value.text))
      ensures r.Ok? ==> r.value == Live(rows, key, now)
      ensures r.Ok? ==> r.value == if key in rows && rows[key].expiresAt > now then Some(rows[key].rid) else None
    {
      if queryFails { return Err("idempotency lookup"); }
      if key !in rows || rows[key].expiresAt <= now { return Ok(None); }
      if !Ulids.IsUlid(rows[key].rid.text) { return Err("idempotency lookup: invalid receipt_id"); }
      r := Ok(Some(rows[key].rid));
    }
  }

  // ---------------------------------------------------------------- the simulation

  /** One call against the operations linearized so far. */
  ghost predicate CallLinearized(start: KeyTable, lin: seq<Op>, call: Call) {
    && call.invoked <= call.responded <= |lin|
    && (call.pc.Inserting? ==> call.point.None?)
    && (call.point.Some? ==>
          && call.invoked <= call.point.value < call.responded && lin[call.point.value] == call.op
          && (call.pc.Selecting? ==> call.op.key in AtomicRows(start, lin, call.point.value))
          && (call.pc.Done? && call.pc.answer != StoreError ==> call.pc.answer == AtomicAnswer(start, lin, call.point.value)))
    && (call.pc.Selecting? || call.pc == Done(Nil) || call.pc == Done(ConflictError) ==> call.point.Some?)
  }

  ghost predicate Linearized(start: KeyTable, s: State) {
    && s.rows == AtomicRows(start, s.lin, |s.lin|)
    && (forall c :: c in s.calls ==> s.calls[c].op.caller == c && CallLinearized(start, s.lin, s.calls[c]))
    && Owned(s)
  }

  /** Every linearized operation is its caller's, at its caller's place. */
  ghost predicate Owned(s: State) {
    forall i :: 0 <= i < |s.lin| ==> s.lin[i].caller in s.calls && s.calls[s.lin[i].caller].point == Some(i)
  }

  lemma InsertOwned(s: State, ev: Event)
    requires Enabled(s, ev) && ev.Insert? && Owned(s) && s.calls[ev.c].op.caller == ev.c && s.calls[ev.c].point.None?
    ensures Owned(Next(s, ev))
  {
  }

  lemma CallStaysLinearized(start: KeyTable, lin: seq<Op>, op: Op, call: Call)
    requires CallLinearized(start, lin, call)
    ensures CallLinearized(start, lin + [op], call)
  {
    if call.point.Some? {
      AtomicRowsPrefix(start, lin, [op], call.point.value);
    }
  }

  /** The inserting call itself: its place is the end of the order, its answer the atomic one there. */
  lemma InserterLinearized(start: KeyTable, s: State, ev: Event)
    requires Enabled(s, ev) && ev.Insert? && ev.fault != LostBefore
    requires s.rows == AtomicRows(start, s.lin, |s.lin|) && CallLinearized(start, s.lin, s.calls[ev.c])
    ensures CallLinearized(start, Next(s, ev).lin, Next(s, ev).calls[ev.c])
  {
    AtomicRowsPrefix(start, s.lin, [s.calls[ev.c].op], |s.lin|);
  }

  lemma InsertRows(start: KeyTable, s: State, ev: Event)
    requires Enabled(s, ev) && ev.Insert? && ev.fault != LostBefore && s.rows == AtomicRows(start, s.lin, |s.lin|)
    ensures var t := Next(s, ev); t.rows == AtomicRows(start, t.lin, |t.lin|)
  {
    AtomicRowsPrefix(start, s.lin, [s.calls[ev.c].op], |s.lin|);
  }

  lemma InsertFrame(s: State, ev: Event)
    requires Enabled(s, ev) && ev.Insert? && ev.fault != LostBefore
    ensures var t := Next(s, ev);
            && t.lin == s.lin + [s.calls[ev.c].op] && t.calls.Keys == s.calls.Keys && t.calls[ev.c].op == s.calls[ev.c].op
            && forall c :: c in s.calls && c != ev.c ==> t.calls[c] == s.calls[c]
  {
  }

  lemma InsertLinearized(start: KeyTable, s: State, ev: Event)
    requires Linearized(start, s) && Enabled(s, ev) && ev.Insert? && ev.fault != LostBefore
    ensures Linearized(start, Next(s, ev))
  {
    assert s.calls[ev.c].point.None? by { assert CallLinearized(start, s.lin, s.calls[ev.c]); }
    hide CallLinearized, AtomicRows, Owned, Next;
    var t := Next(s, ev);
    InsertFrame(s, ev);
    InsertRows(start, s, ev);
    InsertOwned(s, ev);
    forall c | c in t.calls
      ensures t.calls[c].op.caller == c && CallLinearized(start, t.lin, t.calls[c])
    {
      if c == ev.c {
        InserterLinearized(start, s, ev);
      } else {
        CallStaysLinearized(start, s.lin, s.calls[ev.c].op, s.calls[c]);
      }
    }
  }

  /** The SELECT reads what the INSERT met: the row cannot have changed in between. */
  lemma SelectLinearized(start: KeyTable, s: State, ev: Event)
    requires Linearized(start, s) && Enabled(s, ev) && ev.Select?
    ensures Linearized(start, Next(s, ev))
  {
    var call := s.calls[ev.c];
    assert CallLinearized(start, s.lin, call);
    AtomicRowsGrow(start, s.lin, call.point.value, |s.lin|);
    assert Compare(s.rows, call.op) == AtomicAnswer(start, s.lin, call.point.value);
  }

  lemma LinearizedStep(start: KeyTable, s: State, ev: Event)
    requires Linearized(start, s) && Enabled(s, ev) && !ev.Delete?
    ensures Linearized(start, Next(s, ev))
  {
    if ev.Select? {
      SelectLinearized(start, s, ev);
    } else if ev.Insert? && ev.fault != LostBefore {
      InsertLinearized(start, s, ev);
    }
  }

  lemma {:induction false} LinearizedAlong(start: KeyTable, s: State, evs: seq<Event>)
    requires Linearized(start, s) && Runs(s, evs) && DeletionFree(evs)
    ensures Linearized(start, Final(s, evs))
    decreases |evs|
  {
    if evs != [] {
      LinearizedStep(start, s, evs[0]);
      LinearizedAlong(start, Next(s, evs[0]), evs[1..]);
    }
  }

  // ---------------------------------------------------------------- main results

  function Begin(start: KeyTable): State {
    State(start, map[], [])
  }

  /** Linearizability, for every deletion-free interleaving of any number of calls: the table is the one the
      atomic store reaches by the same operations in INSERT order; every call that answered nil or conflict
      took effect once, inside its own interval, and answered what the atomic Record answers at that place;
      every operation is some call's, at that call's own place, so no call takes effect twice. */
  lemma PgRecordLinearizes(start: KeyTable, evs: seq<Event>)
    requires Runs(Begin(start), evs) && DeletionFree(evs)
    ensures var s := Final(Begin(start), evs);
      && s.rows == AtomicRows(start, s.lin, |s.lin|)
      && (forall c :: c in s.calls && (s.calls[c].pc == Done(Nil) || s.calls[c].pc == Done(ConflictError)) ==>
            var call := s.calls[c];
            && call.point.Some? && call.invoked <= call.point.value < call.responded <= |s.lin|
            && s.lin[call.point.value] == call.op && call.pc.answer == AtomicAnswer(start, s.lin, call.point.value))
      && (forall i :: 0 <= i < |s.lin| ==>
            var c := s.lin[i].caller; c in s.calls && s.calls[c].op == s.lin[i] && s.calls[c].point == Some(i))
  {
    LinearizedAlong(start, Begin(start), evs);
  }

  /** A call that had responded keeps its record, and one invoked later starts at or after its response. */
  lemma {:induction false} RecordsAreFinal(s: State, evs: seq<Event>, c: CallId)
    requires Runs(s, evs) && c in s.calls && s.calls[c].pc.Done?
    ensures c in Final(s, evs).calls && Final(s, evs).calls[c] == s.calls[c] && |s.lin| <= |Final(s, evs).lin|
    ensures forall d :: d in Final(s, evs).calls && d !in s.calls ==> Final(s, evs).calls[d].invoked >= |s.lin|
    decreases |evs|
  {
    if evs != [] {
      var t := Next(s, evs[0]);
      RecordsAreFinal(t, evs[1..], c);
      forall d | d in Final(s, evs).calls && d !in s.calls
        ensures Final(s, evs).calls[d].invoked >= |s.lin|
      {
        if d in t.calls {
          InvokedIsFixed(t, evs[1..], d);
        }
      }
    }
  }

  lemma {:induction false} InvokedIsFixed(s: State, evs: seq<Event>, d: CallId)
    requires Runs(s, evs) && d in s.calls
    ensures d in Final(s, evs).calls && Final(s, evs).calls[d].invoked == s.calls[d].invoked
    decreases |evs|
  {
    if evs != [] {
      InvokedIsFixed(Next(s, evs[0]), evs[1..], d);
    }
  }

  /** The linearization respects real time: a call that answered before another was invoked comes first. */
  lemma RealTimeOrder(start: KeyTable, before: seq<Event>, after: seq<Event>, c: CallId, d: CallId)
    requires Runs(Begin(start), before) && Runs(Final(Begin(start), before), after)
    requires DeletionFree(before) && DeletionFree(after)
    requires var m := Final(Begin(start), before); c in m.calls && m.calls[c].pc.Done? && d !in m.calls
    requires d in Final(Final(Begin(start), before), after).calls
    ensures var s := Final(Final(Begin(start), before), after);
            c in s.calls && (s.calls[c].point.Some? && s.calls[d].point.Some? ==> s.calls[c].point.value < s.calls[d].point.value)
  {
    var m := Final(Begin(start), before);
    LinearizedAlong(start, Begin(start), before);
    RecordsAreFinal(m, after, c);
    assert CallLinearized(start, m.lin, m.calls[c]);
    LinearizedAlong(start, m, after);
    var s := Final(m, after);
    assert CallLinearized(start, s.lin, s.calls[d]);
  }

  /** The statements of one call whose statements nobody comes between. */
  function Statements(rows: KeyTable, c: CallId, key: Key, window: int, fault: Fault, selectFails: bool): seq<Event> {
    if window <= 0 then [] else if fault == NoFault && key in rows then [Insert(c, fault), Select(c, selectFails)] else [Insert(c, fault)]
  }

  /** Such a call does what the store's own Record does: the row is entered with now plus window if the key is new,
      and the answer is nil, conflict or an error accordingly. */
  lemma AloneAsRecorded(s: State, c: CallId, key: Key, rid: ReceiptId, window: int, now: int, fault: Fault, selectFails: bool)
    requires c !in s.calls
    ensures var t := Next(s, Invoke(c, key, rid, window, now));
            var evs := Statements(s.rows, c, key, window, fault, selectFails);
            && Runs(t, evs)
            && Final(t, evs).rows == (if window <= 0 || fault == LostBefore || key in s.rows then s.rows else s.rows[key := Entry(rid, now + window)])
            && c in Final(t, evs).calls
            && Final(t, evs).calls[c].pc == Done(
                 if window <= 0 then WindowError
                 else if fault != NoFault then StoreError
                 else if key !in s.rows then Nil
                 else if selectFails then StoreError
                 else if s.rows[key].rid == rid then Nil
                 else ConflictError)
  {
    var t := Next(s, Invoke(c, key, rid, window, now));
    var evs := Statements(s.rows, c, key, window, fault, selectFails);
    if evs != [] {
      var u := Next(t, evs[0]);
      if |evs| == 2 {
        assert evs[1..] == [Select(c, selectFails)] && evs[1..][1..] == [];
        assert Runs(Next(u, evs[1]), []);
        assert Runs(u, evs[1..]) && Final(u, evs[1..]) == Next(u, evs[1]);
      } else {
        assert evs[1..] == [];
        assert Runs(u, evs[1..]);
      }
    }
  }

  /** With a deletion between the two statements Record can answer nil for a receipt that no order of the
      atomic Record and the deletion would have accepted and left absent. */
  lemma DeletionBreaksIt(k: Key, old': Entry, rid: ReceiptId)
    requires old'.rid != rid
    ensures var start: KeyTable := map[k := old'];
            var evs := [Invoke(0, k, rid, 1, 0), Insert(0, NoFault), Delete(k), Select(0, false)];
            && Runs(Begin(start), evs)
            && var s := Final(Begin(start), evs);
            && 0 in s.calls && s.calls[0].pc == Done(Nil) && k !in s.rows
            && Recording(start, k, rid) == Conflict
            && k in AfterRecord(start - {k}, k, rid, 1)
  {
    var start: KeyTable := map[k := old'];
    var s1 := Next(Begin(start), Invoke(0, k, rid, 1, 0));
    var s2 := Next(s1, Insert(0, NoFault));
    var s3 := Next(s2, Delete(k));
    var s4 := Next(s3, Select(0, false));
    assert Runs(s3, [Select(0, false)]) && Final(s3, [Select(0, false)]) == s4 by {
      assert [Select(0, false)][1..] == [];
    }
    assert [Delete(k), Select(0, false)][1..] == [Select(0, false)];
    assert Runs(s2, [Delete(k), Select(0, false)]) && Final(s2, [Delete(k), Select(0, false)]) == s4;
    assert [Insert(0, NoFault), Delete(k), Select(0, false)][1..] == [Delete(k), Select(0, false)];
    assert Runs(s1, [Insert(0, NoFault), Delete(k), Select(0, false)])
        && Final(s1, [Insert(0, NoFault), Delete(k), Select(0, false)]) == s4;
    var evs := [Invoke(0, k, rid, 1, 0), Insert(0, NoFault), Delete(k), Select(0, false)];
    assert evs[1..] == [Insert(0, NoFault), Delete(k), Select(0, false)];
  }
}
