/** The webhook receiver's fixed-capacity circular buffer. */
module RingBuffer {
  /** `received` = 0 is Go's zero time. */
  datatype AlertPayload = AlertPayload(received: int, body: string)

  function Min(a: nat, b: nat): nat {
    if a < b then a else b
  }

  /** The last `capacity` entries, or all of them. */
  function Recent(log: seq<AlertPayload>, capacity: nat): (r: seq<AlertPayload>)
    ensures |r| == Min(|log|, capacity)
    ensures forall i :: 0 <= i < |r| ==> r[i] == log[|log| - |r| + i]
  {
    log[|log| - Min(|log|, capacity)..]
  }

  /** The entries not received before `since`, in order; a zero `since` keeps all. */
  function NotBefore(s: seq<AlertPayload>, since: int): seq<AlertPayload> {
    if s == [] then []
    else
      var last := s[|s| - 1];
      NotBefore(s[..|s| - 1], since) + (if since != 0 && last.received < since then [] else [last])
  }

  /** The filter keeps exactly the entries that qualify, with their multiplicity. */
  lemma {:induction false} NotBeforeKeeps(s: seq<AlertPayload>, since: int, p: AlertPayload)
    ensures multiset(NotBefore(s, since))[p] == if since != 0 && p.received < since then 0 else multiset(s)[p]
  {
    if s != [] {
      NotBeforeKeeps(s[..|s| - 1], since, p);
      assert s == s[..|s| - 1] + [s[|s| - 1]];
    }
  }

  lemma EmptyStays(since: int)
    ensures NotBefore([], since) == []
  {
  }

  lemma NotBeforeNext(s: seq<AlertPayload>, i: nat, since: int)
    requires i < |s|
    ensures NotBefore(s[..i + 1], since) == NotBefore(s[..i], since) + (if since != 0 && s[i].received < since then [] else [s[i]])
  {
    assert s[..i + 1][..i] == s[..i];
  }

  /** What a snapshot shows after one more entry: the oldest makes room when the buffer is full. */
  lemma RecentAfterAppend(log: seq<AlertPayload>, p: AlertPayload, capacity: nat)
    requires capacity > 0
    ensures var r := Recent(log, capacity);
            Recent(log + [p], capacity) == (if |r| < capacity then r else r[1..]) + [p]
  {
  }

  lemma Multiples(n: nat, q: int)
    ensures q <= 0 ==> n * q <= 0
    ensures q == 1 ==> n * q == n
    ensures q >= 2 ==> n * q >= 2 * n
  {
    if q >= 2 {
      assert n * q == 2 * n + n * (q - 2);
    }
  }

  /** x mod n on the range the index arithmetic stays in. */
  function Wrapped(x: nat, n: nat): (r: nat)
    requires x < 2 * n
    ensures r == if x < n then x else x - n
  {
    Multiples(n, x / n);
    assert x == n * (x / n) + x % n;
    x % n
  }

  /** Where the i-th oldest entry sits. */
  function Slot(head: nat, size: nat, n: nat, i: nat): (r: nat)
    requires head < n && i < size <= n
    ensures r < n
  {
    Wrapped(Wrapped(head + n - size, n) + i, n)
  }

  /** Writing at the head: the older entries keep their slots, one place further down when the buffer is full. */
  ghost predicate SlotsMove(head: nat, size: nat, n: nat, i: nat)
    requires head < n && size <= n && i < Min(size + 1, n)
  {
    var head', size' := Wrapped(head + 1, n), Min(size + 1, n);
    if i == size' - 1 then Slot(head', size', n, i) == head
    else
      var before := if size < n then i else i + 1;
      Slot(head', size', n, i) == Slot(head, size, n, before) != head
  }

  lemma SlotsAfterAppend(head: nat, size: nat, n: nat, i: nat)
    requires head < n && size <= n && i < Min(size + 1, n)
    ensures SlotsMove(head, size, n, i)
  {
  }

  class Ring {
    const buf: array<AlertPayload>
    var head: nat
    var size: nat
    ghost var log: seq<AlertPayload>  // appended since the last clear

    ghost predicate Valid()
      reads this, buf
    {
      && head < buf.Length && size == Min(|log|, buf.Length)
      && forall i :: 0 <= i < size ==> buf[Slot(head, size, buf.Length, i)] == Recent(log, buf.Length)[i]
    }

    constructor (capacity: nat)
      requires capacity > 0
      ensures Valid() && fresh(buf) && buf.Length == capacity && log == []
    {
      buf := new AlertPayload[capacity](_ => AlertPayload(0, ""));
      head, size, log := 0, 0, [];
    }

    method Append(p: AlertPayload)
      requires Valid()
      modifies this, buf
      ensures Valid() && log == old(log) + [p]
    {
      hide Wrapped, Slot, Recent;
      RecentAfterAppend(log, p, buf.Length);
      forall i | 0 <= i < Min(size + 1, buf.Length)
        ensures SlotsMove(head, size, buf.Length, i)
      {
        SlotsAfterAppend(head, size, buf.Length, i);
      }
      buf[head] := p;
      head := Wrapped(head + 1, buf.Length);
      if size < buf.Length {
        size := size + 1;
      }
      log := log + [p];
      forall i | 0 <= i < size
        ensures buf[Slot(head, size, buf.Length, i)] == Recent(log, buf.Length)[i]
      {
        assert SlotsMove(old(head), old(size), buf.Length, i);
      }
    }

    method Snapshot(since: int) returns (out: seq<AlertPayload>)
      requires Valid()
      ensures out == NotBefore(Recent(log, buf.Length), since)
    {
      hide Wrapped, Recent, NotBefore;
      EmptyStays(since);
      out := [];
      if size == 0 { return; }
      var start := Wrapped(head - size + buf.Length, buf.Length);
      ghost var recent := Recent(log, buf.Length);
      for i := 0 to size
        invariant out == NotBefore(recent[..i], since)
      {
        var idx := Wrapped(start + i, buf.Length);
        assert idx == Slot(head, size, buf.Length, i);
        NotBeforeNext(recent, i, since);
        if !(since != 0 && buf[idx].received < since) {
          out := out + [buf[idx]];
        }
      }
      assert recent[..size] == recent;
    }

    method Clear()
      requires Valid()
      modifies this
      ensures Valid() && log == []
    {
      head, size, log := 0, 0, [];
    }
  }
}
