/**
 * The pre-trigger context ring of internal/filter/ringbuffer.go: it keeps the last `capacity`
 * entries pushed, and a snapshot lists them oldest first.
 */
module RingBuffer {
  import opened Arithmetic

  datatype Entry = Entry(timestamp: int, value: real, zScore: real, anomalous: bool)

  const ZeroEntry := Entry(0, 0.0, 0.0, false)

  const DEFAULT_CAPACITY := 10

  /** The last `k` elements of `s`, or all of them. */
  function LastUpTo<T>(k: nat, s: seq<T>): (t: seq<T>)
    ensures |t| == if |s| <= k then |s| else k
    ensures forall i :: 0 <= i < |t| ==> t[i] == s[|s| - |t| + i]
  {
    var n := if |s| <= k then |s| else k;
    seq(n, i requires 0 <= i < n => s[|s| - n + i])
  }

  /** The source's `x % m`, which wraps an index at most once. */
  method Wrap(x: nat, m: nat) returns (r: nat)
    requires 0 < m && x < 2 * m
    ensures r == if x < m then x else x - m
  {
    if m <= x {
      Remainder(x, m, 1, x - m);
    } else {
      Remainder(x, m, 0, x);
    }
    r := x % m;
  }

  /** Position in a ring of the i-th oldest of `count` retained entries. */
  function Position(capacity: nat, head: nat, count: nat, i: nat): (k: nat)
    requires head < capacity && i < count <= capacity
    ensures k < capacity
  {
    var start := if count == capacity then head else 0;
    if start + i < capacity then start + i else start + i - capacity
  }

  /** The ring reads `kept`, oldest first. */
  ghost predicate Reads(buf: seq<Entry>, head: nat, kept: seq<Entry>)
    requires head < |buf|
  {
    && |kept| <= |buf| && (|kept| < |buf| ==> head == |kept|)
    && forall i :: 0 <= i < |kept| ==> buf[Position(|buf|, head, |kept|, i)] == kept[i]
  }

  lemma LastUpToNext<T>(k: nat, s: seq<T>, x: T)
    requires k > 0
    ensures LastUpTo(k, s + [x])
            == (if |LastUpTo(k, s)| < k then LastUpTo(k, s) else LastUpTo(k, s)[1..]) + [x]
  {
  }

  lemma PushReads(buf: seq<Entry>, head: nat, kept: seq<Entry>, e: Entry, head': nat)
    requires head < |buf| && Reads(buf, head, kept)
    requires head' == if head + 1 < |buf| then head + 1 else 0
    ensures Reads(buf[head := e], head', (if |kept| < |buf| then kept else kept[1..]) + [e])
  {
    var buf', now := buf[head := e], (if |kept| < |buf| then kept else kept[1..]) + [e];
    forall i | 0 <= i < |now| ensures buf'[Position(|buf|, head', |now|, i)] == now[i] {
      if i == |now| - 1 {
        assert Position(|buf|, head', |now|, i) == head;
      } else if |kept| < |buf| {
        assert Position(|buf|, head', |now|, i) == i == Position(|buf|, head, |kept|, i);
      } else {
        assert Position(|buf|, head', |now|, i) == Position(|buf|, head, |kept|, i + 1) != head;
      }
    }
  }

  class RingBuffer {
    const buf: array<Entry>
    const capacity: nat
    var head: nat
    var count: nat
    ghost var pushed: seq<Entry> // since construction or the last Reset

    ghost predicate Valid()
      reads this, buf
    {
      && buf.Length == capacity && head < capacity
      && count == |LastUpTo(capacity, pushed)|
      && Reads(buf[..], head, LastUpTo(capacity, pushed))
    }

    constructor (requested: int)
      ensures Valid() && fresh(buf) && pushed == []
      ensures capacity == if requested <= 0 then DEFAULT_CAPACITY else requested
    {
      var size := if requested <= 0 then DEFAULT_CAPACITY else requested;
      buf := new Entry[size](_ => ZeroEntry);
      capacity := size;
      head, count, pushed := 0, 0, [];
    }

    method Push(entry: Entry)
      requires Valid()
      modifies this, buf
      ensures Valid() && pushed == old(pushed) + [entry]
    {
      ghost var ring, kept := buf[..], LastUpTo(capacity, pushed);
      ghost var at := head;
      LastUpToNext(capacity, pushed, entry);
      buf[head] := entry;
      assert buf[..] == ring[at := entry];
      head := Wrap(head + 1, capacity);
      PushReads(ring, at, kept, entry, head);
      if count < capacity {
        count := count + 1;
      }
      pushed := pushed + [entry];
    }

    /** The copying loop of Snapshot. */
    method CopyTo(out: array<Entry>)
      requires Valid() && out != buf && count <= out.Length
      modifies out
      ensures out[..count] == LastUpTo(capacity, pushed)
      ensures out[count..] == old(out[count..])
    {
      ghost var kept, ring := LastUpTo(capacity, pushed), buf[..];
      var start := 0;
      if count == capacity {
        start := head;
      }
      for i := 0 to count
        invariant buf[..] == ring
        invariant out[..i] == kept[..i]
        invariant out[count..] == old(out[count..])
      {
        var idx := Wrap(start + i, capacity);
        assert idx == Position(capacity, head, count, i);
        assert ring[idx] == kept[i];
        out[i] := buf[idx];
        assert out[..i + 1] == kept[..i] + [kept[i]];
      }
    }

    /**
     * Snapshot into `dst` when its storage suffices, and into fresh storage otherwise. The result is
     * the first `n` slots of `out`; later slots of a reused `dst` keep their contents.
     */
    method Snapshot(dst: array<Entry>) returns (out: array<Entry>, n: nat)
      requires Valid() && dst != buf
      modifies dst
      ensures Valid() && n <= out.Length
      ensures out[..n] == LastUpTo(capacity, pushed)
      ensures if dst.Length < n then fresh(out) && dst[..] == old(dst[..]) else out == dst
      ensures out == dst ==> out[n..] == old(dst[n..])
    {
      n := count;
      if count == 0 {
        return dst, 0;
      }
      if dst.Length < count {
        out := new Entry[count](_ => ZeroEntry);
      } else {
        out := dst;
      }
      CopyTo(out);
    }

    method Reset()
      requires Valid()
      modifies this
      ensures Valid() && pushed == []
    {
      head, count, pushed := 0, 0, [];
    }
  }
}
