/** The pipe of kernel/pipe.c: a ring of 512 bytes between 32-bit counters. The lock is held except in
    sleep, so calls of several readers and writers interleave in the pieces between two sleeps. */
module Pipe {

  const PIPESIZE := 512
  const WORD := 0x1_0000_0000

  /** A byte with the call of pipewrite that stored it. */
  datatype Sent = Sent(call: int, ch: bv8)

  /** How a piece of a call ends: asleep, to be continued, or with the call's result. */
  datatype Outcome = Asleep | Returned(value: int)

  /** User memory from the call's address on; None where copyin fails. */
  datatype Cell = None | Byte(ch: bv8)

  predicate AllBytes(user: seq<Cell>, from: int, hi: int) {
    0 <= from && (from < hi ==> hi <= |user|) && forall k | from <= k < hi :: user[k].Byte?
  }

  /** The stream s followed by the bytes of user memory from `from` up to hi, stored by call id. */
  function Stored(s: seq<Sent>, id: int, user: seq<Cell>, from: int, hi: int): (r: seq<Sent>)
    requires AllBytes(user, from, hi)
    decreases hi - from
  {
    if from >= hi then s else Stored(s, id, user, from, hi - 1) + [Sent(id, user[hi - 1].ch)]
  }

  /** b followed by these bytes. */
  function Copied(b: seq<bv8>, user: seq<Cell>, from: int, hi: int): (r: seq<bv8>)
    requires AllBytes(user, from, hi)
    decreases hi - from
  {
    if from >= hi then b else Copied(b, user, from, hi - 1) + [user[hi - 1].ch]
  }

  function Chars(s: seq<Sent>): (r: seq<bv8>)
    ensures |r| == |s| && forall k | 0 <= k < |s| :: r[k] == s[k].ch
  {
    if s == [] then [] else Chars(s[..|s| - 1]) + [s[|s| - 1].ch]
  }

  /** The bytes of one call among all that were stored. */
  function Of(s: seq<Sent>, id: int): seq<bv8> {
    if s == [] then []
    else if s[|s| - 1].call == id then Of(s[..|s| - 1], id) + [s[|s| - 1].ch]
    else Of(s[..|s| - 1], id)
  }

  /** Why a piece of pipewrite ended after byte i, with size bytes in the ring. */
  predicate WriteEnds(out: Outcome, woke: bool, user: seq<Cell>, n: int, i: int, readopen: bool, killedAt: int,
                      size: int) {
    n <= |user| && 0 <= i &&
    match out
    case Asleep => i < n && readopen && i < killedAt && size == PIPESIZE && woke
    case Returned(v) =>
      if i < n && (!readopen || i >= killedAt) then v == -1 && !woke
      else v == i && woke && (i < n ==> user[i].None? && size < PIPESIZE)
  }

  // Counters and slots.

  /** The number of bytes so far as a uint, and as a slot: 512 divides 2^32. */
  lemma SlotAcrossOverflow(x: nat)
    ensures (x % WORD) % PIPESIZE == x % PIPESIZE
  {
    var q := x / WORD;
    assert x == q * WORD + x % WORD;
    assert x == (q * 8388608) * PIPESIZE + x % WORD;
    ModAdd(q * 8388608, x % WORD);
  }

  lemma ModAdd(q: nat, r: nat)
    ensures (q * PIPESIZE + r) % PIPESIZE == r % PIPESIZE
  {
  }

  lemma NextWord(x: nat)
    ensures (x % WORD + 1) % WORD == (x + 1) % WORD
  {
  }

  /** Two counters not more than 512 apart compare as their uints do. */
  lemma CountersApart(r: nat, w: nat)
    requires r <= w <= r + PIPESIZE
    ensures w % WORD == r % WORD <==> w == r
    ensures w % WORD == (r % WORD + PIPESIZE) % WORD <==> w == r + PIPESIZE
    ensures (w % WORD - r % WORD) % WORD == w - r
  {
  }

  /** The bytes from lo to hi of the stream are in their slots. */
  predicate Slots(d: seq<bv8>, s: seq<Sent>, lo: int, hi: int) {
    |d| == PIPESIZE && 0 <= lo <= hi <= |s| && forall j | lo <= j < hi :: d[j % PIPESIZE] == s[j].ch
  }

  lemma OtherSlot(j: nat, k: nat)
    requires j < k < j + PIPESIZE
    ensures j % PIPESIZE != k % PIPESIZE
  {
  }

  lemma SlotsPush(d: seq<bv8>, s: seq<Sent>, lo: int, x: Sent)
    requires Slots(d, s, lo, |s|) && |s| < lo + PIPESIZE
    ensures Slots(d[|s| % PIPESIZE := x.ch], s + [x], lo, |s| + 1)
  {
    forall j | lo <= j < |s| ensures d[|s| % PIPESIZE := x.ch][j % PIPESIZE] == s[j].ch {
      OtherSlot(j, |s|);
    }
  }

  /** consumed is the stream so far without the last bytes, at most 512, which are in the ring. */
  predicate Flow(d: seq<bv8>, nread: int, nwrite: int, stored: seq<Sent>, consumed: seq<bv8>) {
    && |consumed| <= |stored| <= |consumed| + PIPESIZE && consumed == Chars(stored)[..|consumed|]
    && nread == |consumed| % WORD && nwrite == |stored| % WORD
    && Slots(d, stored, |consumed|, |stored|)
  }

  lemma FlowPush(d: seq<bv8>, nread: int, nwrite: int, stored: seq<Sent>, consumed: seq<bv8>, x: Sent)
    requires Flow(d, nread, nwrite, stored, consumed) && |stored| < |consumed| + PIPESIZE
    ensures Flow(d[nwrite % PIPESIZE := x.ch], nread, (nwrite + 1) % WORD, stored + [x], consumed)
  {
    SlotAcrossOverflow(|stored|);
    NextWord(|stored|);
    SlotsPush(d, stored, |consumed|, x);
    assert (stored + [x])[..|stored|] == stored;
  }

  lemma FlowPop(d: seq<bv8>, nread: int, nwrite: int, stored: seq<Sent>, consumed: seq<bv8>)
    requires Flow(d, nread, nwrite, stored, consumed) && |consumed| < |stored|
    ensures Flow(d, (nread + 1) % WORD, nwrite, stored, consumed + [d[nread % PIPESIZE]])
  {
    SlotAcrossOverflow(|consumed|);
    NextWord(|consumed|);
    assert d[|consumed| % PIPESIZE] == stored[|consumed|].ch;
  }

  class Pipe {
    const data: array<bv8>
    var nread: int
    var nwrite: int
    var readopen: bool
    var writeopen: bool

    /** All bytes ever stored, in order, and all bytes ever taken out. */
    ghost var stored: seq<Sent>
    ghost var consumed: seq<bv8>

    ghost predicate Valid()
      reads this, data
    {
      && data.Length == PIPESIZE
      && Flow(data[..], nread, nwrite, stored, consumed)
    }

    constructor ()
      ensures Valid() && fresh(data) && stored == [] && consumed == [] && readopen && writeopen
    {
      data := new bv8[PIPESIZE];
      nread, nwrite, readopen, writeopen := 0, 0, true, true;
      stored, consumed := [], [];
    }

    /** pipeclose; the last one to close frees the pipe. */
    method Close(writable: bool) returns (freed: bool)
      requires Valid()
      modifies this`readopen, this`writeopen
      ensures Valid() && writeopen == (old(writeopen) && !writable) && readopen == (old(readopen) && writable)
      ensures freed == (!readopen && !writeopen)
    {
      if writable { writeopen := false; } else { readopen := false; }
      freed := !readopen && !writeopen;
    }

    /** The test for a full ring, on 32-bit counters. */
    method IsFull() returns (full: bool)
      requires Valid()
      ensures full == (|stored| == |consumed| + PIPESIZE) && (!full ==> |stored| < |consumed| + PIPESIZE)
    {
      CountersApart(|consumed|, |stored|);
      full := nwrite == (nread + PIPESIZE) % WORD;
    }

    method IsEmpty() returns (empty: bool)
      requires Valid()
      ensures empty == (|stored| == |consumed|) && (!empty ==> |consumed| < |stored|)
    {
      CountersApart(|consumed|, |stored|);
      empty := nread == nwrite;
    }

    /** One turn of pipewrite's loop with room. */
    method Store(id: int, ch: bv8)
      requires Valid() && |stored| < |consumed| + PIPESIZE
      modifies this`nwrite, this`stored, data
      ensures Valid() == true && stored == old(stored) + [Sent(id, ch)]
    {
      FlowPush(data[..], nread, nwrite, stored, consumed, Sent(id, ch));
      data[nwrite % PIPESIZE] := ch;
      assert data[..] == old(data[..])[old(nwrite) % PIPESIZE := ch];
      nwrite := (nwrite + 1) % WORD;
      stored := stored + [Sent(id, ch)];
    }

    /** pipewrite of n bytes from turn `from` on, until it sleeps or returns; the process is seen killed
        from turn killedAt on. */
    method Write(id: int, user: seq<Cell>, n: int, from: int, killedAt: int) returns (i: int, out: Outcome, woke: bool)
      requires Valid() == true && 0 <= from && n <= |user| && (from <= n || from == 0)
      modifies this`nwrite, this`stored, data
      ensures Valid() == true && from <= i && (i <= n || i == from) && AllBytes(user, from, i)
      ensures stored == Stored(old(stored), id, user, from, i)
      ensures WriteEnds(out, woke, user, n, i, readopen, killedAt, |stored| - |consumed|)
    {
      i := from;
      while i < n
        invariant Valid() == true && from <= i && (i <= n || i == from) && AllBytes(user, from, i) == true
        invariant stored == Stored(old(stored), id, user, from, i)
      {
        if !readopen || i >= killedAt {
          return i, Returned(-1), false;
        }
        var full := IsFull();
        if full {
          return i, Asleep, true;
        }
        if user[i].None? {
          return i, Returned(i), true;
        }
        NextByte(old(stored), id, user, from, i);
        Store(id, user[i].ch);
        i := i + 1;
      }
      out, woke := Returned(i), true;
    }

    /** piperead of n bytes, until it sleeps or returns; copyout fails at byte failAt. A byte whose copy
        fails is consumed and not counted. */
    method Read(n: int, killed: bool, failAt: int) returns (got: seq<bv8>, lost: bool, out: Outcome)
      requires Valid() == true
      modifies this`nread, this`consumed
      ensures Valid() == true
      ensures old(consumed) + got <= consumed
      ensures |consumed| == |old(consumed)| + |got| + (if lost then 1 else 0)
      ensures lost == (|got| == failAt && |got| < n && |old(consumed)| + |got| < |stored|)
      ensures |old(consumed)| == |stored| && writeopen ==> out == if killed then Returned(-1) else Asleep
      ensures !(|old(consumed)| == |stored| && writeopen) ==>
                out == Returned(|got|) && (|got| >= n || lost || |consumed| == |stored|)
    {
      var empty := IsEmpty();
      got, lost := [], false;
      if empty && writeopen {
        return [], false, if killed then Returned(-1) else Asleep;
      }
      while |got| < n
        invariant Valid() == true && consumed == old(consumed) + got && (n >= 0 ==> |got| <= n) && (n < 0 ==> got == [])
        decreases n - |got|
      {
        empty := IsEmpty();
        if empty {
          return got, false, Returned(|got|);
        }
        var ch := Take();
        if |got| == failAt {
          return got, true, Returned(|got|);
        }
        got := got + [ch];
      }
      out := Returned(|got|);
    }

    method Take() returns (ch: bv8)
      requires Valid() && |consumed| < |stored|
      modifies this`nread, this`consumed
      ensures Valid() == true && consumed == old(consumed) + [ch] && ch == stored[|old(consumed)|].ch
    {
      FlowPop(data[..], nread, nwrite, stored, consumed);
      ch := data[nread % PIPESIZE];
      nread := (nread + 1) % WORD;
      consumed := consumed + [ch];
    }

    /** What came out is the beginning of what went in, and the counters' difference counts the rest. */
    lemma Fifo()
      requires Valid()
      ensures consumed <= Chars(stored)
      ensures (nwrite - nread) % WORD == |stored| - |consumed| <= PIPESIZE
    {
      CountersApart(|consumed|, |stored|);
    }
  }

  lemma OfSnoc(s: seq<Sent>, x: Sent, id: int)
    ensures Of(s + [x], id) == if x.call == id then Of(s, id) + [x.ch] else Of(s, id)
  {
    assert (s + [x])[..|s|] == s;
  }

  /** Each call's bytes are in the stream in its own order, whatever other calls stored between. */
  lemma {:induction false} OwnOrder(s: seq<Sent>, id: int, user: seq<Cell>, from: int, hi: int, other: int)
    requires AllBytes(user, from, hi)
    ensures Of(Stored(s, id, user, from, hi), other) == if other == id then Copied(Of(s, id), user, from, hi)
            else Of(s, other)
    decreases hi - from
  {
    if from < hi {
      OwnOrder(s, id, user, from, hi - 1, other);
      OfSnoc(Stored(s, id, user, from, hi - 1), Sent(id, user[hi - 1].ch), other);
    }
  }

  lemma NextByte(s: seq<Sent>, id: int, user: seq<Cell>, from: int, i: int)
    requires AllBytes(user, from, i) && from <= i < |user| && user[i].Byte?
    ensures AllBytes(user, from, i + 1)
    ensures Stored(s, id, user, from, i + 1) == Stored(s, id, user, from, i) + [Sent(id, user[i].ch)]
  {
  }
}
