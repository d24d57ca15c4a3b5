/**
 The memory of a ring: a buffer and two indices that stand for two positions of one unbounded
 byte stream, `pushed` up to head and `popped` up to tail.
 */
module RingMemory {
  import opened Bytes
  import opened CircularBuffer

  datatype Ring = Ring(cap: nat, buf: seq<byte>, head: nat, tail: nat)

  /** Every byte of `stream` from position `from` on is in its cell. */
  ghost predicate Stored(cap: nat, buf: seq<byte>, stream: seq<byte>, from: nat)
    requires |buf| == cap > 0
  {
    forall j: nat {:trigger stream[j]} :: from <= j < |stream| ==> buf[Cell(cap, j)] == stream[j]
  }

  /** The bytes of `data` listed in `done` are in the cells behind position H. */
  ghost predicate Written(cap: nat, buf: seq<byte>, H: nat, data: seq<byte>, done: set<nat>)
    requires |buf| == cap > 0
  {
    forall k {:trigger k in done} :: k in done ==> k < |data| && buf[Cell(cap, H + k)] == data[k]
  }

  lemma PublishChunk(cap: nat, buf: seq<byte>, stream: seq<byte>, T: nat, data: seq<byte>, done: set<nat>)
    requires |buf| == cap > 0 && T <= |stream|
    requires Stored(cap, buf, stream, T) && Written(cap, buf, |stream|, data, done)
    requires forall k: nat :: k < |data| ==> k in done
    ensures Stored(cap, buf, stream + data, T)
  {
    forall j: nat | T <= j < |stream + data|
      ensures buf[Cell(cap, j)] == (stream + data)[j]
    {
      if |stream| <= j {
        assert (j - |stream|) in done && |stream| + (j - |stream|) == j;
      }
    }
  }

  lemma WriteKeepsStored(cap: nat, buf: seq<byte>, stream: seq<byte>, T: nat, p: nat, b: byte)
    requires |buf| == cap > 0 && T <= |stream| <= p < T + cap
    requires Stored(cap, buf, stream, T)
    ensures Stored(cap, buf[Cell(cap, p) := b], stream, T)
  {
    forall j: nat | T <= j < |stream|
      ensures buf[Cell(cap, p) := b][Cell(cap, j)] == stream[j]
    {
      CellInjective(cap, j, p);
    }
  }

  lemma WriteKeepsWritten(cap: nat, buf: seq<byte>, H: nat, data: seq<byte>, done: set<nat>, i: nat)
    requires |buf| == cap > 0 && i < |data| < cap
    requires Written(cap, buf, H, data, done)
    ensures Written(cap, buf[Cell(cap, H + i) := data[i]], H, data, done + {i})
  {
    forall k | k in done + {i}
      ensures k < |data| && buf[Cell(cap, H + i) := data[i]][Cell(cap, H + k)] == data[k]
    {
      if k < i {
        CellInjective(cap, H + k, H + i);
      } else if i < k {
        CellInjective(cap, H + i, H + k);
      }
    }
  }

  /** The numbers below n. */
  ghost function FirstN(n: nat): (r: set<nat>)
    ensures forall k: nat :: k in r <==> k < n
  {
    if n == 0 then {} else FirstN(n - 1) + {n - 1}
  }

  lemma FirstNStep(n: nat)
    ensures FirstN(n + 1) == FirstN(n) + {n}
  {
  }

  /** The indices are the stream positions' cells, and the published bytes are in their cells. */
  ghost predicate RingInv(r: Ring, pushed: seq<byte>, popped: seq<byte>) {
    && 2 <= r.cap && 2 * r.cap <= WORD && |r.buf| == r.cap
    && |popped| <= |pushed| <= |popped| + r.cap - 1
    && r.head == Cell(r.cap, |pushed|) && r.tail == Cell(r.cap, |popped|)
    && popped == pushed[..|popped|]
    && Stored(r.cap, r.buf, pushed, |popped|)
  }

  /** Both sides compute the distance of the two positions. */
  lemma RingSizes(r: Ring, pushed: seq<byte>, popped: seq<byte>)
    requires RingInv(r, pushed, popped)
    ensures Size(r.cap, r.head, r.tail) == |pushed| - |popped|
    ensures FreeSpace(r.cap, r.head, r.tail) == r.cap - 1 - (|pushed| - |popped|)
  {
    SizeAtPositions(r.cap, |pushed|, |popped|);
  }

  /** Writing byte i of the chunk behind head disturbs nothing that is published. */
  lemma WriteCell(r: Ring, pushed: seq<byte>, popped: seq<byte>, chunk: seq<byte>, done: set<nat>, i: nat)
    requires RingInv(r, pushed, popped) && i < |chunk|
    requires |pushed| + |chunk| <= |popped| + r.cap - 1
    requires Written(r.cap, r.buf, |pushed|, chunk, done)
    ensures var r' := r.(buf := r.buf[Cell(r.cap, |pushed| + i) := chunk[i]]);
            RingInv(r', pushed, popped) && Written(r.cap, r'.buf, |pushed|, chunk, done + {i})
  {
    WriteKeepsStored(r.cap, r.buf, pushed, |popped|, |pushed| + i, chunk[i]);
    WriteKeepsWritten(r.cap, r.buf, |pushed|, chunk, done, i);
  }

  lemma AdvanceHead(r: Ring, pushed: seq<byte>, popped: seq<byte>, chunk: seq<byte>, done: set<nat>)
    requires RingInv(r, pushed, popped)
    requires |pushed| + |chunk| <= |popped| + r.cap - 1
    requires Written(r.cap, r.buf, |pushed|, chunk, done) && forall k: nat :: k < |chunk| ==> k in done
    ensures RingInv(r.(head := Cell(r.cap, |pushed| + |chunk|)), pushed + chunk, popped)
  {
    PublishChunk(r.cap, r.buf, pushed, |popped|, chunk, done);
    assert |pushed + chunk| == |pushed| + |chunk|;
    assert popped == (pushed + chunk)[..|popped|];
  }

  lemma AdvanceTail(r: Ring, pushed: seq<byte>, popped: seq<byte>, bytes: seq<byte>)
    requires RingInv(r, pushed, popped)
    requires |popped| + |bytes| <= |pushed| && bytes == pushed[|popped|..|popped| + |bytes|]
    ensures RingInv(r.(tail := Cell(r.cap, |popped| + |bytes|)), pushed, popped + bytes)
  {
    var r', popped' := r.(tail := Cell(r.cap, |popped| + |bytes|)), popped + bytes;
    assert |popped'| == |popped| + |bytes|;
    assert popped' == pushed[..|popped'|];
    assert Stored(r.cap, r.buf, pushed, |popped'|);
  }
}
