/**
 The chunk loops of ByteRing and SPSCQueue over a real array: copying in and out in two straight
 segments or byte by byte with a modulo, and the push and pop loops around them. Here the other
 side only moves while this side waits; ByteRingProtocol and SpscQueue let it move at any step.
 */
module RingBuffer {
  import opened Bytes
  import opened CircularBuffer
  import opened RingMemory

  /** The buffer after `data` is written behind index h, wrapping once at most. */
  function Blit(buf: seq<byte>, h: nat, data: seq<byte>): (r: seq<byte>)
    requires h < |buf| && |data| < |buf|
    ensures |r| == |buf|
    ensures forall k: nat {:trigger r[k]} :: k < |buf| ==>
              r[k] == (var i := Distance(|buf|, h, k); if i < |data| then data[i] else buf[k])
  {
    seq(|buf|, k => if 0 <= k < |buf| then
                      (var i := Distance(|buf|, h, k); if i < |data| then data[i] else buf[k]) else 0)
  }

  /** The n bytes behind index t. */
  function Gather(buf: seq<byte>, t: nat, n: nat): (r: seq<byte>)
    requires t < |buf| && n < |buf|
    ensures |r| == n
    ensures forall i: nat {:trigger r[i]} :: i < n ==> r[i] == buf[SegmentCell(|buf|, t, n, i)]
  {
    seq(n, i => if 0 <= i < n then buf[SegmentCell(|buf|, t, n, i)] else 0)
  }

  /** How far cell k lies behind index h. */
  function Distance(cap: nat, h: nat, k: nat): (i: nat)
    requires h < cap && k < cap
    ensures i < cap
    ensures i + 1 < cap ==> SegmentCell(cap, h, i + 1, i) == k
  {
    if k >= h then k - h else k + cap - h
  }

  /** The n bytes behind t, in the two straight segments. */
  lemma GatherInTwo(buf: seq<byte>, t: nat, n: nat, first: nat)
    requires t < |buf| && n < |buf| && first == if n < |buf| - t then n else |buf| - t
    ensures Gather(buf, t, n) == buf[t..t + first] + buf[..n - first]
  {
  }

  /** Bytes x written at `to`. */
  function Overwrite(out: seq<byte>, to: nat, x: seq<byte>): (r: seq<byte>)
    requires to + |x| <= |out|
    ensures |r| == |out|
  {
    out[..to] + x + out[to + |x|..]
  }

  lemma WriteTwice(out: seq<byte>, to: nat, x: seq<byte>, y: seq<byte>)
    requires to + |x| + |y| <= |out|
    ensures Overwrite(Overwrite(out, to, x), to + |x|, y) == Overwrite(out, to, x + y)
    ensures y == [] ==> Overwrite(out, to, x) == Overwrite(out, to, x + y)
  {
    var once := Overwrite(out, to, x);
    assert once[..to + |x|] == out[..to] + x;
    assert once[to + |x| + |y|..] == out[to + |x| + |y|..];
  }

  /** A chunk written in its two straight segments. */
  lemma BlitInTwo(buf: seq<byte>, h: nat, chunk: seq<byte>, first: nat)
    requires h < |buf| && |chunk| < |buf| && first == if |chunk| < |buf| - h then |chunk| else |buf| - h
    ensures first == |chunk| ==> Overwrite(buf, h, chunk) == Blit(buf, h, chunk)
    ensures Overwrite(Overwrite(buf, h, chunk[..first]), 0, chunk[first..]) == Blit(buf, h, chunk)
  {
  }

  /** One more byte of a chunk. */
  lemma BlitOneMore(buf: seq<byte>, h: nat, chunk: seq<byte>, i: nat)
    requires h < |buf| && i < |chunk| < |buf|
    ensures var cell := SegmentCell(|buf|, h, i + 1, i);
            Blit(buf, h, chunk[..i])[cell := chunk[i]] == Blit(buf, h, chunk[..i + 1])
  {
  }

  method Memcpy(dst: array<byte>, to: nat, src: seq<byte>)
    requires to + |src| <= dst.Length
    modifies dst
    ensures dst[..] == Overwrite(old(dst[..]), to, src)
  {
    for i := 0 to |src|
      invariant forall k :: 0 <= k < dst.Length ==>
                  dst[k] == if to <= k < to + i then src[k - to] else old(dst[k])
    {
      dst[to + i] := src[i];
    }
    ghost var want := Overwrite(old(dst[..]), to, src);
    assert forall k :: 0 <= k < dst.Length ==> dst[k] == want[k];
  }

  /** ByteRing: two straight copies, of which the second is only there when the chunk wraps around. */
  method CopyInSegments(buffer: array<byte>, h: nat, chunk: seq<byte>)
    requires h < buffer.Length && |chunk| < buffer.Length
    modifies buffer
    ensures buffer[..] == Blit(old(buffer[..]), h, chunk)
  {
    var avail := buffer.Length - h;
    var first := if |chunk| < avail then |chunk| else avail;
    assert first == |chunk| ==> chunk[..first] == chunk;
    Memcpy(buffer, h, chunk[..first]);
    if first != |chunk| {
      Memcpy(buffer, 0, chunk[first..]);
    }
    BlitInTwo(old(buffer[..]), h, chunk, first);
  }

  /** SPSCQueue: one remainder per byte. */
  method CopyInModulo(buffer: array<byte>, h: nat, chunk: seq<byte>)
    requires h < buffer.Length && |chunk| < buffer.Length && 2 * buffer.Length <= WORD
    modifies buffer
    ensures buffer[..] == Blit(old(buffer[..]), h, chunk)
  {
    for i := 0 to |chunk|
      invariant buffer[..] == Blit(old(buffer[..]), h, chunk[..i])
    {
      CopyCellsExact(buffer.Length, h, i + 1, i);
      BlitOneMore(old(buffer[..]), h, chunk, i);
      buffer[ModuloCell(buffer.Length, h, i)] := chunk[i];
    }
    assert chunk[..|chunk|] == chunk;
  }

  /** ByteRing: likewise in the other direction, at most two straight copies. */
  method CopyOutSegments(buffer: array<byte>, t: nat, out: array<byte>, to: nat, n: nat)
    requires t < buffer.Length && n < buffer.Length && to + n <= out.Length && out != buffer
    modifies out
    ensures out[..] == Overwrite(old(out[..]), to, Gather(buffer[..], t, n))
  {
    var avail := buffer.Length - t;
    var first := if n < avail then n else avail;
    Memcpy(out, to, buffer[t..t + first]);
    if first != n {
      Memcpy(out, to + first, buffer[..n - first]);
    }
    GatherInTwo(buffer[..], t, n, first);
    WriteTwice(old(out[..]), to, buffer[t..t + first], buffer[..n - first]);
  }

  /** SPSCQueue: one remainder per byte. */
  method CopyOutModulo(buffer: array<byte>, t: nat, out: array<byte>, to: nat, n: nat)
    requires t < buffer.Length && n < buffer.Length && to + n <= out.Length && out != buffer
    requires 2 * buffer.Length <= WORD
    modifies out
    ensures out[..] == Overwrite(old(out[..]), to, Gather(buffer[..], t, n))
  {
    for i := 0 to n
      invariant forall k: nat :: k < out.Length ==>
                  out[k] == if to <= k < to + i then Gather(buffer[..], t, n)[k - to] else old(out[k])
    {
      CopyCellsExact(buffer.Length, t, n, i);
      out[to + i] := buffer[ModuloCell(buffer.Length, t, i)];
    }
    ghost var want := Overwrite(old(out[..]), to, Gather(buffer[..], t, n));
    assert forall k: nat :: k < out.Length ==> out[k] == want[k];
  }

  // ----- what the copies mean for the stream -----

  lemma DistanceOfPosition(cap: nat, H: nat, i: nat)
    requires i < cap
    ensures Distance(cap, Cell(cap, H), Cell(cap, H + i)) == i
  {
    CellAdvance(cap, H, i);
  }

  lemma BlitKeepsStored(cap: nat, buf: seq<byte>, pushed: seq<byte>, T: nat, chunk: seq<byte>)
    requires |buf| == cap > 0 && T <= |pushed| && |pushed| + |chunk| < T + cap
    requires Stored(cap, buf, pushed, T)
    ensures Stored(cap, Blit(buf, Cell(cap, |pushed|), chunk), pushed, T)
  {
    var H := |pushed|;
    forall j: nat | T <= j < H
      ensures Blit(buf, Cell(cap, H), chunk)[Cell(cap, j)] == pushed[j]
    {
      var i := Distance(cap, Cell(cap, H), Cell(cap, j));
      if i < |chunk| {
        CellAdvance(cap, H, i);
        CellInjective(cap, j, H + i);
      }
    }
  }

  lemma BlitWrites(cap: nat, buf: seq<byte>, H: nat, chunk: seq<byte>)
    requires |buf| == cap > |chunk|
    ensures Written(cap, Blit(buf, Cell(cap, H), chunk), H, chunk, FirstN(|chunk|))
  {
    forall k | k in FirstN(|chunk|)
      ensures k < |chunk| && Blit(buf, Cell(cap, H), chunk)[Cell(cap, H + k)] == chunk[k]
    {
      DistanceOfPosition(cap, H, k);
    }
  }

  /** Copying a chunk behind head and advancing head appends it to the stream. */
  lemma BlitPublishes(r: Ring, pushed: seq<byte>, popped: seq<byte>, chunk: seq<byte>)
    requires RingInv(r, pushed, popped)
    requires |pushed| + |chunk| <= |popped| + r.cap - 1
    ensures r.head < |r.buf| && |chunk| < |r.buf|
    ensures RingInv(Ring(r.cap, Blit(r.buf, r.head, chunk), NextBySubtraction(r.cap, r.head, |chunk|), r.tail),
                    pushed + chunk, popped)
  {
    BlitKeepsStored(r.cap, r.buf, pushed, |popped|, chunk);
    BlitWrites(r.cap, r.buf, |pushed|, chunk);
    IndexFollowsPosition(r.cap, |pushed|, |chunk|);
    AdvanceHead(r.(buf := Blit(r.buf, r.head, chunk)), pushed, popped, chunk, FirstN(|chunk|));
  }

  lemma GatherIsStream(r: Ring, pushed: seq<byte>, popped: seq<byte>, n: nat)
    requires RingInv(r, pushed, popped) && |popped| + n <= |pushed|
    ensures r.tail < |r.buf| && n < |r.buf|
    ensures Gather(r.buf, r.tail, n) == pushed[|popped|..|popped| + n]
  {
    forall i: nat | i < n
      ensures Gather(r.buf, r.tail, n)[i] == pushed[|popped| + i]
    {
      SegmentFollowsPosition(r.cap, |popped|, n, i);
    }
  }

  /** Copying a chunk from tail yields the next bytes of the stream, and advancing tail releases them. */
  lemma GatherTakes(r: Ring, pushed: seq<byte>, popped: seq<byte>, n: nat)
    requires RingInv(r, pushed, popped) && |popped| + n <= |pushed|
    ensures r.tail < |r.buf| && n < |r.buf|
    ensures Gather(r.buf, r.tail, n) == pushed[|popped|..|popped| + n]
    ensures RingInv(r.(tail := NextBySubtraction(r.cap, r.tail, n)), pushed, pushed[..|popped| + n])
  {
    var T := |popped|;
    GatherIsStream(r, pushed, popped, n);
    IndexFollowsPosition(r.cap, T, n);
    AdvanceTail(r, pushed, popped, pushed[T..T + n]);
    assert popped + pushed[T..T + n] == pushed[..T + n];
  }

  // ----- push and pop -----

  lemma AppendSlice(a: seq<byte>, data: seq<byte>, d: nat, n: nat)
    requires d + n <= |data|
    ensures (a + data[..d]) + data[d..d + n] == a + data[..d + n]
  {
    assert data[..d + n] == data[..d] + data[d..d + n];
  }

  /** Bytes already published are the first bytes of the whole stream. */
  lemma PublishedIsStream(pushed: seq<byte>, incoming: seq<byte>, T: nat, n: nat)
    requires T + n <= |pushed|
    ensures pushed[..T + n] == (pushed + incoming)[..T + n]
    ensures pushed[T..T + n] == (pushed + incoming)[T..T + n]
  {
  }

  /** The first `done` bytes of a buffer are the stream behind T. */
  ghost predicate FilledTo(out: seq<byte>, stream: seq<byte>, T: nat, done: nat) {
    done <= |out| && T + done <= |stream| && out[..done] == stream[T..T + done]
  }

  lemma FilledFurther(before: seq<byte>, after: seq<byte>, stream: seq<byte>, T: nat, done: nat, n: nat)
    requires done + n <= |before| && T + done + n <= |stream| && FilledTo(before, stream, T, done)
    requires after == Overwrite(before, done, stream[T + done..T + done + n])
    ensures FilledTo(after, stream, T, done + n)
  {
    assert after[..done + n] == stream[T..T + done] + stream[T + done..T + done + n];
  }

  lemma FilledWhole(before: seq<byte>, after: seq<byte>, out: seq<byte>, stream: seq<byte>, T: nat)
    requires FilledTo(out, stream, T, |out|) && before == stream[..T] && after == stream[..T + |out|]
    ensures out == stream[T..T + |out|] && after == before + out
  {
  }

  datatype InitResult = Ready | CapacityTooBig | InsufficientCapacity

  /** The checks of initRing; the largest index is the largest word. */
  function CheckCapacity(capacity: nat): InitResult {
    if capacity > WORD - 1 then CapacityTooBig
    else if capacity < 2 then InsufficientCapacity
    else Ready
  }

  /** A ring is set up exactly for capacities of at least 2 that an index word can hold. */
  lemma CapacityIff(capacity: nat)
    ensures CheckCapacity(capacity) == Ready <==> 2 <= capacity < 0x1_0000_0000_0000_0000
    ensures CheckCapacity(capacity) == InsufficientCapacity <==> capacity < 2
    ensures CheckCapacity(capacity) == CapacityTooBig <==> capacity >= 0x1_0000_0000_0000_0000
  {
  }

  /**
   One ring with its two private snapshots. While this side waits, the other side moves: the
   `waits`-th wait lets it take, or publish from `incoming`, as many bytes as `peer` says.
   */
  class ByteRing {
    const capacity: nat
    const buffer: array<byte>
    var head: nat
    var tail: nat
    var cachedHead: nat
    var cachedTail: nat
    var incoming: seq<byte>       // what the producer side has still to push
    var waits: nat
    const peer: nat -> nat
    ghost var pushed: seq<byte>
    ghost var popped: seq<byte>
    ghost var headSnapshot: nat   // stream position of cachedHead
    ghost var tailSnapshot: nat   // stream position of cachedTail

    ghost predicate Valid()
      reads this, buffer
    {
      && buffer.Length == capacity
      && RingInv(Ring(capacity, buffer[..], head, tail), pushed, popped)
      && tailSnapshot <= |popped| && |pushed| <= tailSnapshot + capacity - 1
      && cachedTail == Cell(capacity, tailSnapshot)
      && |popped| <= headSnapshot <= |pushed| && cachedHead == Cell(capacity, headSnapshot)
    }

    constructor (capacity: nat, incoming: seq<byte>, peer: nat -> nat)
      requires CheckCapacity(capacity) == Ready && 2 * capacity <= WORD
      ensures Valid() && fresh(buffer)
      ensures pushed == popped == [] && this.incoming == incoming && this.capacity == capacity
    {
      this.capacity := capacity;
      this.buffer := new byte[capacity];
      this.head, this.tail, this.cachedHead, this.cachedTail := 0, 0, 0, 0;
      this.incoming, this.waits, this.peer := incoming, 0, peer;
      this.pushed, this.popped, this.headSnapshot, this.tailSnapshot := [], [], 0, 0;
    }

    /** What the other side moves during one wait: at least one byte, at most `limit`. */
    function PeerShare(limit: nat): (k: nat)
      requires limit > 0
      reads this
      ensures 0 < k <= limit
    {
      if peer(waits) == 0 then 1 else if peer(waits) < limit then peer(waits) else limit
    }

    /** A wait for free space, during which the consumer takes some bytes. */
    method WaitDataFree()
      requires Valid() && |popped| < |pushed|
      modifies this`tail, this`waits, this`popped, this`cachedHead, this`headSnapshot
      ensures Valid() && old(popped) < popped <= pushed
    {
      RingSizes(Ring(capacity, buffer[..], head, tail), pushed, popped);
      var k := PeerShare(Size(capacity, head, tail));
      GatherTakes(Ring(capacity, buffer[..], head, tail), pushed, popped, k);
      tail := NextBySubtraction(capacity, tail, k);
      popped := pushed[..|popped| + k];
      cachedHead, headSnapshot := head, |pushed|;
      waits := waits + 1;
    }

    method WaitFreeSpace(dataSize: nat)
      requires Valid() && dataSize < capacity
      modifies this`tail, this`waits, this`popped, this`cachedHead, this`headSnapshot,
               this`cachedTail, this`tailSnapshot
      ensures Valid() && old(popped) <= popped <= pushed
      ensures |pushed| + dataSize <= tailSnapshot + capacity - 1
    {
      SizeAtPositions(capacity, |pushed|, tailSnapshot);
      if FreeSpace(capacity, head, cachedTail) >= dataSize {
        return;
      }
      cachedTail, tailSnapshot := tail, |popped|;
      SizeAtPositions(capacity, |pushed|, tailSnapshot);
      while FreeSpace(capacity, head, cachedTail) < dataSize
        invariant Valid() && old(popped) <= popped <= pushed && tailSnapshot == |popped|
        invariant FreeSpace(capacity, head, cachedTail) == capacity - 1 - (|pushed| - tailSnapshot)
        decreases |pushed| - |popped|
      {
        WaitDataFree();
        cachedTail, tailSnapshot := tail, |popped|;
        SizeAtPositions(capacity, |pushed|, tailSnapshot);
      }
    }

    /** One round of push, once the snapshot shows enough room. */
    method PushChunk(chunk: seq<byte>)
      requires Valid() && |pushed| + |chunk| <= tailSnapshot + capacity - 1
      modifies this`head, this`pushed, buffer
      ensures Valid() && pushed == old(pushed) + chunk
    {
      BlitPublishes(Ring(capacity, buffer[..], head, tail), pushed, popped, chunk);
      CopyInSegments(buffer, head, chunk);
      head := NextBySubtraction(capacity, head, |chunk|);
      pushed := pushed + chunk;
    }

    /** Requests of any size, larger than the ring included, enter the stream whole and in order. */
    method Push(data: seq<byte>)
      requires Valid()
      modifies this, buffer
      ensures Valid() && incoming == old(incoming)
      ensures pushed == old(pushed) + data && old(popped) <= popped
    {
      var done: nat := 0;
      while done < |data|
        invariant Valid() && incoming == old(incoming)
        invariant done <= |data| && pushed == old(pushed) + data[..done] && old(popped) <= popped
      {
        var chunkSize := Chunk(capacity, |data| - done);
        WaitFreeSpace(chunkSize);
        PushChunk(data[done..done + chunkSize]);
        AppendSlice(old(pushed), data, done, chunkSize);
        done := done + chunkSize;
      }
      assert data[..done] == data;
    }

    /** A wait for data, during which the producer publishes some of `incoming`. */
    method WaitDataPresent()
      requires Valid() && incoming != [] && |pushed| - |popped| < capacity - 1
      modifies this`head, this`waits, this`pushed, this`incoming, this`cachedTail, this`tailSnapshot, buffer
      ensures Valid() && old(pushed) < pushed && pushed + incoming == old(pushed + incoming)
    {
      var free := FreeSpace(capacity, head, tail);
      RingSizes(Ring(capacity, buffer[..], head, tail), pushed, popped);
      var k := PeerShare(if free < |incoming| then free else |incoming|);
      cachedTail, tailSnapshot := tail, |popped|;
      AppendSplit(pushed, incoming, k);
      PushChunk(incoming[..k]);
      incoming := incoming[k..];
      waits := waits + 1;
    }

    method WaitElemPresent(dataSize: nat)
      requires Valid() && dataSize < capacity && |popped| + dataSize <= |pushed| + |incoming|
      modifies this`head, this`waits, this`pushed, this`incoming, this`cachedTail, this`tailSnapshot,
               this`cachedHead, this`headSnapshot, buffer
      ensures Valid() && pushed + incoming == old(pushed + incoming)
      ensures |popped| + dataSize <= headSnapshot
    {
      SizeAtPositions(capacity, headSnapshot, |popped|);
      if Size(capacity, cachedHead, tail) >= dataSize {
        return;
      }
      cachedHead, headSnapshot := head, |pushed|;
      SizeAtPositions(capacity, headSnapshot, |popped|);
      while Size(capacity, cachedHead, tail) < dataSize
        invariant Valid() && pushed + incoming == old(pushed + incoming) && headSnapshot == |pushed|
        invariant Size(capacity, cachedHead, tail) == headSnapshot - |popped|
        decreases |incoming|
      {
        assert |pushed + incoming| == |pushed| + |incoming|;
        WaitDataPresent();
        assert |pushed + incoming| == |pushed| + |incoming|;
        cachedHead, headSnapshot := head, |pushed|;
        SizeAtPositions(capacity, headSnapshot, |popped|);
      }
    }

    /** One round of pop, once the snapshot shows enough bytes. */
    method PopChunk(out: array<byte>, to: nat, n: nat)
      requires Valid() && out != buffer && to + n <= out.Length
      requires n < capacity && |popped| + n <= headSnapshot
      modifies this`tail, this`popped, out
      ensures Valid() && |old(popped)| + n <= |pushed|
      ensures out[..] == Overwrite(old(out[..]), to, pushed[|old(popped)|..|old(popped)| + n])
      ensures popped == pushed[..|old(popped)| + n]
    {
      GatherTakes(Ring(capacity, buffer[..], head, tail), pushed, popped, n);
      CopyOutSegments(buffer, tail, out, to, n);
      tail := NextBySubtraction(capacity, tail, n);
      popped := pushed[..|popped| + n];
    }

    /** One round of pop: the next n bytes of the stream, whoever has still to push them. */
    method PopBytes(out: array<byte>, to: nat, n: nat)
      requires Valid() && out != buffer && to + n <= out.Length
      requires n < capacity && |popped| + n <= |pushed| + |incoming|
      modifies this, buffer, out
      ensures Valid() && pushed + incoming == old(pushed + incoming)
      ensures |popped| == |old(popped)| + n <= |old(pushed + incoming)|
      ensures popped == old(pushed + incoming)[..|popped|]
      ensures out[..] == Overwrite(old(out[..]), to, old(pushed + incoming)[|old(popped)|..|popped|])
    {
      WaitElemPresent(n);
      PublishedIsStream(pushed, incoming, |popped|, n);
      PopChunk(out, to, n);
    }

    /** The same as one round of a longer pop that began at position T and has `done` bytes so far. */
    method PopRound(out: array<byte>, done: nat, ghost stream: seq<byte>, ghost T: nat) returns (next: nat)
      requires Valid() && out != buffer && done < out.Length
      requires pushed + incoming == stream && |popped| == T + done && T + out.Length <= |stream|
      requires FilledTo(out[..], stream, T, done)
      modifies this, buffer, out
      ensures Valid() && pushed + incoming == stream && done < next <= out.Length
      ensures FilledTo(out[..], stream, T, next) && popped == stream[..T + next]
    {
      assert |pushed + incoming| == |pushed| + |incoming|;
      ghost var before := out[..];
      var n := Chunk(capacity, out.Length - done);
      PopBytes(out, done, n);
      FilledFurther(before, out[..], stream, T, done, n);
      next := done + n;
    }

    /** Fills the caller's buffer with the next bytes of the stream, whatever the request's size. */
    method Pop(out: array<byte>)
      requires Valid() && out != buffer && |popped| + out.Length <= |pushed| + |incoming|
      modifies this, buffer, out
      ensures Valid() && pushed + incoming == old(pushed + incoming)
      ensures out[..] == old(pushed + incoming)[|old(popped)|..|old(popped)| + out.Length]
      ensures popped == old(popped) + out[..]
    {
      ghost var stream, T := pushed + incoming, |popped|;
      assert |stream| == |pushed| + |incoming| && popped == stream[..T];
      var done: nat := 0;
      while done < out.Length
        invariant Valid() && pushed + incoming == stream && T + out.Length <= |stream|
        invariant FilledTo(out[..], stream, T, done) && popped == stream[..T + done]
      {
        done := PopRound(out, done, stream, T);
      }
      FilledWhole(old(popped), popped, out[..], stream, T);
    }
  }
}
