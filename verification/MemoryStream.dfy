/**
 The memory stream: a fixed buffer, a position, and the stream's good/failed state. A write or
 read that does not fit moves what fits, fails the stream, and later operations do nothing.
 */
module MemoryStream {
  import opened Bytes
  import opened CircularBuffer

  /** The value of a stream. */
  datatype View = View(buf: seq<byte>, pos: nat, ok: bool) {
    ghost predicate Valid() {
      pos <= |buf|
    }
  }

  function Min(a: nat, b: nat): nat {
    if a < b then a else b
  }

  function Put(st: View, bytes: seq<byte>): (st': View)
    requires st.Valid()
    ensures st'.Valid() && |st'.buf| == |st.buf|
  {
    if !st.ok then st
    else
      var n := Min(|bytes|, |st.buf| - st.pos);
      View(st.buf[..st.pos] + bytes[..n] + st.buf[st.pos + n..], st.pos + n, n == |bytes|)
  }

  /** What a read leaves in a destination that held `target`, and the stream after it. */
  function Take(st: View, target: seq<byte>): (r: (seq<byte>, View))
    requires st.Valid()
    ensures r.1.Valid() && |r.0| == |target| && r.1.buf == st.buf
  {
    if !st.ok then (target, st)
    else
      var n := Min(|target|, |st.buf| - st.pos);
      (st.buf[st.pos..st.pos + n] + target[n..], View(st.buf, st.pos + n, n == |target|))
  }

  /** Two writes in a row are one write, even when the first one, or the second, does not fit. */
  lemma PutPut(st: View, a: seq<byte>, b: seq<byte>)
    requires st.Valid()
    ensures Put(Put(st, a), b) == Put(st, a + b)
  {
    if st.ok {
      var st1, st2, room := Put(st, a), Put(Put(st, a), b), |st.buf| - st.pos;
      var n := Min(|a + b|, room);
      if |a| <= room {
        assert (a + b)[..n] == a + b[..n - |a|];
        assert st2.buf == Put(st, a + b).buf;
      } else {
        assert (a + b)[..n] == a[..n];
      }
    }
  }

  /** What is left of two destinations behind their first n bytes. */
  lemma LeftOfBoth(a: seq<byte>, b: seq<byte>, n: nat)
    requires n <= |a| + |b|
    ensures (a + b)[n..] == if n <= |a| then a[n..] + b else b[n - |a|..]
  {
  }

  /** The first read fits: the second one goes on where it ends. */
  lemma TakeBehindFit(st: View, a: seq<byte>, b: seq<byte>)
    requires st.Valid() && st.ok && |a| <= |st.buf| - st.pos
    ensures var (x, st1) := Take(st, a); var (y, st2) := Take(st1, b);
            Take(st, a + b) == (x + y, st2)
  {
    var n := Min(|a + b|, |st.buf| - st.pos);
    var x, mid, left := st.buf[st.pos..st.pos + |a|], st.buf[st.pos + |a|..st.pos + n], b[n - |a|..];
    assert a[|a|..] == [] && Take(st, a).0 == x;
    assert st.buf[st.pos..st.pos + n] == x + mid;
    LeftOfBoth(a, b, n);
    AppendAssociative(x, mid, left);
  }

  /** The first read is cut off: the second one does nothing. */
  lemma TakeBehindCut(st: View, a: seq<byte>, b: seq<byte>)
    requires st.Valid() && st.ok && |a| > |st.buf| - st.pos
    ensures var (x, st1) := Take(st, a); var (y, st2) := Take(st1, b);
            Take(st, a + b) == (x + y, st2)
  {
    var n := |st.buf| - st.pos;
    LeftOfBoth(a, b, n);
    AppendAssociative(st.buf[st.pos..st.pos + n], a[n..], b);
  }

  lemma TakeTake(st: View, a: seq<byte>, b: seq<byte>)
    requires st.Valid()
    ensures var (x, st1) := Take(st, a); var (y, st2) := Take(st1, b);
            Take(st, a + b) == (x + y, st2)
  {
    if st.ok {
      if |a| <= |st.buf| - st.pos {
        TakeBehindFit(st, a, b);
      } else {
        TakeBehindCut(st, a, b);
      }
    }
  }

  class MemoryStreamBuf {
    const buffer: array<byte>
    var pos: nat
    var ok: bool

    ghost predicate Valid()
      reads this
    {
      pos <= buffer.Length
    }

    ghost function Value(): View
      reads this, buffer
    {
      View(buffer[..], pos, ok)
    }

    constructor (buffer: array<byte>)
      ensures Valid() && this.buffer == buffer && Value() == View(buffer[..], 0, true)
    {
      this.buffer := buffer;
      this.pos := 0;
      this.ok := true;
    }

    method Xsputn(bytes: seq<byte>) returns (toWrite: nat)
      requires Valid() && ok
      modifies this`pos, buffer
      ensures Valid() && toWrite == Min(|bytes|, buffer.Length - old(pos))
      ensures Value() == Put(old(Value()), bytes).(ok := true)
    {
      toWrite := Min(|bytes|, buffer.Length - pos);
      for i := 0 to toWrite
        invariant pos == old(pos) + i
        invariant forall k :: 0 <= k < buffer.Length ==>
                    buffer[k] == if old(pos) <= k < pos then bytes[k - old(pos)] else old(buffer[k])
      {
        buffer[pos] := bytes[i];
        pos := pos + 1;
      }
    }

    method Xsgetn(dst: array<byte>) returns (toRead: nat)
      requires Valid() && ok && dst != buffer
      modifies this`pos, dst
      ensures Valid() && toRead == Min(dst.Length, buffer.Length - old(pos))
      ensures dst[..] == Take(old(Value()), old(dst[..])).0
      ensures Value() == Take(old(Value()), old(dst[..])).1.(ok := true)
    {
      toRead := Min(dst.Length, buffer.Length - pos);
      for i := 0 to toRead
        invariant pos == old(pos) + i
        invariant forall k :: 0 <= k < dst.Length ==>
                    dst[k] == if k < i then buffer[old(pos) + k] else old(dst[k])
      {
        dst[i] := buffer[pos];
        pos := pos + 1;
      }
    }

    /** ostream::write: nothing on a failed stream, and failure on a short write. */
    method Write(bytes: seq<byte>)
      requires Valid()
      modifies this`pos, this`ok, buffer
      ensures Valid() && Value() == Put(old(Value()), bytes)
    {
      if ok {
        var n := Xsputn(bytes);
        ok := n == |bytes|;
      }
    }

    /** istream::read into a destination of its own. */
    method Read(dst: array<byte>)
      requires Valid() && dst != buffer
      modifies this`pos, this`ok, dst
      ensures Valid() && (dst[..], Value()) == Take(old(Value()), old(dst[..]))
    {
      if ok {
        var n := Xsgetn(dst);
        ok := n == dst.Length;
      }
    }

    /** tellp and tellg: the position, or -1 as a size_t on a failed stream. */
    method Tell() returns (r: nat)
      ensures r == if ok then pos else WORD - 1
    {
      r := if ok then pos else WORD - 1;
    }
  }
}
