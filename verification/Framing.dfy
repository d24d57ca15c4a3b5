/**
 TextSender and TextReceiver: an 8-byte little-endian length, then the text, over a transport
 whose calls may each move fewer bytes than asked for.
 */
module Framing {
  import opened Bytes
  import opened CircularBuffer

  datatype Received = Text(text: seq<byte>) | TooLong

  /** The byte strings sendText hands to its sender, for a list of texts. */
  function Pieces(texts: seq<seq<byte>>): (ps: seq<seq<byte>>)
    ensures |ps| == 2 * |texts|
  {
    if texts == [] then [] else [LittleEndian(|texts[0]|, 8), texts[0]] + Pieces(texts[1..])
  }

  function Frame(text: seq<byte>): seq<byte> {
    LittleEndian(|text|, 8) + text
  }

  lemma {:induction false} PieceAt(texts: seq<seq<byte>>, j: nat)
    requires j < |texts|
    ensures Pieces(texts)[2 * j] == LittleEndian(|texts[j]|, 8)
    ensures Pieces(texts)[2 * j + 1] == texts[j]
  {
    if j > 0 {
      PieceAt(texts[1..], j - 1);
    }
  }

  /** What receiveText makes of the bytes it finds; None: it would wait for more. */
  function ReadFrame(wire: seq<byte>, maxTextSize: nat): Option<(Received, seq<byte>)> {
    if |wire| < 8 then None
    else
      var n := FromLittleEndian(wire[..8]);
      if n > maxTextSize then Some((TooLong, wire[8..]))
      else if |wire| < 8 + n then None
      else Some((Text(wire[8..8 + n]), wire[8 + n..]))
  }

  lemma LengthRoundTrip(n: nat)
    requires n < WORD
    ensures FromLittleEndian(LittleEndian(n, 8)) == n
  {
    Pow256Values();
    DecodeEncode(n, 8);
  }

  lemma ReadFrameOf(header: seq<byte>, text: seq<byte>, rest: seq<byte>, maxTextSize: nat)
    requires |header| == 8 && FromLittleEndian(header) == |text|
    ensures ReadFrame(header + text + rest, maxTextSize) ==
            if |text| <= maxTextSize then Some((Text(text), rest)) else Some((TooLong, text + rest))
  {
    var wire := header + text + rest;
    assert wire[..8] == header;
    assert wire[8..] == text + rest;
    assert wire[8..8 + |text|] == text;
    assert wire[8 + |text|..] == rest;
  }

  /** Receiving undoes sending, and stops exactly at the end of the frame. */
  lemma ReadFrameUndoesFrame(text: seq<byte>, rest: seq<byte>, maxTextSize: nat)
    requires |text| < WORD
    ensures ReadFrame(Frame(text) + rest, maxTextSize) ==
            if |text| <= maxTextSize then Some((Text(text), rest)) else Some((TooLong, text + rest))
  {
    LengthRoundTrip(|text|);
    ReadFrameOf(LittleEndian(|text|, 8), text, rest, maxTextSize);
  }

  function ReadFrames(wire: seq<byte>, count: nat): Option<seq<seq<byte>>> {
    if count == 0 then Some([])
    else match ReadFrame(wire, WORD)
      case Some((Text(text), rest)) =>
        (match ReadFrames(rest, count - 1)
         case Some(texts) => Some([text] + texts)
         case None => None)
      case _ => None
  }

  /** A whole list of texts, empty ones included, comes back from its wire form. */
  lemma {:induction false} FramesRoundTrip(texts: seq<seq<byte>>)
    requires forall j: nat :: j < |texts| ==> |texts[j]| < WORD
    ensures ReadFrames(Concat(Pieces(texts)), |texts|) == Some(texts)
  {
    if texts != [] {
      var head, tail := [LittleEndian(|texts[0]|, 8), texts[0]], texts[1..];
      ConcatAppend(head, Pieces(tail));
      assert Concat(head) == Frame(texts[0]) by {
        assert head[1..] == [texts[0]];
        assert Concat([texts[0]]) == texts[0];
      }
      ReadFrameUndoesFrame(texts[0], Concat(Pieces(tail)), WORD);
      FramesRoundTrip(tail);
      assert texts == [texts[0]] + tail;
    }
  }

  // ----- the loops -----

  /**
   A transport that moves between one and all of the bytes asked for, as `limit` decides per call. A
   receive that waits for bytes still on their way gets them when they arrive, so `bytes` is all that
   the peer sends, arrived or not, and `limit` also says how much of it has arrived.
   */
  class Channel {
    var bytes: seq<byte>      // not yet received: already sent, or still to be sent
    var calls: nat
    const limit: nat -> nat

    constructor (limit: nat -> nat)
      ensures bytes == [] && this.limit == limit
    {
      this.bytes := [];
      this.calls := 0;
      this.limit := limit;
    }

    function Quota(size: nat): (n: nat)
      reads this
      ensures n <= size && (size > 0 ==> n > 0)
    {
      if size == 0 then 0 else if limit(calls) == 0 then 1 else if limit(calls) < size then limit(calls) else size
    }

    method Send(data: seq<byte>) returns (n: nat)
      modifies this
      ensures n <= |data| && (data != [] ==> n > 0)
      ensures bytes == old(bytes) + data[..n]
    {
      n := Quota(|data|);
      bytes := bytes + data[..n];
      calls := calls + 1;
    }

    /** Fills buffer[offset..] with up to `size` bytes; when the peer never sends another byte it waits forever. */
    method Receive(buffer: array<byte>, offset: nat, size: nat) returns (n: nat)
      requires offset + size <= buffer.Length
      requires size > 0 ==> bytes != []
      modifies this, buffer
      ensures n <= size && n <= |old(bytes)| && (size > 0 ==> n > 0)
      ensures bytes == old(bytes)[n..]
      ensures buffer[..] == old(buffer[..offset]) + old(bytes)[..n] + old(buffer[offset + n..])
    {
      n := Quota(if size <= |bytes| then size else |bytes|);
      var before := bytes;
      for i := 0 to n
        invariant bytes == before
        invariant forall k :: 0 <= k < buffer.Length ==>
                    buffer[k] == if offset <= k < offset + i then before[k - offset] else old(buffer[k])
      {
        buffer[offset + i] := before[i];
      }
      bytes := bytes[n..];
      calls := calls + 1;
    }
  }

  /** The do-while loop that sends a whole block. */
  method SendBlock(channel: Channel, block: seq<byte>) returns (sentBytes: nat)
    modifies channel
    ensures sentBytes == |block|
    ensures channel.bytes == old(channel.bytes) + block
  {
    sentBytes := 0;
    var again := true;
    while again
      invariant sentBytes <= |block|
      invariant !again ==> sentBytes == |block|
      invariant channel.bytes == old(channel.bytes) + block[..sentBytes]
      decreases |block| - sentBytes, again
    {
      var n := channel.Send(block[sentBytes..]);
      assert block[..sentBytes + n] == block[..sentBytes] + block[sentBytes..][..n];
      sentBytes := sentBytes + n;
      again := sentBytes < |block|;
    }
    assert block[..|block|] == block;
  }

  /** The do-while loop that fills a whole buffer. */
  method ReceiveBlock(channel: Channel, buffer: array<byte>)
    requires |channel.bytes| >= buffer.Length
    modifies channel, buffer
    ensures buffer[..] == old(channel.bytes)[..buffer.Length]
    ensures channel.bytes == old(channel.bytes)[buffer.Length..]
  {
    var receivedBytes: nat := 0;
    var again := true;
    while again
      invariant receivedBytes <= buffer.Length
      invariant !again ==> receivedBytes == buffer.Length
      invariant channel.bytes == old(channel.bytes)[receivedBytes..]
      invariant buffer[..receivedBytes] == old(channel.bytes)[..receivedBytes]
      decreases buffer.Length - receivedBytes, again
    {
      var n := channel.Receive(buffer, receivedBytes, buffer.Length - receivedBytes);
      receivedBytes := receivedBytes + n;
      again := receivedBytes < buffer.Length;
    }
    assert buffer[..] == buffer[..receivedBytes];
  }

  method SendText(channel: Channel, s: seq<byte>) returns (sentBytes: nat)
    requires |s| < WORD
    modifies channel
    ensures sentBytes == |s|
    ensures channel.bytes == old(channel.bytes) + Frame(s)
  {
    sentBytes := SendBlock(channel, LittleEndian(|s|, 8));
    AppendAssociative(channel.bytes[..|channel.bytes| - 8], LittleEndian(|s|, 8), s);
    sentBytes := SendBlock(channel, s);
  }

  /** Takes exactly one frame off the transport, or only its length when the text is too long. */
  method ReceiveText(channel: Channel, maxTextSize: nat) returns (r: Received)
    requires ReadFrame(channel.bytes, maxTextSize).Some?
    modifies channel
    ensures ReadFrame(old(channel.bytes), maxTextSize) == Some((r, channel.bytes))
  {
    ghost var wire := channel.bytes;
    var header := new byte[8];
    ReceiveBlock(channel, header);
    assert header[..] == wire[..8];
    var incomingSize := FromLittleEndian(header[..]);
    if incomingSize > maxTextSize {
      return TooLong;
    }
    var text := new byte[incomingSize];
    ReceiveBlock(channel, text);
    r := Text(text[..]);
    assert wire[8..][..incomingSize] == wire[8..8 + incomingSize];
    assert wire[8..][incomingSize..] == wire[8 + incomingSize..];
  }
}
