/** TextSender and TextReceiver over the SPSC queue: whole lists of texts, end to end. */
module SpscText {
  import opened Bytes
  import opened CircularBuffer
  import opened Framing
  import opened SpscQueue
  import opened SpscWork
  import opened SpscProgress

  /** receiveText, `count` times: eight bytes, then as many bytes as they say. */
  function ReceiverPolicy(count: nat): seq<Reply> -> Option<Request> {
    (replies: seq<Reply>) =>
      if |replies| >= 2 * count then None
      else if |replies| % 2 == 0 then Some(Pop(8))
      else match replies[|replies| - 1]
        case Got(bytes) => Some(Pop(FromLittleEndian(bytes)))
        case TimedOut => None
  }

  function TextEnv(cap: nat, texts: seq<seq<byte>>): Env {
    Env(cap, Pieces(texts), ReceiverPolicy(|texts|))
  }

  ghost predicate Sendable(texts: seq<seq<byte>>) {
    forall j: nat :: j < |texts| ==> |texts[j]| < WORD
  }

  lemma PolicyAsksForPiece(texts: seq<seq<byte>>, k: nat)
    requires Sendable(texts) && k < 2 * |texts|
    ensures ReceiverPolicy(|texts|)(GotAll(Pieces(texts)[..k])) == Some(Pop(|Pieces(texts)[k]|))
  {
    var j := k / 2;
    PieceAt(texts, j);
    if k % 2 == 0 {
      assert k == 2 * j;
    } else {
      assert k == 2 * j + 1;
      LengthRoundTrip(|texts[j]|);
      var replies := GotAll(Pieces(texts)[..k]);
      assert |replies| == k && replies[k - 1] == Got(LittleEndian(|texts[j]|, 8));
    }
  }

  /** The receiver, deciding by what it has received, asks for what the sender sends. */
  lemma TextEnvIsMatched(cap: nat, texts: seq<seq<byte>>)
    requires Sendable(texts)
    ensures Matched(TextEnv(cap, texts))
  {
    forall k: nat | k < 2 * |texts|
      ensures ReceiverPolicy(|texts|)(GotAll(Pieces(texts)[..k])) == Some(Pop(|Pieces(texts)[k]|))
    {
      PolicyAsksForPiece(texts, k);
    }
  }

  /** The text of a reply to the second pop of a receiveText. */
  function TextOf(reply: Reply): seq<byte> {
    if reply.Got? then reply.bytes else []
  }

  /** The texts among the replies: every second one. */
  function TextsOf(replies: seq<Reply>): (texts: seq<seq<byte>>)
    ensures |texts| == |replies| / 2
    ensures forall j: nat {:trigger texts[j]} :: j < |texts| ==> texts[j] == TextOf(replies[2 * j + 1])
  {
    seq(|replies| / 2, j => if 0 <= j && 2 * j + 1 < |replies| then TextOf(replies[2 * j + 1]) else [])
  }

  /** Every second piece is a text. */
  ghost predicate SecondsAre(pieces: seq<seq<byte>>, texts: seq<seq<byte>>) {
    && |pieces| <= 2 * |texts|
    && forall j: nat {:trigger texts[j]} :: 2 * j + 1 < |pieces| ==> pieces[2 * j + 1] == texts[j]
  }

  lemma PiecesSeconds(texts: seq<seq<byte>>, k: nat)
    requires k <= 2 * |texts|
    ensures SecondsAre(Pieces(texts)[..k], texts)
  {
    forall j: nat | 2 * j + 1 < k
      ensures Pieces(texts)[..k][2 * j + 1] == texts[j]
    {
      PieceAt(texts, j);
    }
  }

  lemma TextsOfSeconds(pieces: seq<seq<byte>>, texts: seq<seq<byte>>)
    requires SecondsAre(pieces, texts)
    ensures TextsOf(GotAll(pieces)) == texts[..|pieces| / 2]
  {
    var got := TextsOf(GotAll(pieces));
    forall j: nat | j < |got|
      ensures got[j] == texts[j]
    {
      assert GotAll(pieces)[2 * j + 1] == Got(pieces[2 * j + 1]);
    }
  }

  lemma TextsOfPieces(texts: seq<seq<byte>>, k: nat)
    requires k <= 2 * |texts|
    ensures TextsOf(GotAll(Pieces(texts)[..k])) == texts[..k / 2]
  {
    PiecesSeconds(texts, k);
    TextsOfSeconds(Pieces(texts)[..k], texts);
  }

  lemma AllTexts(texts: seq<seq<byte>>)
    ensures TextsOf(GotAll(Pieces(texts))) == texts
  {
    TextsOfPieces(texts, 2 * |texts|);
    assert Pieces(texts)[..2 * |texts|] == Pieces(texts);
    assert texts[..|texts|] == texts;
  }

  /**
   End to end: for every capacity of at least 2 and every list of texts, empty ones and ones
   longer than the ring included, no schedule leaves both sides blocked, every schedule does a
   bounded amount of work apart from spurious wakeups, and where it ends the receiver has exactly
   the texts that were sent, in order.
   */
  lemma TextsArrive(cap: nat, texts: seq<seq<byte>>, run: seq<State>, acts: seq<Action>)
    requires Sendable(texts) && IsRun(TextEnv(cap, texts), run, acts)
    ensures var env := TextEnv(cap, texts); var last, work := run[|acts|], WorkSteps(acts, |acts|);
            && work <= 200 * |Concat(Pieces(texts))| + 80 * |texts| + 7 * (|acts| - work)
            && InRange(last)
            && (Stuck(env, last) ==>
                  ProducerDone(env, last) && ConsumerDone(env, last) && TextsOf(last.c.replies) == texts)
  {
    var env, last := TextEnv(cap, texts), run[|acts|];
    TextEnvIsMatched(cap, texts);
    MatchedQueueDelivers(env, run, acts);
    AllTexts(texts);
  }

  /** At any moment of any schedule, the texts received so far are the first ones sent. */
  lemma ReceivedTextsAreAPrefix(cap: nat, texts: seq<seq<byte>>, run: seq<State>, acts: seq<Action>, i: nat)
    requires Sendable(texts) && IsRun(TextEnv(cap, texts), run, acts) && i < |run|
    ensures TextsOf(run[i].c.replies) <= texts
  {
    TextEnvIsMatched(cap, texts);
    RunStaysMatched(TextEnv(cap, texts), run, acts, i);
    TextsOfPieces(texts, |run[i].c.replies|);
  }
}
