/**
 Index arithmetic of the byte rings: the size and free-space formulas, the chunk size, and the
 two ways the code advances an index (one conditional subtraction, or a modulo).
 Physical indices are tied to unbounded stream positions by `Cell`.
 */
module CircularBuffer {

  /** size_t and (by default) ipc_size_t hold 64 bits: sums wrap around here. */
  const WORD: nat := 0x1_0000_0000_0000_0000

  function Size(cap: nat, h: nat, t: nat): (r: nat)
    requires h < cap && t < cap
    ensures r < cap
  {
    if h >= t then h - t else cap - (t - h)
  }

  function FreeSpace(cap: nat, h: nat, t: nat): (r: nat)
    requires h < cap && t < cap
    ensures r < cap
  {
    cap - Size(cap, h, t) - 1
  }

  /** How much of a request of n bytes one round of push or pop moves. */
  function Chunk(cap: nat, n: nat): (c: nat)
    requires cap >= 2
    ensures c <= n && c < cap
    ensures n > 0 ==> c > 0
    ensures c < n ==> c == cap - 1
  {
    if n < cap - 1 then n else cap - 1
  }

  /** The cell of stream position p: p modulo cap, defined by repeated subtraction. */
  function Cell(cap: nat, p: nat): (c: nat)
    requires cap > 0
    ensures c < cap
    decreases p
  {
    if p < cap then p else Cell(cap, p - cap)
  }

  lemma {:induction false} CellAdvance(cap: nat, p: nat, n: nat)
    requires n < cap
    ensures Cell(cap, p + n) ==
            (var c := Cell(cap, p) + n; if c >= cap then c - cap else c)
    decreases p
  {
    if p < cap {
      assert p + n >= cap ==> Cell(cap, p + n) == Cell(cap, p + n - cap);
    } else {
      CellAdvance(cap, p - cap, n);
    }
  }

  /** Two positions less than cap apart never share a cell. */
  lemma CellInjective(cap: nat, a: nat, b: nat)
    requires a < b < a + cap
    ensures Cell(cap, a) != Cell(cap, b)
  {
    CellAdvance(cap, a, b - a);
  }

  /** On indices that stand for positions T <= H < T + cap, Size is exactly H - T. */
  lemma SizeAtPositions(cap: nat, H: nat, T: nat)
    requires T <= H < T + cap
    ensures Size(cap, Cell(cap, H), Cell(cap, T)) == H - T
    ensures FreeSpace(cap, Cell(cap, H), Cell(cap, T)) == cap - 1 - (H - T)
  {
    CellAdvance(cap, T, H - T);
  }

  lemma {:induction false} ProductsApart(a: nat, b: nat, d: nat)
    ensures a < b ==> a * d + d <= b * d
  {
    if a < b {
      assert b * d == (b - 1) * d + d;
      ProductsApart(a, b - 1, d);
    }
  }

  lemma RemainderUnique(p: nat, q: nat, d: nat, r: nat)
    requires r < d && p == q * d + r
    ensures p % d == r
  {
    var q', r' := p / d, p % d;
    assert p == q' * d + r';
    ProductsApart(q, q', d);
    ProductsApart(q', q, d);
  }

  lemma {:induction false} CellIsRemainder(cap: nat, p: nat)
    requires cap > 0
    ensures Cell(cap, p) == p % cap
    decreases p
  {
    if p < cap {
      RemainderUnique(p, 0, cap, p);
    } else {
      CellIsRemainder(cap, p - cap);
      var q := (p - cap) / cap;
      assert p == (q + 1) * cap + (p - cap) % cap;
      RemainderUnique(p, q + 1, cap, (p - cap) % cap);
    }
  }

  /** Unsigned addition of two words. */
  function WrapAdd(a: nat, b: nat): (r: nat)
    ensures r < WORD
  {
    (a + b) % WORD
  }

  /** ByteRing: add, then subtract the capacity once if the sum reached it. */
  function NextBySubtraction(cap: nat, h: nat, n: nat): nat {
    var x := WrapAdd(h, n);
    if x >= cap then x - cap else x
  }

  /** SPSCQueue: add, then take the remainder. */
  function NextByModulo(cap: nat, h: nat, n: nat): nat
    requires cap > 0
  {
    WrapAdd(h, n) % cap
  }

  /** ByteRing: byte i of a chunk of n bytes copied in at most two straight segments from h. */
  function SegmentCell(cap: nat, h: nat, n: nat, i: nat): (c: nat)
    requires h < cap && i < n < cap
    ensures c < cap
  {
    var avail := cap - h;
    var first := if n < avail then n else avail;
    if i < first then h + i else i - first
  }

  /** SPSCQueue: byte i of a chunk, one remainder per byte. */
  function ModuloCell(cap: nat, h: nat, i: nat): nat
    requires cap > 0
  {
    WrapAdd(h, i) % cap
  }

  /**
   The two index updates always agree with each other, and they are right exactly when the
   addition does not wrap around the word.
   */
  lemma IndexUpdateExact(cap: nat, h: nat, n: nat)
    requires h < cap < WORD && n < cap
    ensures NextBySubtraction(cap, h, n) == NextByModulo(cap, h, n)
    ensures NextBySubtraction(cap, h, n) == (h + n) % cap <==> h + n < WORD
  {
    var x := WrapAdd(h, n);
    if h + n < WORD {
      assert x == h + n;
      if x >= cap {
        RemainderUnique(x, 1, cap, x - cap);
      } else {
        RemainderUnique(x, 0, cap, x);
      }
    } else {
      assert x == h + n - WORD;
      RemainderUnique(x, 0, cap, x);
      RemainderUnique(h + n, 1, cap, h + n - cap);
    }
  }

  /**
   Two straight segments touch the cells (h + i) % cap in order, for every capacity; the
   byte-by-byte modulo loop touches the same cells exactly when no sum wraps around the word.
   */
  lemma CopyCellsExact(cap: nat, h: nat, n: nat, i: nat)
    requires h < cap < WORD && i < n < cap
    ensures SegmentCell(cap, h, n, i) == (h + i) % cap
    ensures ModuloCell(cap, h, i) == SegmentCell(cap, h, n, i) <==> h + i < WORD
  {
    if h + i >= cap {
      RemainderUnique(h + i, 1, cap, h + i - cap);
    } else {
      RemainderUnique(h + i, 0, cap, h + i);
    }
    IndexUpdateExact(cap, h, i);
  }

  /** A capacity for which the modulo loop and both index updates go wrong. */
  lemma HugeCapacityGoesWrong()
    ensures var cap := WORD - 1; var h := cap - 1;
            && NextBySubtraction(cap, h, 2) == 0 != (h + 2) % cap
            && ModuloCell(cap, h, 2) != SegmentCell(cap, h, 3, 2)
  {
    var cap := WORD - 1;
    IndexUpdateExact(cap, cap - 1, 2);
    CopyCellsExact(cap, cap - 1, 3, 2);
  }

  /** While twice the capacity fits the word, all four forms follow the stream position. */
  lemma IndexFollowsPosition(cap: nat, p: nat, n: nat)
    requires 0 < 2 * cap <= WORD && n < cap
    ensures NextBySubtraction(cap, Cell(cap, p), n) == Cell(cap, p + n)
    ensures NextByModulo(cap, Cell(cap, p), n) == Cell(cap, p + n)
    ensures ModuloCell(cap, Cell(cap, p), n) == Cell(cap, p + n)
  {
    IndexUpdateExact(cap, Cell(cap, p), n);
    CellAdvance(cap, p, n);
  }

  lemma SegmentFollowsPosition(cap: nat, p: nat, n: nat, i: nat)
    requires i < n < cap
    ensures SegmentCell(cap, Cell(cap, p), n, i) == Cell(cap, p + i)
  {
    CellAdvance(cap, p, i);
  }
}
