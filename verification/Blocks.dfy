/**
 How an image is cut into numbered blocks: the count announced to the chip, in the 32-bit arithmetic of
 the download commands, and the blocks themselves.
 */
module Blocks {
  import opened Bytes

  const ERASED: byte := 0xFF

  /** How often a block is sent that is not acknowledged. */
  const BLOCK_ATTEMPTS: nat := 5

  /** `(size + blockSize - 1) / blockSize` on 32-bit words. */
  function Count32(size: nat, blockSize: nat): nat
    requires blockSize > 0
  {
    (size + blockSize - 1) % TWO32 / blockSize
  }

  function Count(size: nat, blockSize: nat): nat
    requires blockSize > 0
  {
    (size + blockSize - 1) / blockSize
  }

  /** The announced count is right exactly for sizes that leave room for one block below 2^32. */
  lemma CountIsExact(size: nat, blockSize: nat)
    requires 0 < blockSize <= TWO32 && size < TWO32
    ensures Count32(size, blockSize) == Count(size, blockSize) <==> size + blockSize <= TWO32
  {
    var x := size + blockSize - 1;
    if x >= TWO32 {
      assert x % TWO32 == x - TWO32;
      DivisionDrops(x, TWO32, blockSize);
    }
  }

  lemma DivisionDrops(x: nat, y: nat, d: nat)
    requires 0 < d <= y <= x
    ensures (x - y) / d < x / d
  {
    var q := (x - y) / d;
    assert x - y == d * q + (x - y) % d;
    assert x >= d * (q + 1) by {
      assert d * (q + 1) == d * q + d;
    }
    DivisionAtLeast(x, d, q + 1);
  }

  lemma DivisionAtLeast(x: nat, d: nat, q: nat)
    requires d > 0 && x >= d * q
    ensures x / d >= q
  {
    var e := x / d;
    assert x == d * e + x % d && d * (e + 1) == d * e + d;
    if e < q {
      MultiplyMonotone(d, e + 1, q);
      assert false;
    }
  }

  lemma MultiplyMonotone(d: nat, a: nat, b: nat)
    requires a <= b
    ensures d * a <= d * b
  {
    assert d * b == d * a + d * (b - a);
  }

  function Erased(n: nat): (r: seq<byte>)
    ensures |r| == n && forall i :: 0 <= i < n ==> r[i] == 0xFF
  {
    seq(n, _ => ERASED)
  }

  /** A block filled up to the block size with the value of erased flash. */
  function Fill(block: seq<byte>, blockSize: nat): (r: seq<byte>)
    requires |block| <= blockSize
    ensures |r| == blockSize
  {
    block + Erased(blockSize - |block|)
  }

  /** The block a loop sends after `sent` bytes; the uncompressed loop fills a short one up. */
  function BlockAt(data: seq<byte>, sent: nat, blockSize: nat, fill: bool): seq<byte>
    requires sent <= |data|
  {
    var block := data[sent..sent + Smaller(|data| - sent, blockSize)];
    if fill then Fill(block, blockSize) else block
  }

  /** The blocks a loop has still to send after `sent` bytes. */
  function BlocksFrom(data: seq<byte>, sent: nat, blockSize: nat, fill: bool): seq<seq<byte>>
    requires blockSize > 0 && sent <= |data|
    decreases |data| - sent
  {
    if sent == |data| then []
    else
      [BlockAt(data, sent, blockSize, fill)]
      + BlocksFrom(data, sent + Smaller(|data| - sent, blockSize), blockSize, fill)
  }

  function Split(data: seq<byte>, blockSize: nat, fill: bool): seq<seq<byte>>
    requires blockSize > 0
  {
    BlocksFrom(data, 0, blockSize, fill)
  }

  lemma {:induction false} RawBlocksConcat(data: seq<byte>, sent: nat, blockSize: nat)
    requires blockSize > 0 && sent <= |data|
    ensures Concat(BlocksFrom(data, sent, blockSize, false)) == data[sent..]
    decreases |data| - sent
  {
    if sent < |data| {
      var next := sent + Smaller(|data| - sent, blockSize);
      RawBlocksConcat(data, next, blockSize);
      assert BlocksFrom(data, sent, blockSize, false)[1..] == BlocksFrom(data, next, blockSize, false);
      SliceJoins(data, sent, next);
    }
  }

  lemma SliceJoins(data: seq<byte>, from: nat, to: nat)
    requires from <= to <= |data|
    ensures data[from..to] + data[to..] == data[from..]
  {
  }

  /** How many bytes the last block is short of a whole one. */
  function Lacking(size: nat, blockSize: nat): nat
    requires blockSize > 0
    decreases size
  {
    if size == 0 then 0 else if size <= blockSize then blockSize - size else Lacking(size - blockSize, blockSize)
  }

  lemma {:induction false} FilledBlocksConcat(data: seq<byte>, sent: nat, blockSize: nat)
    requires blockSize > 0 && sent <= |data|
    ensures Concat(BlocksFrom(data, sent, blockSize, true)) == data[sent..] + Erased(Lacking(|data| - sent, blockSize))
    decreases |data| - sent
  {
    if sent < |data| {
      var size := Smaller(|data| - sent, blockSize);
      var next := sent + size;
      FilledBlocksConcat(data, next, blockSize);
      assert BlocksFrom(data, sent, blockSize, true)[1..] == BlocksFrom(data, next, blockSize, true);
      SliceJoins(data, sent, next);
      if next == |data| {
        assert data[next..] + Erased(0) == [];
      } else {
        assert Erased(blockSize - size) == [];
      }
    }
  }

  lemma {:induction false} LackingLess(size: nat, blockSize: nat)
    requires blockSize > 0
    ensures Lacking(size, blockSize) < blockSize
    decreases size
  {
    if size > blockSize {
      LackingLess(size - blockSize, blockSize);
    }
  }

  /** The blocks are the data, cut; filling adds erased bytes after the last byte only. */
  lemma BlocksConcat(data: seq<byte>, sent: nat, blockSize: nat)
    requires blockSize > 0 && sent <= |data|
    ensures Concat(BlocksFrom(data, sent, blockSize, false)) == data[sent..]
    ensures exists n: nat :: n < blockSize &&
              Concat(BlocksFrom(data, sent, blockSize, true)) == data[sent..] + Erased(n)
  {
    RawBlocksConcat(data, sent, blockSize);
    FilledBlocksConcat(data, sent, blockSize);
    LackingLess(|data| - sent, blockSize);
  }

  /** There are as many blocks as the unwrapped count says. */
  lemma {:induction false} BlocksCount(data: seq<byte>, sent: nat, blockSize: nat, fill: bool)
    requires blockSize > 0 && sent <= |data|
    ensures |BlocksFrom(data, sent, blockSize, fill)| == Count(|data| - sent, blockSize)
    decreases |data| - sent
  {
    if sent == |data| {
      Quotient(blockSize - 1, blockSize, 0, blockSize - 1);
    } else if |data| - sent <= blockSize {
      Quotient(|data| - sent + blockSize - 1, blockSize, 1, |data| - sent - 1);
      assert BlocksFrom(data, |data|, blockSize, fill) == [];
    } else {
      BlocksCount(data, sent + blockSize, blockSize, fill);
      CountStep(|data| - sent, blockSize);
    }
  }

  /** The announced count is the number of blocks sent exactly for sizes that leave room for one block below 2^32. */
  lemma AnnouncedCountIsExact(data: seq<byte>, blockSize: nat, fill: bool)
    requires 0 < blockSize <= TWO32 && |data| < TWO32
    ensures Count32(|data|, blockSize) == |Split(data, blockSize, fill)| <==> |data| + blockSize <= TWO32
  {
    CountIsExact(|data|, blockSize);
    BlocksCount(data, 0, blockSize, fill);
  }

  lemma CountStep(size: nat, blockSize: nat)
    requires 0 < blockSize < size
    ensures Count(size, blockSize) == 1 + Count(size - blockSize, blockSize)
  {
    var x := size - 1;
    var q := x / blockSize;
    assert x == blockSize * q + x % blockSize;
    assert blockSize * (q + 1) == blockSize * q + blockSize;
    Quotient(size + blockSize - 1, blockSize, q + 1, x % blockSize);
  }

  lemma Quotient(x: nat, d: nat, q: nat, r: nat)
    requires x == d * q + r && r < d
    ensures x / d == q
  {
    DivisionAtLeast(x, d, q);
    assert x == d * (x / d) + x % d && d * (q + 1) == d * q + d;
    if x / d > q {
      MultiplyMonotone(d, q + 1, x / d);
      assert false;
    }
  }

  /** The size of `blocks` whole blocks. */
  function Span(blocks: nat, blockSize: nat): nat {
    if blocks == 0 then 0 else Span(blocks - 1, blockSize) + blockSize
  }

  lemma {:induction false} SpanIsProduct(blocks: nat, blockSize: nat)
    ensures Span(blocks, blockSize) == blocks * blockSize
  {
    if blocks > 0 {
      SpanIsProduct(blocks - 1, blockSize);
      assert blocks * blockSize == (blocks - 1) * blockSize + blockSize;
    }
  }

  lemma {:induction false} SpanMonotone(a: nat, b: nat, blockSize: nat)
    requires a <= b
    ensures Span(a, blockSize) <= Span(b, blockSize)
    decreases b
  {
    if a < b {
      SpanMonotone(a, b - 1, blockSize);
    }
  }

  lemma CountCovers(size: nat, blockSize: nat)
    requires blockSize > 0
    ensures size <= Span(Count(size, blockSize), blockSize)
  {
    var x := size + blockSize - 1;
    SpanIsProduct(Count(size, blockSize), blockSize);
    assert x == blockSize * (x / blockSize) + x % blockSize;
  }
}
