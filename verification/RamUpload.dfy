/** Uploading the stub to RAM (`uploadToRAM` of internal/espflash/protocol.go). */
module RamUpload {
  import opened Bytes
  import opened Blocks

  const RAM_BLOCK: nat := 0x1800
  const RAM_BLOCK_USB: nat := 0x400

  datatype Event = MemBegin(size: nat, blocks: nat, blockSize: nat, address: nat)
    | MemData(number: nat, block: seq<byte>)

  class Loader {
    ghost var log: seq<Event>

    constructor ()
      ensures log == []
    {
      log := [];
    }

    method Begin(size: nat, blocks: nat, blockSize: nat, address: nat) returns (ok: bool)
      modifies this
      ensures log == old(log) + [MemBegin(size, blocks, blockSize, address)]
    {
      log := log + [MemBegin(size, blocks, blockSize, address)];
      ok := *;
    }

    method Data(block: seq<byte>, number: nat) returns (ok: bool)
      modifies this
      ensures log == old(log) + [MemData(number, block)]
    {
      log := log + [MemData(number, block)];
      ok := *;
    }
  }

  /** The blocks as they are sent, numbered from `first` on. */
  ghost function Numbered(blocks: seq<seq<byte>>, first: nat): seq<Event> {
    if blocks == [] then [] else [MemData(first, blocks[0])] + Numbered(blocks[1..], first + 1)
  }

  lemma {:induction false} NumberedAppend(blocks: seq<seq<byte>>, first: nat, block: seq<byte>)
    ensures Numbered(blocks + [block], first) == Numbered(blocks, first) + [MemData(first + |blocks|, block)]
  {
    if blocks != [] {
      NumberedAppend(blocks[1..], first + 1, block);
      assert (blocks + [block])[1..] == blocks[1..] + [block];
    } else {
      assert Numbered([block], first) == [MemData(first, block)] + Numbered([], first + 1);
    }
  }

  ghost function BlockSize(usesUSB: bool): nat { if usesUSB then RAM_BLOCK_USB else RAM_BLOCK }

  /** `sent` are the blocks of the first `offset` bytes, and none of them ends beyond 32 bits. */
  ghost predicate Sent(sent: seq<seq<byte>>, data: seq<byte>, offset: nat, blockSize: nat)
    requires blockSize > 0
  {
    && offset <= |data|
    && (offset < |data| ==> offset == Span(|sent|, blockSize)) && Span(|sent|, blockSize) < TWO32
    && sent + BlocksFrom(data, offset, blockSize, false) == Split(data, blockSize, false)
  }

  lemma SendOne(sent: seq<seq<byte>>, data: seq<byte>, offset: nat, blockSize: nat)
    requires blockSize > 0 && Sent(sent, data, offset, blockSize) && offset < |data| && offset + blockSize < TWO32
    ensures var end := offset + Smaller(|data| - offset, blockSize);
            Sent(sent + [data[offset..end]], data, end, blockSize)
  {
    var end := offset + Smaller(|data| - offset, blockSize);
    var rest := BlocksFrom(data, end, blockSize, false);
    assert sent + ([data[offset..end]] + rest) == (sent + [data[offset..end]]) + rest;
  }

  datatype Upload = Done | Refused | Panicked

  /** A block whose end wraps is the last one. */
  lemma LastWraps(sent: seq<seq<byte>>, data: seq<byte>, offset: nat, blockSize: nat)
    requires blockSize > 0 && Sent(sent, data, offset, blockSize)
    requires offset < |data| < TWO32 <= offset + blockSize
    ensures |Split(data, blockSize, false)| == |sent| + 1 && Span(|sent| + 1, blockSize) >= TWO32
  {
    assert BlocksFrom(data, |data|, blockSize, false) == [];
  }

  /** The end of a block in 32-bit arithmetic lies before its start exactly when it wraps. */
  lemma BlockEnd(offset: nat, blockSize: nat, size: nat)
    requires offset < size < TWO32 && 0 < blockSize < TWO32
    ensures var end := Smaller((offset + blockSize) % TWO32, size);
            if offset + blockSize < TWO32 then end == offset + Smaller(size - offset, blockSize) else end < offset
  {
    if offset + blockSize >= TWO32 {
      assert (offset + blockSize) % TWO32 == offset + blockSize - TWO32;
    }
  }

  /** Which sizes the upload panics on. */
  lemma PanicsAbove(size: nat, usesUSB: bool)
    requires size < TWO32
    ensures var blockSize := BlockSize(usesUSB);
            Span(Count(size, blockSize), blockSize) >= TWO32 <==> size > if usesUSB then 0xFFFF_FC00 else 0xFFFF_F000
  {
    var blockSize := BlockSize(usesUSB);
    SpanIsProduct(Count(size, blockSize), blockSize);
    assert usesUSB ==> Count(size, RAM_BLOCK_USB) * RAM_BLOCK_USB >= size;
  }

  /** The log after some blocks. */
  ghost predicate Logged(log: seq<Event>, now: seq<Event>, sent: seq<seq<byte>>) {
    now == log + Numbered(sent, 0)
  }

  lemma OneMoreLogged(log: seq<Event>, now: seq<Event>, sent: seq<seq<byte>>, block: seq<byte>)
    requires Logged(log, now, sent)
    ensures Logged(log, now + [MemData(|sent|, block)], sent + [block])
  {
    NumberedAppend(sent, 0, block);
  }

  lemma SentSome(sent: seq<seq<byte>>, data: seq<byte>, offset: nat, blockSize: nat)
    requires blockSize > 0 && Sent(sent, data, offset, blockSize)
    ensures sent <= Split(data, blockSize, false)
    ensures offset == |data| ==> sent == Split(data, blockSize, false)
  {
  }

  /** How the upload ends, and what has been sent by then. */
  ghost predicate Uploaded(r: Upload, sent: seq<seq<byte>>, blocks: seq<seq<byte>>, blockSize: nat) {
    && sent <= blocks
    && (r.Done? ==> sent == blocks && Span(|blocks|, blockSize) < TWO32)
    && (r.Panicked? ==> |sent| == |blocks| - 1 && Span(|blocks|, blockSize) >= TWO32)
  }

  /**
   The blocks are announced and sent once each, in order; after an error the blocks sent are the first ones. All
   arithmetic has 32 bits. Where the end of the last block is 2^32 or more it wraps, and the slice expression
   panics after all other blocks are sent; nowhere else.
   */
  method UploadToRAM(chip: Loader, data: seq<byte>, address: nat, usesUSB: bool)
    returns (r: Upload, ghost sent: seq<seq<byte>>)
    modifies chip
    ensures var size, blockSize := |data| % TWO32, BlockSize(usesUSB);
            && Logged(old(chip.log) + [MemBegin(size, Count32(size, blockSize), blockSize, address)], chip.log, sent)
            && Uploaded(r, sent, Split(data[..size], blockSize, false), blockSize)
  {
    var blockSize := if usesUSB then RAM_BLOCK_USB else RAM_BLOCK;
    var dataLen := |data| % TWO32;
    var numBlocks := Count32(dataLen, blockSize);
    var ok := chip.Begin(dataLen, numBlocks, blockSize, address);
    sent := [];
    if !ok {
      return Refused, sent;
    }
    r, sent := SendBlocks(chip, data[..dataLen], blockSize, chip.log);
  }

  method SendBlocks(chip: Loader, data: seq<byte>, blockSize: nat, ghost log: seq<Event>)
    returns (r: Upload, ghost sent: seq<seq<byte>>)
    requires |data| < TWO32 && 0 < blockSize < TWO32 && chip.log == log
    modifies chip
    ensures Logged(log, chip.log, sent) && Uploaded(r, sent, Split(data, blockSize, false), blockSize)
  {
    sent := [];
    var number, offset := 0, 0;
    while offset < |data|
      invariant Sent(sent, data, offset, blockSize) && number == |sent| && Logged(log, chip.log, sent)
    {
      var end := Smaller((offset + blockSize) % TWO32, |data|);
      BlockEnd(offset, blockSize, |data|);
      if end < offset {
        LastWraps(sent, data, offset, blockSize);
        SentSome(sent, data, offset, blockSize);
        return Panicked, sent;
      }
      SendOne(sent, data, offset, blockSize);
      OneMoreLogged(log, chip.log, sent, data[offset..end]);
      sent := sent + [data[offset..end]];
      SentSome(sent, data, end, blockSize);
      var ok := chip.Data(data[offset..end], number);
      if !ok {
        return Refused, sent;
      }
      offset, number := end, number + 1;
    }
    SentSome(sent, data, offset, blockSize);
    return Done, sent;
  }
}
