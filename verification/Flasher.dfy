/**
 Writing images to flash (internal/espflash/flasher.go): numbered blocks with resends, whole parts with
 retries, the compressed path and its fallback.
 */
module Flasher {
  import opened Wrappers
  import opened Bytes
  import opened Blocks
  import opened FlashChip
  import Image

  const PART_ATTEMPTS: nat := 3
  const WRITE_SIZE_ROM: nat := 0x400
  const WRITE_SIZE_STUB: nat := 0x4000

  // ---------------------------------------------------------------- transcripts

  ghost function Copies(n: nat, e: Event): (r: seq<Event>)
    ensures |r| == n
  {
    if n == 0 then [] else Copies(n - 1, e) + [e]
  }

  /** A block sent n times, of which the last was acknowledged and no other. */
  ghost function Acked(n: nat, deflated: bool, number: nat, block: seq<byte>): (r: seq<Event>)
    requires n > 0
    ensures |r| == n
  {
    Copies(n - 1, Data(deflated, number, block, false)) + [Data(deflated, number, block, true)]
  }

  /** A block given up: sent five times and never acknowledged. */
  ghost function GivenUp(deflated: bool, number: nat, block: seq<byte>): (r: seq<Event>)
    ensures |r| == BLOCK_ATTEMPTS
  {
    Copies(BLOCK_ATTEMPTS, Data(deflated, number, block, false))
  }

  /** Every block sent once, and acknowledged. */
  ghost function Once(deflated: bool, blocks: seq<seq<byte>>): seq<Event>
    decreases |blocks|
  {
    if blocks == [] then []
    else
      var last := |blocks| - 1;
      Once(deflated, blocks[..last]) + [Data(deflated, last, blocks[last], true)]
  }

  lemma OnceMore(deflated: bool, blocks: seq<seq<byte>>, block: seq<byte>)
    ensures Once(deflated, blocks + [block]) == Once(deflated, blocks) + Acked(1, deflated, |blocks|, block)
  {
    assert (blocks + [block])[..|blocks|] == blocks;
  }

  /**
   The data commands are those of the blocks in order, numbered from 0, each sent one to five times, up to the first
   send that is acknowledged.
   */
  ghost predicate SentInOrder(log: seq<Event>, deflated: bool, blocks: seq<seq<byte>>)
    decreases |blocks|
  {
    if blocks == [] then log == []
    else
      var last := |blocks| - 1;
      exists n ::
        1 <= n <= BLOCK_ATTEMPTS && n <= |log| && log[|log| - n..] == Acked(n, deflated, last, blocks[last]) &&
                  SentInOrder(log[..|log| - n], deflated, blocks[..last])
  }

  lemma SentOneMore(log: seq<Event>, deflated: bool, blocks: seq<seq<byte>>, n: nat, block: seq<byte>)
    requires SentInOrder(log, deflated, blocks) && 1 <= n <= BLOCK_ATTEMPTS
    ensures SentInOrder(log + Acked(n, deflated, |blocks|, block), deflated, blocks + [block])
  {
    var more := Acked(n, deflated, |blocks|, block);
    var all := log + more;
    var grown := blocks + [block];
    assert grown[|grown| - 1] == block && grown[..|grown| - 1] == blocks;
    assert all[|all| - n..] == Acked(n, deflated, |grown| - 1, grown[|grown| - 1]) && all[..|all| - n] == log;
  }

  /**
   What a download sent: the announcement, then the blocks in order, then the end. A download that stopped at a
   block sent that block five times without an acknowledgement, and nothing after it.
   */
  ghost predicate Transcript(before: seq<Event>, after: seq<Event>, begin: Event, deflated: bool,
                             blocks: seq<seq<byte>>, ends: seq<Event>, r: Outcome)
  {
    && |before| < |after| && after[..|before| + 1] == before + [begin]
    && var run := after[|before| + 1..];
       match r
       case BeginFailed => run == []
       case BlockFailed(k) =>
         && k < |blocks| && BLOCK_ATTEMPTS <= |run|
         && run[|run| - BLOCK_ATTEMPTS..] == GivenUp(deflated, k, blocks[k])
         && SentInOrder(run[..|run| - BLOCK_ATTEMPTS], deflated, blocks[..k])
       case _ => Ended(run, deflated, blocks, ends)
  }

  /** All blocks, and then the end. */
  ghost predicate Ended(run: seq<Event>, deflated: bool, blocks: seq<seq<byte>>, ends: seq<Event>) {
    exists sent: seq<Event> :: run == sent + ends && SentInOrder(sent, deflated, blocks)
  }

  lemma NotEnded(run: seq<Event>, deflated: bool, blocks: seq<seq<byte>>)
    ensures Ended(run, deflated, blocks, []) <==> SentInOrder(run, deflated, blocks)
  {
    assert run + [] == run;
    if Ended(run, deflated, blocks, []) {
      var sent :| run == sent + [] && SentInOrder(sent, deflated, blocks);
      assert run == sent;
    }
  }

  lemma LogGrows(log: seq<Event>, begin: Event, run: seq<Event>, more: seq<Event>)
    ensures (log + [begin] + run) + more == log + [begin] + (run + more)
  {
  }

  lemma NothingSent(before: seq<Event>, begin: Event, blocks: seq<seq<byte>>)
    ensures Transcript(before, before + [begin], begin, begin.deflated, blocks, [], BeginFailed)
    requires begin.Begin?
  {
    var after := before + [begin];
    assert after[..|before| + 1] == after && after[|before| + 1..] == [];
  }

  lemma TranscriptComplete(before: seq<Event>, begin: Event, run: seq<Event>, deflated: bool, blocks: seq<seq<byte>>)
    requires SentInOrder(run, deflated, blocks)
    ensures Transcript(before, before + [begin] + run, begin, deflated, blocks, [], Written)
  {
    var after := before + [begin] + run;
    assert after[..|before| + 1] == before + [begin] && after[|before| + 1..] == run;
    NotEnded(run, deflated, blocks);
  }

  /** The end command behind the blocks. */
  lemma TranscriptEnded(before: seq<Event>, after: seq<Event>, begin: Event, deflated: bool, blocks: seq<seq<byte>>,
                        ends: seq<Event>, r: Outcome)
    requires Transcript(before, after, begin, deflated, blocks, [], Written) && r.AllSent()
    ensures Transcript(before, after + ends, begin, deflated, blocks, ends, r)
  {
    var run, all := after[|before| + 1..], after + ends;
    NotEnded(run, deflated, blocks);
    assert all[..|before| + 1] == after[..|before| + 1] && all[|before| + 1..] == run + ends;
    assert Ended(run + ends, deflated, blocks, ends);
  }

  /** A download that did not come to the end command sent none. */
  lemma TranscriptCut(before: seq<Event>, after: seq<Event>, begin: Event, deflated: bool, blocks: seq<seq<byte>>,
                      ends: seq<Event>, r: Outcome)
    requires Transcript(before, after, begin, deflated, blocks, [], r) && (r.BeginFailed? || r.BlockFailed?)
    ensures Transcript(before, after, begin, deflated, blocks, ends, r)
  {
  }

  lemma TranscriptStopped(before: seq<Event>, begin: Event, run: seq<Event>, deflated: bool, blocks: seq<seq<byte>>,
                          k: nat)
    requires k < |blocks| && SentInOrder(run, deflated, blocks[..k])
    ensures Transcript(before, before + [begin] + run + GivenUp(deflated, k, blocks[k]), begin, deflated, blocks, [],
                       BlockFailed(k))
  {
    var more := GivenUp(deflated, k, blocks[k]);
    var after := before + [begin] + run + more;
    assert after[..|before| + 1] == before + [begin] && after[|before| + 1..] == run + more;
    assert (run + more)[|run|..] == more && (run + more)[..|run|] == run;
  }

  // -------------------------------------------------------------------- contents

  /** What an uncompressed download leaves in flash: the image, and erased bytes up to the end of the last block. */
  ghost function Flashed(image: seq<byte>, blockSize: nat, blocks: nat): (r: seq<byte>)
    requires |image| <= Span(blocks, blockSize)
    ensures |r| == Span(blocks, blockSize)
  {
    image + Erased(Span(blocks, blockSize) - |image|)
  }

  /** The end of the sectors that a download of `size` bytes with the given blocks may touch. */
  ghost function ExtentEnd(offset: nat, size: nat, blockSize: nat): nat
    requires blockSize > 0
  {
    SectorUp(offset + Span(Count(size, blockSize), blockSize))
  }

  /** `FlashImages` and its callees return nil for the first two. */
  datatype Outcome =
    | Written
    | Skipped
    | BeginFailed
    | BlockFailed(block: nat)
    | EndFailed
    | Mismatch
  {
    predicate Ok() { Written? || Skipped? }

    /** Every block was acknowledged. */
    predicate AllSent() { Written? || EndFailed? || Mismatch? }
  }

  /** What decides the bytes that are written for a part. */
  datatype Setup = Setup(header: Image.HeaderOptions, compress: bool, skipUnchanged: bool,
                         target: Option<Image.ChipDef>, sha: Image.Hash, md5: Digest,
                         deflate: seq<byte> -> seq<byte>, storesAcknowledged: bool, healthy: bool)
  {
    /** Lengths that 32 bits can hold; the deflated length counts only where compression is on. */
    ghost predicate Fits(data: seq<byte>) {
      |data| < TWO32 && (compress ==> |deflate(data)| < TWO32)
    }

    /** Nothing gets lost, and the flash has room for the data's sectors. */
    ghost predicate Easy(data: seq<byte>, offset: nat, room: nat, blockSize: nat)
      requires blockSize > 0
    {
      healthy && storesAcknowledged && Fits(data) && ExtentEnd(offset, |data|, blockSize) <= room
    }

    ghost predicate EasyPart(p: ImagePart, room: nat, blockSize: nat)
      requires blockSize > 0
    {
      Prepared(this, p.data).Some? && Easy(Prepared(this, p.data).value, p.offset, room, blockSize)
    }
  }

  datatype Options = Options(header: Image.HeaderOptions, erase: bool, compress: bool, skipUnchanged: bool)

  ghost predicate SameDigest(flash: seq<byte>, at: nat, size: nat, data: seq<byte>, md5: Digest) {
    at + size <= |flash| && md5(flash[at..at + size]) == md5(data)
  }

  predicate Unset(option: string) { option == "" || option == "keep" }

  /**
   The options after they are settled: only the header's size and mode may differ, the size only where it was
   unset, the mode exactly where an ESP8266 leaves it unset.
   */
  ghost predicate Settled(before: Options, after: Options, target: Option<Image.ChipDef>) {
    && after == before.(header := before.header.(size := after.header.size, mode := after.header.mode))
    && (after.header.size != before.header.size ==>
          (before.header.size == "" || before.header.size == "keep") && after.header.size != "")
    && after.header.mode == (if target.Some? && target.value.isESP8266
                                && (before.header.mode == "" || before.header.mode == "keep") then "dout"
                             else before.header.mode)
  }

  /** No two byte strings of one length share a digest. */
  ghost predicate CollisionFree(md5: Digest) {
    forall x: seq<byte>, y: seq<byte> :: |x| == |y| && md5(x) == md5(y) ==> x == y
  }

  lemma HeldHasDigest(flash: seq<byte>, offset: nat, data: seq<byte>, md5: Digest)
    requires |data| < TWO32 && offset + |data| <= |flash| && Holds(flash, offset, data)
    ensures SameDigest(flash, offset, |data| % TWO32, data, md5)
  {
    assert |data| % TWO32 == |data| && flash[offset..offset + |data|] == data;
  }

  lemma DigestMeansData(flash: seq<byte>, offset: nat, data: seq<byte>, md5: Digest)
    ensures SameDigest(flash, offset, |data| % TWO32, data, md5) && CollisionFree(md5) && |data| < TWO32
            ==> Holds(flash, offset, data)
  {
    if SameDigest(flash, offset, |data| % TWO32, data, md5) && |data| < TWO32 {
      assert |data| % TWO32 == |data|;
    }
  }

  class Flasher {
    const chip: Chip
    const deflate: seq<byte> -> seq<byte>
    const target: Option<Image.ChipDef>
    const sha: Image.Hash
    const stubAvailable: bool   // whether connecting may load the stub
    var stub: bool
    var opts: Options
    ghost var tries: seq<nat>   // the offset of every attempt to flash a part, in order
    ghost var reconnects: nat

    constructor (chip: Chip, deflate: seq<byte> -> seq<byte>, target: Option<Image.ChipDef>, sha: Image.Hash,
                 stubAvailable: bool, stub: bool, opts: Options)
      requires stub ==> stubAvailable
      requires forall x :: chip.inflate(deflate(x)) == x
      ensures this.chip == chip && this.deflate == deflate && this.target == target && this.sha == sha
      ensures this.stubAvailable == stubAvailable && this.stub == stub && this.opts == opts && tries == []
      ensures Valid()
    {
      this.chip, this.deflate, this.target, this.sha, this.stubAvailable := chip, deflate, target, sha, stubAvailable;
      this.stub, this.opts, this.tries := stub, opts, [];
    }

    /** The stub runs only where it can be loaded, and inflating undoes deflating. */
    ghost predicate Valid()
      reads this
    {
      (stub ==> stubAvailable) && forall x :: chip.inflate(deflate(x)) == x
    }

    function WriteSize(): (r: nat)
      reads this
      ensures r > 0
    {
      if stub then WRITE_SIZE_STUB else WRITE_SIZE_ROM
    }

    /** The size the begin command asks to erase. */
    function EraseSize(size: nat): nat
      reads this
    {
      if opts.erase && !stub then Count32(size, WriteSize()) * WriteSize() % TWO32 else size
    }

    /**
     One block, resent until the chip acknowledges it or five attempts are used up. It succeeds exactly with the first
     send that is acknowledged.
     */
    method SendBlock(block: seq<byte>, number: nat) returns (ok: bool, ghost tries: nat)
      modifies chip`flash, chip`log
      ensures var at := chip.base + Span(number, chip.blockSize);
              && SameOutside(old(chip.flash), chip.flash, at, at + |block|)
              && (ok && chip.storesAcknowledged ==> Holds(chip.flash, at, block))
              && (chip.healthy && at + |block| <= |chip.flash| ==> ok && tries == 1)
      ensures 1 <= tries <= 5 && (!ok ==> tries == 5)
      ensures chip.log == old(chip.log) +
                if ok then Acked(tries, false, number, block) else GivenUp(false, number, block)
    {
      ghost var e := Data(false, number, block, false);
      var attempt := 0;
      ok := false;
      while attempt < BLOCK_ATTEMPTS && !ok
        invariant attempt <= BLOCK_ATTEMPTS && (ok ==> attempt >= 1)
        invariant var at := chip.base + Span(number, chip.blockSize);
                  && SameOutside(old(chip.flash), chip.flash, at, at + |block|)
                  && (ok && chip.storesAcknowledged ==> Holds(chip.flash, at, block))
                  && (chip.healthy && at + |block| <= |chip.flash| ==> attempt == if ok then 1 else 0)
        invariant chip.log == old(chip.log) +
                    if ok then Acked(attempt, false, number, block) else Copies(attempt, e)
        decreases BLOCK_ATTEMPTS - attempt
      {
        ok := chip.FlashData(block, number);
        attempt := attempt + 1;
      }
      tries := attempt;
    }

    /** Whether the skip option is on and the chip, asked for it, reports the digest of the data already. */
    method Unchanged(data: seq<byte>, size: nat, offset: nat) returns (same: bool)
      modifies chip`asked
      ensures if opts.skipUnchanged && stub then
                same <==> chip.Vouched(data, size, offset) && chip.Answered()
              else !same
      ensures same ==> opts.skipUnchanged && stub && SameDigest(chip.flash, offset, size, data, chip.md5)
      ensures chip.healthy && opts.skipUnchanged && stub ==>
                (same <==> SameDigest(chip.flash, offset, size, data, chip.md5))
    {
      same := false;
      if opts.skipUnchanged && stub {
        var actual := chip.FlashMD5(offset, size);
        same := actual.Some? && actual.value == chip.md5(data);
      }
    }

    /** A digest the chip does not report counts as a match; an answered one decides. */
    method VerifyMD5(data: seq<byte>, size: nat, offset: nat) returns (ok: bool)
      modifies chip`asked
      ensures if ok then chip.Vouched(data, size, offset) else chip.Denied(data, size, offset)
      ensures chip.Answered() ==> (ok <==> SameDigest(chip.flash, offset, size, data, chip.md5))
      ensures SameDigest(chip.flash, offset, size, data, chip.md5) ==> ok
    {
      var actual := chip.FlashMD5(offset, size);
      ok := actual.None? || actual.value == chip.md5(data);
    }

    /** The end command in the log. */
    ghost function Ends(deflated: bool, r: Outcome): seq<Event>
      reads this
    {
      if stub then [End(deflated, !r.EndFailed?)] else []
    }

    /** The end command, which only the stub gets, and the check that follows it. */
    method Finish(data: seq<byte>, size: nat, offset: nat) returns (r: Outcome)
      modifies chip`asked, chip`log
      ensures chip.log == old(chip.log) + Ends(false, r)
      ensures chip.healthy && SameDigest(chip.flash, offset, size, data, chip.md5) ==> r.Written?
      ensures r.Written? || (stub && (r.EndFailed? || r.Mismatch?))
      ensures Checked(data, size, offset, r)
    {
      if stub {
        var ended := chip.FlashEnd();
        if !ended {
          return EndFailed;
        }
        var verified := VerifyMD5(data, size, offset);
        if !verified {
          return Mismatch;
        }
      }
      return Written;
    }

    /**
     What the final check says: the stub's success and mismatch follow a digest request for the image's range of
     flash as it is now, and if the chip answered it, they are told apart by whether the digests agree.
     */
    ghost predicate Checked(data: seq<byte>, size: nat, offset: nat, r: Outcome)
      reads this, chip
    {
      && (r.Written? && stub ==> chip.Vouched(data, size, offset))
      && (r.Mismatch? ==> stub && chip.Denied(data, size, offset))
      && (stub && chip.Answered() && (r.Written? || r.Mismatch?) ==>
            (r.Written? <==> SameDigest(chip.flash, offset, size, data, chip.md5)))
    }

    /**
     The uncompressed path. If the chip answered the final digest request, and no two images of one length share a
     digest, success means that the image is in flash whatever the chip did with the blocks it acknowledged.
     */
    method FlashUncompressed(data: seq<byte>, offset: nat) returns (r: Outcome)
      modifies chip
      ensures SameOutside(old(chip.flash), chip.flash, SectorDown(offset),
                          ExtentEnd(offset, |data| % TWO32, WriteSize()))
      ensures r.Written? && chip.storesAcknowledged && |data| < TWO32 ==> Holds(chip.flash, offset, data)
      ensures Checked(data, |data| % TWO32, offset, r)
      ensures r.Written? && stub && chip.Answered() && CollisionFree(chip.md5) && |data| < TWO32 ==>
                Holds(chip.flash, offset, data)
      ensures Downloaded(chip.storesAcknowledged, old(chip.flash), chip.flash, data[..|data| % TWO32], offset,
                         WriteSize(), r)
      ensures r.Skipped? ==>
                && chip.flash == old(chip.flash) && chip.log == old(chip.log)
                && opts.skipUnchanged && SameDigest(chip.flash, offset, |data| % TWO32, data, chip.md5)
      ensures Smooth(data, offset) ==>
                if opts.skipUnchanged && stub && SameDigest(old(chip.flash), offset, |data|, data, chip.md5) then
                  r.Skipped?
                else
                  r.Written? && chip.log == old(chip.log) + SentOnce(data, offset)
      ensures !r.Skipped? ==>
                Transcript(old(chip.log), chip.log,
                           Begin(false, EraseSize(|data| % TWO32), Count32(|data| % TWO32, WriteSize()), WriteSize(),
                                 offset, !r.BeginFailed?),
                           false, Split(data[..|data| % TWO32], WriteSize(), true), Ends(false, r), r)
    {
      var size := |data| % TWO32;
      var same := Unchanged(data, size, offset);
      ghost var held := SameDigest(chip.flash, offset, |data|, data, chip.md5);
      assert chip.healthy && |data| < TWO32 ==> (same <==> opts.skipUnchanged && stub && held) by {
        assert |data| < TWO32 ==> size == |data|;
      }
      if same {
        r := Skipped;
        return;
      }
      r := Download(data, offset);
    }

    /** The download when nothing is skipped, and what its success means for the image. */
    method Download(data: seq<byte>, offset: nat) returns (r: Outcome)
      modifies chip
      ensures !r.Skipped? && Checked(data, |data| % TWO32, offset, r)
      ensures r.Written? && chip.storesAcknowledged && |data| < TWO32 ==> Holds(chip.flash, offset, data)
      ensures r.Written? && stub && chip.Answered() && CollisionFree(chip.md5) && |data| < TWO32 ==>
                Holds(chip.flash, offset, data)
      ensures Downloaded(chip.storesAcknowledged, old(chip.flash), chip.flash, data[..|data| % TWO32], offset,
                         WriteSize(), r)
      ensures Smooth(data, offset) ==> r.Written? && chip.log == old(chip.log) + SentOnce(data, offset)
      ensures Transcript(old(chip.log), chip.log,
                         Begin(false, EraseSize(|data| % TWO32), Count32(|data| % TWO32, WriteSize()), WriteSize(),
                               offset, !r.BeginFailed?),
                         false, Split(data[..|data| % TWO32], WriteSize(), true), Ends(false, r), r)
    {
      r := BeginAndWrite(data, offset);
      if r.Written? {
        ImageLanded(chip.storesAcknowledged, old(chip.flash), chip.flash, data, offset, WriteSize());
        DigestMeansData(chip.flash, offset, data, chip.md5);
      }
    }

    /** The begin command, the blocks, the end command and the check. */
    method BeginAndWrite(data: seq<byte>, offset: nat) returns (r: Outcome)
      modifies chip
      ensures !r.Skipped? && Checked(data, |data| % TWO32, offset, r)
      ensures Downloaded(chip.storesAcknowledged, old(chip.flash), chip.flash, data[..|data| % TWO32], offset,
                         WriteSize(), r)
      ensures Smooth(data, offset) ==> r.Written? && chip.log == old(chip.log) + SentOnce(data, offset)
      ensures Transcript(old(chip.log), chip.log,
                         Begin(false, EraseSize(|data| % TWO32), Count32(|data| % TWO32, WriteSize()), WriteSize(),
                               offset, !r.BeginFailed?),
                         false, Split(data[..|data| % TWO32], WriteSize(), true), Ends(false, r), r)
    {
      var size := |data| % TWO32;
      var writeSize := WriteSize();
      var numBlocks := Count32(size, writeSize);
      var eraseSize := EraseSize(size);
      ghost var start, image, blocks := chip.flash, data[..size], Split(data[..size], writeSize, true);
      var begun := chip.FlashBegin(eraseSize, numBlocks, writeSize, offset);
      ghost var begin := Begin(false, eraseSize, numBlocks, writeSize, offset, begun);
      EraseWithin(offset, eraseSize, size, writeSize);
      ghost var erased := chip.flash;
      if !begun {
        r := BeginFailed;
        NothingSent(old(chip.log), begin, blocks);
        TranscriptCut(old(chip.log), chip.log, begin, false, blocks, Ends(false, r), r);
        return;
      }
      r := WriteImage(data, offset, old(chip.log), begin);
      if Smooth(data, offset) {
        SentOnceIs(old(chip.log), begin, data, offset);
      }
      WithinSectors(chip.storesAcknowledged, start, erased, chip.flash, image, offset, writeSize, eraseSize, r);
    }

    /** The blocks, the end command and the check, once the chip has been told to begin. */
    method WriteImage(data: seq<byte>, offset: nat, ghost log: seq<Event>, ghost begin: Event)
      returns (r: Outcome)
      requires chip.base == offset && chip.blockSize == WriteSize() && chip.log == log + [begin]
      modifies chip`flash, chip`log, chip`asked
      ensures r.BlockFailed? || r.AllSent()
      ensures Checked(data, |data| % TWO32, offset, r)
      ensures var image := data[..|data| % TWO32];
              && BlocksWritten(chip.storesAcknowledged, old(chip.flash), chip.flash, image, offset, WriteSize(), r)
              && Transcript(log, chip.log, begin, false, Split(image, WriteSize(), true), Ends(false, r), r)
      ensures Smooth(data, offset) ==>
                && r.Written?
                && chip.log == log + [begin] + Once(false, Split(data, WriteSize(), true)) + Ends(false, Written)
    {
      var size := |data| % TWO32;
      ghost var blocks := Split(data[..size], WriteSize(), true);
      assert |data| < TWO32 ==> data[..size] == data by {
        if |data| < TWO32 {
          WholeImage(data);
        }
      }
      r := WriteBlocks(data[..size], offset, WriteSize(), log, begin);
      ghost var sent := chip.log;
      assert Smooth(data, offset) ==> r.Written? && sent == log + [begin] + Once(false, blocks);
      if r.Written? {
        assert Smooth(data, offset) ==> SameDigest(chip.flash, offset, size, data, chip.md5) by {
          if Smooth(data, offset) {
            WrittenHasDigest(chip.flash, data, offset);
          }
        }
        r := Finish(data, size, offset);
        assert Transcript(log, chip.log, begin, false, blocks, Ends(false, r), r) by {
          TranscriptEnded(log, sent, begin, false, blocks, Ends(false, r), r);
        }
      } else {
        assert Transcript(log, chip.log, begin, false, blocks, Ends(false, r), r) by {
          TranscriptCut(log, sent, begin, false, blocks, Ends(false, r), r);
        }
      }
    }

    /**
     What the begin commands ask to erase. A ROM that is to erase is told whole blocks, as far as 32 bits hold them;
     otherwise exactly the bytes of the image are announced, and the stub is always told those when it inflates.
     */
    lemma EraseMeans(size: nat)
      requires size + WriteSize() <= TWO32
      ensures var blocks := Span(Count(size, WriteSize()), WriteSize());
              if opts.erase && !stub then
                EraseSize(size) == blocks % TWO32 && size <= blocks < size + WriteSize()
              else EraseSize(size) == size
      ensures DeflSize(size) == if stub then size else EraseSize(size)
      ensures WriteSize() == if stub then 0x4000 else 0x400
    {
      CountIsExact(size, WriteSize());
      CountCovers(size, WriteSize());
      SpanIsProduct(Count(size, WriteSize()), WriteSize());
      assert size + WriteSize() - 1 >= WriteSize() * Count(size, WriteSize());
    }

    lemma WrittenHasDigest(flash: seq<byte>, data: seq<byte>, offset: nat)
      requires |data| < TWO32 && |data| <= Span(Count(|data|, WriteSize()), WriteSize())
      requires offset + Span(Count(|data|, WriteSize()), WriteSize()) <= |flash|
      requires Holds(flash, offset, Flashed(data[..|data| % TWO32], WriteSize(), Count(|data|, WriteSize())))
      ensures SameDigest(flash, offset, |data| % TWO32, data, chip.md5) && data[..|data| % TWO32] == data
    {
      WholeImage(data);
      HoldsPrefix(flash, offset, data, Erased(Span(Count(|data|, WriteSize()), WriteSize()) - |data|));
      HeldHasDigest(flash, offset, data, chip.md5);
    }

    /** The size the compressed begin command announces: the stub erases by itself. */
    function DeflSize(size: nat): nat
      reads this
    {
      if stub then size else EraseSize(size)
    }

    method SendDeflBlock(block: seq<byte>, number: nat) returns (ok: bool, ghost tries: nat)
      requires chip.next == number
      modifies chip`flash, chip`log, chip`staged, chip`next
      ensures SameOutside(old(chip.flash), chip.flash, chip.base, chip.base + chip.target)
      ensures ok ==> chip.next == number + 1 && chip.staged == old(chip.staged) + block
      ensures 1 <= tries <= 5 && (!ok ==> tries == 5)
      ensures chip.healthy ==> ok && tries == 1
      ensures chip.log == old(chip.log) + if ok then Acked(tries, true, number, block) else GivenUp(true, number, block)
    {
      ghost var e := Data(true, number, block, false);
      var attempt := 0;
      ok := false;
      while attempt < BLOCK_ATTEMPTS && !ok
        invariant attempt <= BLOCK_ATTEMPTS && (ok ==> attempt >= 1 && chip.next == number + 1)
        invariant SameOutside(old(chip.flash), chip.flash, chip.base, chip.base + chip.target)
        invariant (chip.next == number && chip.staged == old(chip.staged)) ||
                  (chip.next == number + 1 && chip.staged == old(chip.staged) + block)
        invariant chip.healthy ==> attempt == if ok then 1 else 0
        invariant !ok && attempt == 0 ==> chip.next == number
        invariant chip.log == old(chip.log) + if ok then Acked(attempt, true, number, block) else Copies(attempt, e)
        decreases BLOCK_ATTEMPTS - attempt
      {
        ok := chip.FlashDeflData(block, number);
        attempt := attempt + 1;
      }
      tries := attempt;
    }

    /** The block loop of the compressed path. */
    method WriteDeflBlocks(compressed: seq<byte>, writeSize: nat, ghost log: seq<Event>, ghost begin: Event)
      returns (r: Outcome)
      requires writeSize > 0 && chip.staged == [] && chip.next == 0 && chip.log == log + [begin]
      modifies chip`flash, chip`log, chip`staged, chip`next
      ensures r.Written? || r.BlockFailed?
      ensures SameOutside(old(chip.flash), chip.flash, chip.base, chip.base + chip.target)
      ensures r.Written? ==> chip.staged == compressed
      ensures Transcript(log, chip.log, begin, true, Split(compressed, writeSize, false), [], r)
      ensures chip.healthy ==>
                r.Written? && chip.log == log + [begin] + Once(true, Split(compressed, writeSize, false))
    {
      var size := |compressed|;
      ghost var run: seq<Event>, done: seq<seq<byte>> := [], [];
      var sent, number := 0, 0;
      assert compressed[..0] == [];
      while sent < size
        invariant number == |done| == chip.next && chip.log == log + [begin] + run
        invariant DeflProgress(compressed, writeSize, sent, done, chip.staged, run)
        invariant SameOutside(old(chip.flash), chip.flash, chip.base, chip.base + chip.target)
        invariant chip.healthy ==> run == Once(true, done)
      {
        var block := BlockAt(compressed, sent, writeSize, false);
        var ok, tries := SendDeflBlock(block, number);
        if !ok {
          DeflStoppedAt(compressed, writeSize, sent, done, run, log, begin);
          return BlockFailed(number);
        }
        DeflOneMore(compressed, writeSize, sent, done, run, tries);
        LogGrows(log, begin, run, Acked(tries, true, number, block));
        OnceMore(true, done, block);
        run, done := run + Acked(tries, true, number, block), done + [block];
        sent, number := sent + Smaller(size - sent, writeSize), number + 1;
      }
      assert compressed[..size] == compressed && Split(compressed, writeSize, false) == done;
      TranscriptComplete(log, begin, run, true, done);
      return Written;
    }

    /** The write barrier of the compressed path, and the check that follows it. */
    method FinishDefl(data: seq<byte>, size: nat, offset: nat) returns (r: Outcome)
      modifies chip`flash, chip`asked, chip`log
      ensures chip.log == old(chip.log) + Ends(true, r)
      ensures chip.healthy && chip.base + chip.target <= |chip.flash| ==> !r.EndFailed?
      ensures !r.EndFailed? && SameDigest(chip.flash, offset, size, data, chip.md5) ==> r.Written?
      ensures SameOutside(old(chip.flash), chip.flash, chip.base, chip.base + chip.target)
      ensures r.Written? || (stub && (r.EndFailed? || r.Mismatch?))
      ensures !r.EndFailed? && stub && chip.storesAcknowledged && |chip.inflate(chip.staged)| == chip.target ==>
                Holds(chip.flash, chip.base, chip.inflate(chip.staged))
      ensures Checked(data, size, offset, r)
    {
      if stub {
        var ended := chip.FlashDeflEnd();
        if !ended {
          r := EndFailed;
          return;
        }
        var verified := VerifyMD5(data, size, offset);
        if !verified {
          r := Mismatch;
          return;
        }
      }
      r := Written;
    }

    /** The same for the compressed path. */
    ghost predicate SmoothDeflated(data: seq<byte>, offset: nat)
      reads this, chip
    {
      Smooth(data, offset) && stub && Fits(data) && chip.inflate(deflate(data)) == data
    }

    ghost function SentDeflatedOnce(data: seq<byte>, offset: nat): seq<Event>
      reads this
    {
      [Begin(true, DeflSize(|data|), Count32(|deflate(data)|, WriteSize()), WriteSize(), offset, true)]
      + Once(true, Split(deflate(data), WriteSize(), false)) + Ends(true, Written)
    }

    lemma SentDeflatedIs(log: seq<Event>, begin: Event, data: seq<byte>, size: nat, offset: nat)
      requires size == |data|
      requires begin == Begin(true, DeflSize(size), Count32(|deflate(data)|, WriteSize()), WriteSize(), offset, true)
      ensures log + [begin] + Once(true, Split(deflate(data), WriteSize(), false)) + Ends(true, Written)
           == log + SentDeflatedOnce(data, offset)
    {
      var once, ends := Once(true, Split(deflate(data), WriteSize(), false)), Ends(true, Written);
      Regrouped(log, [begin], once);
      Regrouped(log, [begin] + once, ends);
    }

    /** Lengths that 32 bits can hold. */
    ghost predicate Fits(data: seq<byte>) {
      |data| < TWO32 && |deflate(data)| < TWO32
    }

    /** The image as the compressor shrinks it, in the 32-bit lengths the code compares. */
    predicate Shrinks(data: seq<byte>) {
      |deflate(data)| % TWO32 < |data| % TWO32
    }

    /**
     The compressed path. When compression does not shrink the image it is the uncompressed download; otherwise
     a download that succeeds has left the inflated blocks in flash: the image itself.
     */
    method FlashCompressed(data: seq<byte>, offset: nat) returns (r: Outcome)
      modifies chip
      ensures SameOutside(old(chip.flash), chip.flash, SectorDown(offset),
                          ExtentEnd(offset, |data| % TWO32, WriteSize()))
      ensures r.Skipped? ==>
                && chip.flash == old(chip.flash) && chip.log == old(chip.log)
                && opts.skipUnchanged && SameDigest(chip.flash, offset, |data| % TWO32, data, chip.md5)
      ensures r.Written? && chip.storesAcknowledged && stub && Fits(data) && chip.inflate(deflate(data)) == data ==>
                Holds(chip.flash, offset, data)
      ensures Checked(data, |data| % TWO32, offset, r)
      ensures r.Written? && stub && chip.Answered() && CollisionFree(chip.md5) && |data| < TWO32 ==>
                Holds(chip.flash, offset, data)
      ensures SmoothDeflated(data, offset) ==>
                if opts.skipUnchanged && SameDigest(old(chip.flash), offset, |data|, data, chip.md5) then r.Skipped?
                else
                  r.Written? && chip.log == old(chip.log) +
                    if Shrinks(data) then SentDeflatedOnce(data, offset) else SentOnce(data, offset)
      ensures !Shrinks(data) ==>
                Downloaded(chip.storesAcknowledged, old(chip.flash), chip.flash, data[..|data| % TWO32], offset,
                           WriteSize(), r)
      ensures Shrinks(data) && !r.Skipped? ==>
                var compressed := deflate(data)[..|deflate(data)| % TWO32];
                Transcript(old(chip.log), chip.log,
                           Begin(true, DeflSize(|data| % TWO32), Count32(|compressed|, WriteSize()), WriteSize(),
                                 offset, !r.BeginFailed?),
                           true, Split(compressed, WriteSize(), false), Ends(true, r), r)
    {
      var deflated := deflate(data);
      var size, compSize := |data| % TWO32, |deflated| % TWO32;
      if compSize >= size {
        r := FlashUncompressed(data, offset);
        return;
      }
      var same := Unchanged(data, size, offset);
      if same {
        r := Skipped;
        return;
      }
      r := DownloadDeflated(data, deflated[..compSize], size, offset);
      DigestMeansData(chip.flash, offset, data, chip.md5);
    }

    method DownloadDeflated(data: seq<byte>, compressed: seq<byte>, size: nat, offset: nat)
      returns (r: Outcome)
      requires size < TWO32 && (|data| < TWO32 ==> size == |data|)
      requires |deflate(data)| < TWO32 ==> compressed == deflate(data)
      modifies chip
      ensures !r.Skipped?
      ensures Checked(data, size, offset, r)
      ensures r.Written? && chip.storesAcknowledged && stub && Fits(data) && chip.inflate(deflate(data)) == data ==>
                Holds(chip.flash, offset, data)
      ensures SameOutside(old(chip.flash), chip.flash, SectorDown(offset), ExtentEnd(offset, size, WriteSize()))
      ensures SmoothDeflated(data, offset) ==>
                r.Written? && chip.log == old(chip.log) + SentDeflatedOnce(data, offset)
      ensures Transcript(old(chip.log), chip.log,
                         Begin(true, DeflSize(size), Count32(|compressed|, WriteSize()), WriteSize(), offset,
                               !r.BeginFailed?),
                         true, Split(compressed, WriteSize(), false), Ends(true, r), r)
    {
      var writeSize := WriteSize();
      var numBlocks := Count32(|compressed|, writeSize);
      var writeArg := DeflSize(size);
      var begun := chip.FlashDeflBegin(writeArg, numBlocks, writeSize, offset);
      ghost var begin := Begin(true, writeArg, numBlocks, writeSize, offset, begun);
      TargetWithin(offset, writeArg, size, writeSize);
      ghost var low, high := SectorDown(offset), ExtentEnd(offset, size, writeSize);
      ghost var start, erased := old(chip.flash), chip.flash;
      if !begun {
        r := BeginFailed;
        NothingSent(old(chip.log), begin, Split(compressed, writeSize, false));
        TranscriptCut(old(chip.log), chip.log, begin, true, Split(compressed, writeSize, false), Ends(true, r), r);
        return;
      }
      if SmoothDeflated(data, offset) {
        CountCovers(|data|, writeSize);
        SentDeflatedIs(old(chip.log), begin, data, size, offset);
      }
      r := WriteDeflated(data, compressed, size, offset, old(chip.log), begin);
      SameOutsideTrans(start, erased, chip.flash, low, high, offset, offset + writeArg);
    }

    /** The blocks, the end command and the check, once the chip has been told to begin. */
    method WriteDeflated(data: seq<byte>, compressed: seq<byte>, size: nat, offset: nat, ghost log: seq<Event>,
                         ghost begin: Event) returns (r: Outcome)
      requires chip.staged == [] && chip.next == 0 && chip.log == log + [begin]
      modifies chip`flash, chip`log, chip`staged, chip`next, chip`asked
      ensures r.BlockFailed? || r.AllSent()
      ensures chip.healthy && chip.storesAcknowledged && stub && chip.base == offset && chip.target == size == |data|
              && |data| < TWO32 && chip.inflate(compressed) == data && offset + size <= |chip.flash| ==>
                && r.Written?
                && chip.log == log + [begin] + Once(true, Split(compressed, WriteSize(), false)) + Ends(true, Written)
      ensures SameOutside(old(chip.flash), chip.flash, chip.base, chip.base + chip.target)
      ensures r.Written? && stub && chip.storesAcknowledged && |chip.inflate(compressed)| == chip.target ==>
                Holds(chip.flash, chip.base, chip.inflate(compressed))
      ensures Checked(data, size, offset, r)
      ensures Transcript(log, chip.log, begin, true, Split(compressed, WriteSize(), false), Ends(true, r), r)
    {
      r := WriteDeflBlocks(compressed, WriteSize(), log, begin);
      ghost var behind, sent, blocks := chip.flash, chip.log, Split(compressed, WriteSize(), false);
      if r.BlockFailed? {
        TranscriptCut(log, sent, begin, true, blocks, Ends(true, r), r);
      } else {
        r := FinishDefl(data, size, offset);
        assert |data| < TWO32 && offset + |data| <= |chip.flash| && Holds(chip.flash, offset, data) ==>
            SameDigest(chip.flash, offset, |data|, data, chip.md5) by {
          if |data| < TWO32 && offset + |data| <= |chip.flash| && Holds(chip.flash, offset, data) {
            HeldHasDigest(chip.flash, offset, data, chip.md5);
          }
        }
        TranscriptEnded(log, sent, begin, true, blocks, Ends(true, r), r);
        SameOutsideTrans(old(chip.flash), behind, chip.flash, chip.base, chip.base + chip.target, chip.base,
                         chip.base + chip.target);
      }
    }

    /** A healthy chip that stores what it acknowledges, with room for all blocks of the data. */
    ghost predicate Smooth(data: seq<byte>, offset: nat)
      reads this, chip
    {
      chip.storesAcknowledged && |data| < TWO32 && Roomy(data, offset, WriteSize())
    }

    /** The commands of a download in which nothing is lost. */
    ghost function SentOnce(data: seq<byte>, offset: nat): seq<Event>
      reads this
    {
      [Begin(false, EraseSize(|data|), Count32(|data|, WriteSize()), WriteSize(), offset, true)]
      + Once(false, Split(data, WriteSize(), true)) + Ends(false, Written)
    }

    lemma SentOnceIs(log: seq<Event>, begin: Event, data: seq<byte>, offset: nat)
      requires |data| < TWO32
      requires var size := |data| % TWO32;
               begin == Begin(false, EraseSize(size), Count32(size, WriteSize()), WriteSize(), offset, true)
      ensures log + [begin] + Once(false, Split(data, WriteSize(), true)) + Ends(false, Written)
           == log + SentOnce(data, offset)
    {
      assert |data| % TWO32 == |data|;
      var once, ends := Once(false, Split(data, WriteSize(), true)), Ends(false, Written);
      Regrouped(log, [begin], once);
      Regrouped(log, [begin] + once, ends);
    }

    /** The chip is healthy, and its flash has room for all blocks. */
    ghost predicate Roomy(image: seq<byte>, offset: nat, writeSize: nat)
      requires writeSize > 0
      reads this, chip
    {
      chip.healthy && offset + Span(Count(|image|, writeSize), writeSize) <= |chip.flash|
    }

    /** One turn of the block loop. */
    method SendNext(image: seq<byte>, offset: nat, writeSize: nat, sent: nat, number: nat, ghost done: seq<seq<byte>>,
                    ghost start: seq<byte>, ghost run: seq<Event>, ghost log: seq<Event>, ghost begin: Event)
      returns (ok: bool, ghost more: seq<Event>)
      requires writeSize > 0 && sent < |image| && number == |done| && chip.log == log + [begin] + run
      requires chip.base == offset && chip.blockSize == writeSize
      requires Progress(chip.storesAcknowledged, image, offset, writeSize, sent, done, start, chip.flash, run)
      modifies chip`flash, chip`log
      ensures ok ==>
                && chip.log == log + [begin] + more
                && Progress(chip.storesAcknowledged, image, offset, writeSize,
                            sent + Smaller(|image| - sent, writeSize), done + [BlockAt(image, sent, writeSize, true)],
                            start, chip.flash, more)
      ensures !ok ==>
                && BlocksWritten(chip.storesAcknowledged, start, chip.flash, image, offset, writeSize,
                                 BlockFailed(number))
                && Transcript(log, chip.log, begin, false, Split(image, writeSize, true), [], BlockFailed(number))
      ensures Roomy(image, offset, writeSize) ==>
                ok && more == run + Acked(1, false, number, BlockAt(image, sent, writeSize, true))
    {
      var block := BlockAt(image, sent, writeSize, true);
      ghost var flash, stores := chip.flash, chip.storesAcknowledged;
      ghost var tries;
      NextBlock(stores, image, offset, writeSize, sent, done, start, flash, run);
      ok, tries := SendBlock(block, number);
      more := run + Acked(tries, false, number, block);
      if ok {
        StoredOneMore(stores, image, offset, writeSize, sent, done, start, flash, chip.flash, run, tries);
        LogGrows(log, begin, run, Acked(tries, false, number, block));
      } else {
        StoppedAt(stores, image, offset, writeSize, sent, done, start, flash, chip.flash, run, log, begin);
      }
    }

    /** The block loop. */
    method WriteBlocks(image: seq<byte>, offset: nat, writeSize: nat, ghost log: seq<Event>, ghost begin: Event)
      returns (r: Outcome)
      requires writeSize > 0 && chip.base == offset && chip.blockSize == writeSize && chip.log == log + [begin]
      modifies chip`flash, chip`log
      ensures r.Written? || r.BlockFailed?
      ensures BlocksWritten(chip.storesAcknowledged, old(chip.flash), chip.flash, image, offset, writeSize, r)
      ensures Transcript(log, chip.log, begin, false, Split(image, writeSize, true), [], r)
      ensures Roomy(image, offset, writeSize) ==>
                r.Written? && chip.log == log + [begin] + Once(false, Split(image, writeSize, true))
    {
      var size := |image|;
      ghost var run: seq<Event>, done: seq<seq<byte>> := [], [];
      ghost var start := chip.flash;
      var sent, number := 0, 0;
      NoneStored(chip.storesAcknowledged, start, image, offset, writeSize);
      while sent < size
        invariant number == |done| && chip.base == offset && chip.blockSize == writeSize
                  && chip.log == log + [begin] + run
        invariant Progress(chip.storesAcknowledged, image, offset, writeSize, sent, done, start, chip.flash, run)
        invariant Roomy(image, offset, writeSize) ==> run == Once(false, done)
      {
        OnceMore(false, done, BlockAt(image, sent, writeSize, true));
        var ok, more := SendNext(image, offset, writeSize, sent, number, done, start, run, log, begin);
        if !ok {
          return BlockFailed(number);
        }
        run, done := more, done + [BlockAt(image, sent, writeSize, true)];
        sent, number := sent + Smaller(size - sent, writeSize), number + 1;
      }
      AllStored(chip.storesAcknowledged, image, offset, writeSize, done, start, chip.flash, run, log, begin);
      return Written;
    }

    // ------------------------------------------------------------------- parts

    ghost function LargestWrite(): (r: nat)
      ensures r > 0
    {
      if stubAvailable then WRITE_SIZE_STUB else WRITE_SIZE_ROM
    }

    ghost function Settings(): Setup
      reads this
    {
      Setup(opts.header, opts.compress, opts.skipUnchanged, target, sha, chip.md5, deflate, chip.storesAcknowledged,
            chip.healthy)
    }

    /** A part lands, and nothing outside its sectors changes. */
    ghost predicate PartEffect(before: seq<byte>, after: seq<byte>, offset: nat, data: seq<byte>, ok: bool)
      reads this
    {
      && SameOutside(before, after, SectorDown(offset), ExtentEnd(offset, |data|, LargestWrite()))
      && (ok && chip.storesAcknowledged && Settings().Fits(data) ==> Landed(Settings(), after, offset, data))
    }

    lemma EasyIsSmooth(data: seq<byte>, offset: nat)
      requires Valid() && Settings().Easy(data, offset, |chip.flash|, LargestWrite())
      ensures Smooth(data, offset) && (stub && opts.compress ==> SmoothDeflated(data, offset))
    {
      ExtentWithin(offset, |data|, WriteSize(), LargestWrite());
      assert |data| % TWO32 == |data|;
      SectorUpCovers(offset + Span(Count(|data|, WriteSize()), WriteSize()));
    }

    method Attempt(data: seq<byte>, offset: nat) returns (r: Outcome)
      requires Valid()
      modifies chip, this`tries
      ensures Settings().Easy(data, offset, |old(chip.flash)|, LargestWrite()) ==> r.Ok()
      ensures tries == old(tries) + [offset]
      ensures PartEffect(old(chip.flash), chip.flash, offset, data, r.Ok())
    {
      tries := tries + [offset];
      r := AttemptEither(data, offset);
    }

    method AttemptEither(data: seq<byte>, offset: nat) returns (r: Outcome)
      requires Valid()
      modifies chip
      ensures old(Settings().Easy(data, offset, |chip.flash|, LargestWrite())) ==> r.Ok()
      ensures PartEffect(old(chip.flash), chip.flash, offset, data, r.Ok())
    {
      ghost var easy := Settings().Easy(data, offset, |chip.flash|, LargestWrite());
      assert easy ==> Smooth(data, offset) && (stub && opts.compress ==> SmoothDeflated(data, offset)) by {
        if easy {
          EasyIsSmooth(data, offset);
        }
      }
      if opts.compress && stub {
        r := AttemptCompressed(data, offset);
      } else {
        r := AttemptUncompressed(data, offset);
      }
    }

    method AttemptUncompressed(data: seq<byte>, offset: nat) returns (r: Outcome)
      requires Valid()
      modifies chip
      ensures old(Smooth(data, offset)) ==> r.Ok()
      ensures PartEffect(old(chip.flash), chip.flash, offset, data, r.Ok())
    {
      r := FlashUncompressed(data, offset);
      if r.Skipped? && Settings().Fits(data) {
        SkippedLands(chip.flash, offset, data);
      }
      WiderEffect(old(chip.flash), chip.flash, offset, data, r.Ok());
    }

    method AttemptCompressed(data: seq<byte>, offset: nat) returns (r: Outcome)
      requires Valid() && stub && opts.compress
      modifies chip
      ensures old(SmoothDeflated(data, offset)) ==> r.Ok()
      ensures PartEffect(old(chip.flash), chip.flash, offset, data, r.Ok())
    {
      r := FlashCompressed(data, offset);
      if r.Skipped? && Settings().Fits(data) {
        SkippedLands(chip.flash, offset, data);
      }
      WiderEffect(old(chip.flash), chip.flash, offset, data, r.Ok());
    }

    lemma SkippedLands(flash: seq<byte>, offset: nat, data: seq<byte>)
      requires |data| < TWO32
      ensures opts.skipUnchanged && SameDigest(flash, offset, |data| % TWO32, data, chip.md5)
              ==> Landed(Settings(), flash, offset, data)
    {
      assert |data| % TWO32 == |data|;
    }

    lemma WiderEffect(before: seq<byte>, after: seq<byte>, offset: nat, data: seq<byte>, ok: bool)
      requires Valid()
      requires SameOutside(before, after, SectorDown(offset), ExtentEnd(offset, |data| % TWO32, WriteSize()))
      requires ok && chip.storesAcknowledged && Settings().Fits(data) ==> Landed(Settings(), after, offset, data)
      ensures PartEffect(before, after, offset, data, ok)
    {
      ExtentWithin(offset, |data|, WriteSize(), LargestWrite());
    }

    /** The flash size the chip's identification reports; empty when it cannot be read. */
    method DetectFlashSize() returns (size: string) {
      size := *;
    }

    method AttachFlash() returns (ok: bool) {
      ok := *;
    }

    /** The header options before the parts are written: a size that is not set is detected, an ESP8266 gets DOUT. */
    method SettleHeader()
      modifies this`opts
      ensures Settled(old(opts), opts, target)
    {
      if Unset(opts.header.size) {
        var detected := DetectFlashSize();
        if detected != "" {
          opts := opts.(header := opts.header.(size := detected));
        }
      }
      if target.Some? && target.value.isESP8266 && Unset(opts.header.mode) {
        opts := opts.(header := opts.header.(mode := "dout"));
      }
    }

    /**
     Flashes several images. When it succeeds every patched and padded part is in flash at the same time, for any
     pattern of lost commands, acknowledgements and failed attempts; bytes outside the sectors of the parts are
     never changed, and no part is tried more than three times.
     */
    method FlashImages(parts: seq<ImagePart>) returns (r: ImagesOutcome, ghost attempts: seq<nat>)
      requires Valid()
      modifies this, chip
      ensures Valid() && tries == old(tries) + attempts
      ensures if r.AttachFailed? then opts == old(opts) && chip.flash == old(chip.flash) && chip.log == old(chip.log)
              else Settled(old(opts), opts, target)
      ensures OnlyExtents(old(chip.flash), chip.flash, parts, |parts|, LargestWrite())
      ensures Reported(Settings(), chip.flash, parts, r, attempts, LargestWrite())
      ensures !r.AttachFailed? && AllEasy(Settings(), parts, |old(chip.flash)|, LargestWrite()) ==>
                r.AllFlashed? && attempts == Offsets(parts)
    {
      var attached := AttachFlash();
      if !attached {
        r, attempts := AttachFailed, [];
        return;
      }
      SettleHeader();
      r, attempts := FlashParts(parts);
    }

    /** The loop over the parts. */
    method FlashParts(parts: seq<ImagePart>) returns (r: ImagesOutcome, ghost attempts: seq<nat>)
      requires Valid()
      modifies chip, this`stub, this`tries, this`reconnects
      ensures Valid() && tries == old(tries) + attempts
      ensures !r.AttachFailed?
      ensures OnlyExtents(old(chip.flash), chip.flash, parts, |parts|, LargestWrite())
      ensures Reported(Settings(), chip.flash, parts, r, attempts, LargestWrite())
      ensures !r.AttachFailed? && AllEasy(Settings(), parts, |old(chip.flash)|, LargestWrite()) ==>
                r.AllFlashed? && attempts == Offsets(parts)
    {
      ghost var start, setup := chip.flash, Settings();
      ghost var turns;
      r, attempts, turns := FlashEach(parts);
      TurnsReport(setup, start, parts, turns, LargestWrite());
    }

    method FlashEach(parts: seq<ImagePart>) returns (r: ImagesOutcome, ghost attempts: seq<nat>, ghost turns: seq<Turn>)
      requires Valid()
      modifies chip, this`stub, this`tries, this`reconnects
      ensures Valid() && Settings() == old(Settings()) && tries == old(tries) + attempts
      ensures |turns| <= |parts| && (Going(turns) ==> |turns| == |parts|)
      ensures Turns(Settings(), old(chip.flash), parts, turns, LargestWrite())
      ensures chip.flash == FlashAfter(old(chip.flash), turns) && attempts == Attempts(parts, turns)
      ensures r == Result(turns)
    {
      ghost var start, setup := chip.flash, Settings();
      attempts, turns := [], [];
      var k := 0;
      while k < |parts|
        invariant k <= |parts| && k == |turns| && Valid() && Settings() == setup
        invariant Turns(setup, start, parts, turns, LargestWrite()) && Going(turns)
        invariant chip.flash == FlashAfter(start, turns) && attempts == Attempts(parts, turns)
                  && tries == old(tries) + attempts
      {
        var outcome, turn := FlashNext(parts[k]);
        ghost var more := Repeat(turn.tries, parts[k].offset);
        TurnsExtend(setup, start, parts, turns, turn, LargestWrite());
        Regrouped(old(tries), attempts, more);
        attempts, turns := attempts + more, turns + [turn];
        if outcome.None? || !outcome.value.Ok() {
          r := if outcome.None? then HeaderUnknown(k) else PartFailed(k, outcome.value);
          return;
        }
        k := k + 1;
      }
      r := AllFlashed;
    }

    /**
     One part: its header patched, its length padded, and up to three attempts; nothing when the header options are
     unknown.
     */
    method FlashNext(p: ImagePart) returns (r: Option<Outcome>, ghost turn: Turn)
      requires Valid()
      modifies chip, this`stub, this`tries, this`reconnects
      ensures Valid() && turn.before == old(chip.flash) && turn.after == chip.flash && turn.outcome == r
      ensures tries == old(tries) + Repeat(turn.tries, p.offset)
      ensures TurnOf(Settings(), p, turn, LargestWrite())
    {
      ghost var before := chip.flash;
      var patched := Image.PatchImageHeader(opts.header, target, sha, p.data);
      if patched.None? {
        r, turn := None, Turn(before, before, None, 0);
        return;
      }
      var data := Image.Pad4(patched.value);
      PatchKeepsSize(Settings(), p.data);
      var outcome, n := FlashPart(data, p.offset);
      r, turn := Some(outcome), Turn(before, chip.flash, Some(outcome), n);
    }

    /** Reset, sync, stub and attach again; whether it worked or not, the next attempt is made. */
    method Reconnect() returns (ok: bool)
      modifies this`stub, this`reconnects, chip
      ensures chip.flash == old(chip.flash) && chip.log == old(chip.log)
      ensures (stub ==> stubAvailable) && reconnects == old(reconnects) + 1
    {
      reconnects := reconnects + 1;
      var loaded: bool := *;
      stub := loaded && stubAvailable;
      chip.Reset();
      ok := *;
    }

    /** A part, tried up to three times, with a new connection between the attempts. */
    method FlashPart(data: seq<byte>, offset: nat) returns (r: Outcome, ghost n: nat)
      requires Valid()
      modifies chip, this`stub, this`tries, this`reconnects
      ensures Valid()
      ensures 1 <= n <= 3 && (!r.Ok() ==> n == 3) && tries == old(tries) + Repeat(n, offset)
      ensures reconnects == old(reconnects) + n - 1
      ensures PartEffect(old(chip.flash), chip.flash, offset, data, r.Ok())
      ensures Settings().Easy(data, offset, |old(chip.flash)|, LargestWrite()) ==> r.Ok() && n == 1
    {
      var attempt := 0;
      r := BeginFailed;
      while attempt < PART_ATTEMPTS && !r.Ok()
        invariant Valid() && attempt <= PART_ATTEMPTS && (r.Ok() ==> attempt >= 1)
        invariant tries == old(tries) + Repeat(attempt, offset)
        invariant reconnects == old(reconnects) + if r.Ok() then attempt - 1 else Smaller(attempt, PART_ATTEMPTS - 1)
        invariant PartEffect(old(chip.flash), chip.flash, offset, data, r.Ok())
        invariant Settings().Easy(data, offset, |old(chip.flash)|, LargestWrite()) ==>
                    attempt == if r.Ok() then 1 else 0
        decreases PART_ATTEMPTS - attempt
      {
        RepeatOneMore(old(tries), attempt, offset);
        r := Attempt(data, offset);
        if !r.Ok() && attempt < PART_ATTEMPTS - 1 {
          var reconnected := Reconnect();
        }
        attempt := attempt + 1;
      }
      n := attempt;
    }
  }

  // --------------------------------------------------------------- several images

  datatype ImagePart = ImagePart(data: seq<byte>, offset: nat)

  datatype ImagesOutcome = AllFlashed | AttachFailed | HeaderUnknown(part: nat) | PartFailed(part: nat, why: Outcome)

  /** The size of a part once it is padded to a multiple of four. */
  ghost function PartSize(p: ImagePart): nat { |Image.Pad4(p.data)| }

  /** An address in the sectors that flashing the part may touch. */
  ghost predicate InExtent(p: ImagePart, blockSize: nat, a: nat)
    requires blockSize > 0
  {
    SectorDown(p.offset) <= a < ExtentEnd(p.offset, PartSize(p), blockSize)
  }

  /** No part's sectors reach into the data of a part flashed before it. */
  ghost predicate Compatible(parts: seq<ImagePart>, blockSize: nat)
    requires blockSize > 0
  {
    forall i, j :: 0 <= i < j < |parts| ==>
      parts[i].offset + PartSize(parts[i]) <= SectorDown(parts[j].offset) ||
      ExtentEnd(parts[j].offset, PartSize(parts[j]), blockSize) <= parts[i].offset
  }

  /** Every byte outside the sectors of the first k parts is as before. */
  ghost predicate OnlyExtents(before: seq<byte>, after: seq<byte>, parts: seq<ImagePart>, k: nat, blockSize: nat)
    requires k <= |parts| && blockSize > 0
  {
    |before| == |after| &&
    forall a :: 0 <= a < |after| && (forall i :: 0 <= i < k ==> !InExtent(parts[i], blockSize, a))
      ==> after[a] == before[a]
  }

  /** The data is there, or the skip option is on and the chip holds data with its digest. */
  ghost predicate Landed(setup: Setup, flash: seq<byte>, offset: nat, data: seq<byte>) {
    Holds(flash, offset, data) || (setup.skipUnchanged && SameDigest(flash, offset, |data|, data, setup.md5))
  }

  /** What is written for a part: its header patched, its length padded to a multiple of four. */
  ghost function Prepared(setup: Setup, data: seq<byte>): Option<seq<byte>> {
    match Image.Patch(setup.header, setup.target, setup.sha, data)
    case None => None
    case Some(patched) => Some(Image.Pad4(patched))
  }

  lemma PatchKeepsSize(setup: Setup, data: seq<byte>)
    ensures Prepared(setup, data).Some? ==> |Prepared(setup, data).value| == |Image.Pad4(data)|
  {
  }

  ghost predicate PartLanded(setup: Setup, flash: seq<byte>, p: ImagePart) {
    var d := Prepared(setup, p.data);
    d.Some? &&
    (setup.storesAcknowledged && setup.Fits(d.value) ==> Landed(setup, flash, p.offset, d.value))
  }

  lemma StillLanded(setup: Setup, before: seq<byte>, after: seq<byte>, p: ImagePart, low: nat, high: nat)
    requires SameOutside(before, after, low, high) && PartLanded(setup, before, p)
    requires p.offset + PartSize(p) <= low || high <= p.offset
    ensures PartLanded(setup, after, p)
  {
    var d := Prepared(setup, p.data).value;
    PatchKeepsSize(setup, p.data);
    if Holds(before, p.offset, d) {
      HoldsKept(before, after, low, high, p.offset, d);
    } else if SameDigest(before, p.offset, |d|, d, setup.md5) {
      DigestKept(before, after, low, high, p.offset, |d|, d, setup.md5);
    }
  }

  /** What flashing has done after k parts. */
  ghost predicate Flashing(setup: Setup, start: seq<byte>, flash: seq<byte>, parts: seq<ImagePart>, k: nat,
                           run: seq<nat>, blockSize: nat)
    requires k <= |parts| && blockSize > 0
  {
    && OnlyExtents(start, flash, parts, k, blockSize)
    && (Compatible(parts, blockSize) ==> forall i :: 0 <= i < k ==> PartLanded(setup, flash, parts[i]))
    && TriedInOrder(run, parts[..k])
  }

  lemma OneMoreTried(setup: Setup, start: seq<byte>, before: seq<byte>, after: seq<byte>, parts: seq<ImagePart>, k: nat,
                     run: seq<nat>, n: nat, blockSize: nat)
    requires k < |parts| && blockSize > 0 && Flashing(setup, start, before, parts, k, run, blockSize)
             && 1 <= n <= PART_ATTEMPTS
    requires SameOutside(before, after, SectorDown(parts[k].offset),
                         ExtentEnd(parts[k].offset, PartSize(parts[k]), blockSize))
    ensures OnlyExtents(start, after, parts, k + 1, blockSize)
            && TriedInOrder(run + Repeat(n, parts[k].offset), parts[..k + 1])
    ensures PartLanded(setup, after, parts[k]) ==>
              Flashing(setup, start, after, parts, k + 1, run + Repeat(n, parts[k].offset), blockSize)
  {
    OneMoreExtent(start, before, after, parts, k, blockSize);
    TriedOneMore(run, parts[..k], parts[k], n);
    PrefixExtended(parts, k);
    if Compatible(parts, blockSize) {
      EarlierStillLanded(setup, before, after, parts, k, blockSize);
    }
  }

  ghost predicate AllEasy(setup: Setup, parts: seq<ImagePart>, room: nat, blockSize: nat)
    requires blockSize > 0
  {
    forall p :: p in parts ==> setup.EasyPart(p, room, blockSize)
  }

  /** With nothing lost every turn succeeds at the first attempt. */
  lemma {:induction false} TurnsEasy(setup: Setup, start: seq<byte>, parts: seq<ImagePart>, turns: seq<Turn>,
                                     blockSize: nat)
    requires blockSize > 0 && |turns| <= |parts| && Turns(setup, start, parts, turns, blockSize)
    requires AllEasy(setup, parts, |start|, blockSize)
    ensures Going(turns) && |FlashAfter(start, turns)| == |start|
    ensures Attempts(parts, turns) == Offsets(parts[..|turns|])
    decreases |turns|
  {
    if turns != [] {
      var last := |turns| - 1;
      TurnsEasy(setup, start, parts, turns[..last], blockSize);
      EasyTurn(setup, parts[last], turns[last], blockSize);
      OffsetsTo(parts, last);
    }
  }

  lemma EasyTurn(setup: Setup, p: ImagePart, turn: Turn, blockSize: nat)
    requires blockSize > 0 && TurnOf(setup, p, turn, blockSize) && setup.EasyPart(p, |turn.before|, blockSize)
    ensures turn.Ok() && turn.tries == 1 && |turn.after| == |turn.before|
  {
  }

  lemma OffsetsTo(parts: seq<ImagePart>, k: nat)
    requires k < |parts|
    ensures Offsets(parts[..k + 1]) == Offsets(parts[..k]) + Repeat(1, parts[k].offset)
  {
    PrefixExtended(parts, k);
    OneMoreOffset(parts[..k], parts[k]);
  }

  /** Every part tried once. */
  ghost function Offsets(parts: seq<ImagePart>): seq<nat> {
    seq(|parts|, i requires 0 <= i < |parts| => parts[i].offset)
  }

  lemma OneMoreOffset(parts: seq<ImagePart>, p: ImagePart)
    ensures Offsets(parts + [p]) == Offsets(parts) + Repeat(1, p.offset)
  {
  }

  lemma PrefixExtended(parts: seq<ImagePart>, k: nat)
    requires k < |parts|
    ensures parts[..k + 1] == parts[..k] + [parts[k]]
  {
  }

  /** Flashing part k leaves the data of the earlier parts alone. */
  lemma EarlierStillLanded(setup: Setup, before: seq<byte>, after: seq<byte>, parts: seq<ImagePart>, k: nat,
                           blockSize: nat)
    requires k < |parts| && blockSize > 0 && Compatible(parts, blockSize)
    requires SameOutside(before, after, SectorDown(parts[k].offset),
                         ExtentEnd(parts[k].offset, PartSize(parts[k]), blockSize))
    requires forall i :: 0 <= i < k ==> PartLanded(setup, before, parts[i])
    ensures forall i :: 0 <= i < k ==> PartLanded(setup, after, parts[i])
  {
    forall i | 0 <= i < k
      ensures PartLanded(setup, after, parts[i])
    {
      var low, high := SectorDown(parts[k].offset), ExtentEnd(parts[k].offset, PartSize(parts[k]), blockSize);
      StillLanded(setup, before, after, parts[i], low, high);
    }
  }

  /**
   What the result of flashing several parts means: success, that every part is in flash at the same time; always,
   that no part was tried more than three times; an unknown option, that the part's header cannot be patched.
   */
  ghost predicate Reported(setup: Setup, flash: seq<byte>, parts: seq<ImagePart>, r: ImagesOutcome, attempts: seq<nat>,
                           blockSize: nat)
    requires blockSize > 0
  {
    match r
    case AllFlashed =>
      TriedInOrder(attempts, parts) &&
      (Compatible(parts, blockSize) ==> forall i :: 0 <= i < |parts| ==> PartLanded(setup, flash, parts[i]))
    case AttachFailed => attempts == []
    case HeaderUnknown(k) => k < |parts| && TriedInOrder(attempts, parts[..k]) && Prepared(setup, parts[k].data).None?
    case PartFailed(k, why) => k < |parts| && TriedInOrder(attempts, parts[..k + 1]) && !why.Ok()
  }

  // The parts, turn by turn.

  /** One turn of the loop over the parts: flash before and after it, the outcome, and the number of attempts. */
  datatype Turn = Turn(before: seq<byte>, after: seq<byte>, outcome: Option<Outcome>, tries: nat) {
    predicate Ok() { outcome.Some? && outcome.value.Ok() }
  }

  ghost predicate TurnOf(setup: Setup, p: ImagePart, turn: Turn, blockSize: nat)
    requires blockSize > 0
  {
    (setup.EasyPart(p, |turn.before|, blockSize) ==> turn.Ok() && turn.tries == 1) &&
    match turn.outcome
    case None => Prepared(setup, p.data).None? && turn.after == turn.before && turn.tries == 0
    case Some(outcome) =>
      && 1 <= turn.tries <= PART_ATTEMPTS && (!outcome.Ok() ==> turn.tries == PART_ATTEMPTS)
      && SameOutside(turn.before, turn.after, SectorDown(p.offset), ExtentEnd(p.offset, PartSize(p), blockSize))
      && (outcome.Ok() ==> PartLanded(setup, turn.after, p))
  }

  ghost function FlashAfter(start: seq<byte>, turns: seq<Turn>): seq<byte> {
    if turns == [] then start else turns[|turns| - 1].after
  }

  /** No turn so far has ended the loop. */
  ghost predicate Going(turns: seq<Turn>) {
    turns == [] || turns[|turns| - 1].Ok()
  }

  /** The turns are those of the first parts; each starts where the one before succeeded and ended. */
  ghost predicate Turns(setup: Setup, start: seq<byte>, parts: seq<ImagePart>, turns: seq<Turn>, blockSize: nat)
    requires blockSize > 0
    decreases |turns|
  {
    turns == [] ||
    (var last := |turns| - 1;
     && |turns| <= |parts| && Turns(setup, start, parts, turns[..last], blockSize) && Going(turns[..last])
     && turns[last].before == FlashAfter(start, turns[..last]) && TurnOf(setup, parts[last], turns[last], blockSize))
  }

  ghost function Attempts(parts: seq<ImagePart>, turns: seq<Turn>): seq<nat>
    requires |turns| <= |parts|
    decreases |turns|
  {
    if turns == [] then []
    else Attempts(parts, turns[..|turns| - 1]) + Repeat(turns[|turns| - 1].tries, parts[|turns| - 1].offset)
  }

  lemma TurnsExtend(setup: Setup, start: seq<byte>, parts: seq<ImagePart>, turns: seq<Turn>, turn: Turn, blockSize: nat)
    requires blockSize > 0 && |turns| < |parts| && Turns(setup, start, parts, turns, blockSize) && Going(turns)
    requires turn.before == FlashAfter(start, turns)
    ensures TurnOf(setup, parts[|turns|], turn, blockSize) ==> Turns(setup, start, parts, turns + [turn], blockSize)
    ensures FlashAfter(start, turns + [turn]) == turn.after
    ensures Attempts(parts, turns + [turn]) == Attempts(parts, turns) + Repeat(turn.tries, parts[|turns|].offset)
  {
    assert (turns + [turn])[..|turns|] == turns;
  }

  lemma {:induction false} TurnsMean(setup: Setup, start: seq<byte>, parts: seq<ImagePart>, turns: seq<Turn>,
                                     blockSize: nat)
    requires blockSize > 0 && |turns| <= |parts| && Turns(setup, start, parts, turns, blockSize) && Going(turns)
    ensures Flashing(setup, start, FlashAfter(start, turns), parts, |turns|, Attempts(parts, turns), blockSize)
    decreases |turns|
  {
    if turns == [] {
      assert parts[..0] == [];
    } else {
      var k := |turns| - 1;
      TurnsMean(setup, start, parts, turns[..k], blockSize);
      OneMoreTried(setup, start, turns[k].before, turns[k].after, parts, k, Attempts(parts, turns[..k]),
                   turns[k].tries, blockSize);
    }
  }

  /** After a turn that ended the loop. */
  lemma StoppedMeans(setup: Setup, start: seq<byte>, parts: seq<ImagePart>, turns: seq<Turn>, blockSize: nat)
    requires blockSize > 0 && 0 < |turns| <= |parts| && Turns(setup, start, parts, turns, blockSize) && !Going(turns)
    ensures var k := |turns| - 1;
            var r := match turns[k].outcome case None => HeaderUnknown(k) case Some(why) => PartFailed(k, why);
            && OnlyExtents(start, FlashAfter(start, turns), parts, |parts|, blockSize)
            && Reported(setup, FlashAfter(start, turns), parts, r, Attempts(parts, turns), blockSize)
    ensures !AllEasy(setup, parts, |start|, blockSize)
  {
    var k := |turns| - 1;
    if AllEasy(setup, parts, |start|, blockSize) {
      TurnsEasy(setup, start, parts, turns, blockSize);
      assert false;
    }
    TurnsMean(setup, start, parts, turns[..k], blockSize);
    if turns[k].outcome.None? {
      HeaderStopped(setup, start, parts, k, Attempts(parts, turns[..k]), turns[k], blockSize);
    } else {
      PartStopped(setup, start, parts, k, Attempts(parts, turns[..k]), turns[k], blockSize);
    }
  }

  /** What the parts came to: the end of the list, or the part that stopped it. */
  ghost function Result(turns: seq<Turn>): ImagesOutcome {
    if Going(turns) then AllFlashed
    else
      match turns[|turns| - 1].outcome
      case None => HeaderUnknown(|turns| - 1)
      case Some(why) => PartFailed(|turns| - 1, why)
  }

  lemma TurnsReport(setup: Setup, start: seq<byte>, parts: seq<ImagePart>, turns: seq<Turn>, blockSize: nat)
    requires blockSize > 0 && Turns(setup, start, parts, turns, blockSize)
    requires |turns| <= |parts| && (Going(turns) ==> |turns| == |parts|)
    ensures OnlyExtents(start, FlashAfter(start, turns), parts, |parts|, blockSize)
    ensures Reported(setup, FlashAfter(start, turns), parts, Result(turns), Attempts(parts, turns), blockSize)
    ensures AllEasy(setup, parts, |start|, blockSize) ==>
              Result(turns).AllFlashed? && Attempts(parts, turns) == Offsets(parts)
  {
    if Going(turns) {
      DoneMeans(setup, start, parts, turns, blockSize);
      AllTriedOnce(setup, start, parts, turns, blockSize);
    } else {
      StoppedMeans(setup, start, parts, turns, blockSize);
    }
  }

  lemma HeaderStopped(setup: Setup, start: seq<byte>, parts: seq<ImagePart>, k: nat, run: seq<nat>, turn: Turn,
                      blockSize: nat)
    requires k < |parts| && blockSize > 0 && Flashing(setup, start, turn.before, parts, k, run, blockSize)
    requires TurnOf(setup, parts[k], turn, blockSize) && turn.outcome.None?
    ensures OnlyExtents(start, turn.after, parts, |parts|, blockSize)
    ensures Reported(setup, turn.after, parts, HeaderUnknown(k), run + Repeat(turn.tries, parts[k].offset), blockSize)
  {
    assert run + Repeat(0, parts[k].offset) == run;
    MoreExtents(start, turn.after, parts, k, blockSize);
  }

  lemma PartStopped(setup: Setup, start: seq<byte>, parts: seq<ImagePart>, k: nat, run: seq<nat>, turn: Turn,
                    blockSize: nat)
    requires k < |parts| && blockSize > 0 && Flashing(setup, start, turn.before, parts, k, run, blockSize)
    requires TurnOf(setup, parts[k], turn, blockSize) && turn.outcome.Some? && !turn.outcome.value.Ok()
    ensures OnlyExtents(start, turn.after, parts, |parts|, blockSize)
    ensures var r := PartFailed(k, turn.outcome.value);
            Reported(setup, turn.after, parts, r, run + Repeat(turn.tries, parts[k].offset), blockSize)
  {
    OneMoreTried(setup, start, turn.before, turn.after, parts, k, run, turn.tries, blockSize);
    MoreExtents(start, turn.after, parts, k + 1, blockSize);
  }

  lemma AllTriedOnce(setup: Setup, start: seq<byte>, parts: seq<ImagePart>, turns: seq<Turn>, blockSize: nat)
    requires blockSize > 0 && |turns| == |parts| && Turns(setup, start, parts, turns, blockSize)
    ensures AllEasy(setup, parts, |start|, blockSize) ==> Attempts(parts, turns) == Offsets(parts)
  {
    if AllEasy(setup, parts, |start|, blockSize) {
      TurnsEasy(setup, start, parts, turns, blockSize);
      assert parts[..|parts|] == parts;
    }
  }

  lemma DoneMeans(setup: Setup, start: seq<byte>, parts: seq<ImagePart>, turns: seq<Turn>, blockSize: nat)
    requires blockSize > 0 && |turns| == |parts| && Turns(setup, start, parts, turns, blockSize) && Going(turns)
    ensures OnlyExtents(start, FlashAfter(start, turns), parts, |parts|, blockSize)
    ensures Reported(setup, FlashAfter(start, turns), parts, AllFlashed, Attempts(parts, turns), blockSize)
  {
    TurnsMean(setup, start, parts, turns, blockSize);
    assert parts[..|parts|] == parts;
  }

  /** The attempts: the parts in order, each one to three times. */
  ghost predicate TriedInOrder(log: seq<nat>, parts: seq<ImagePart>)
    decreases |parts|
  {
    if parts == [] then log == []
    else
      var rest, last := parts[..|parts| - 1], parts[|parts| - 1].offset;
      exists n :: 1 <= n <= PART_ATTEMPTS && n <= |log| && log[|log| - n..] == Repeat(n, last) &&
                  TriedInOrder(log[..|log| - n], rest)
  }

  ghost function Repeat(n: nat, x: nat): (r: seq<nat>)
    ensures |r| == n
  {
    seq(n, _ => x)
  }

  lemma RepeatOneMore(log: seq<nat>, n: nat, x: nat)
    ensures (log + Repeat(n, x)) + [x] == log + Repeat(n + 1, x)
  {
  }

  lemma TriedOneMore(log: seq<nat>, parts: seq<ImagePart>, p: ImagePart, n: nat)
    requires TriedInOrder(log, parts) && 1 <= n <= PART_ATTEMPTS
    ensures TriedInOrder(log + Repeat(n, p.offset), parts + [p])
  {
    var all := log + Repeat(n, p.offset);
    var grown := parts + [p];
    assert grown[|grown| - 1] == p && grown[..|grown| - 1] == parts;
    assert all[|all| - n..] == Repeat(n, grown[|grown| - 1].offset) && all[..|all| - n] == log;
  }

  lemma OneMoreExtent(start: seq<byte>, before: seq<byte>, after: seq<byte>, parts: seq<ImagePart>, k: nat,
                      blockSize: nat)
    requires k < |parts| && blockSize > 0 && OnlyExtents(start, before, parts, k, blockSize)
    requires SameOutside(before, after, SectorDown(parts[k].offset),
                         ExtentEnd(parts[k].offset, PartSize(parts[k]), blockSize))
    ensures OnlyExtents(start, after, parts, k + 1, blockSize)
  {
    forall a | 0 <= a < |after| && (forall i :: 0 <= i < k + 1 ==> !InExtent(parts[i], blockSize, a))
      ensures after[a] == start[a]
    {
      assert !InExtent(parts[k], blockSize, a);
    }
  }

  lemma MoreExtents(start: seq<byte>, flash: seq<byte>, parts: seq<ImagePart>, k: nat, blockSize: nat)
    requires k <= |parts| && blockSize > 0 && OnlyExtents(start, flash, parts, k, blockSize)
    ensures OnlyExtents(start, flash, parts, |parts|, blockSize)
  {
  }

  lemma DigestKept(a: seq<byte>, b: seq<byte>, low: nat, high: nat, at: nat, size: nat, data: seq<byte>, md5: Digest)
    requires SameOutside(a, b, low, high) && SameDigest(a, at, size, data, md5) && (at + size <= low || high <= at)
    ensures SameDigest(b, at, size, data, md5)
  {
    assert a[at..at + size] == b[at..at + size];
  }

  lemma ExtentWithin(offset: nat, size: nat, writeSize: nat, largest: nat)
    requires (writeSize == WRITE_SIZE_ROM || writeSize == WRITE_SIZE_STUB)
             && (largest == writeSize || largest == WRITE_SIZE_STUB)
    ensures ExtentEnd(offset, size % TWO32, writeSize) <= ExtentEnd(offset, size, largest)
  {
    var n := size % TWO32;
    assert n <= size;
    SpanIsProduct(Count(n, writeSize), writeSize);
    SpanIsProduct(Count(size, largest), largest);
    SectorUpMonotone(offset + Span(Count(n, writeSize), writeSize), offset + Span(Count(size, largest), largest));
  }

  /** The invariant of the compressed block loop. */
  ghost predicate DeflProgress(compressed: seq<byte>, writeSize: nat, sent: nat, done: seq<seq<byte>>,
                               staged: seq<byte>, run: seq<Event>)
    requires writeSize > 0
  {
    && sent <= |compressed| && staged == compressed[..sent]
    && Split(compressed, writeSize, false) == done + BlocksFrom(compressed, sent, writeSize, false)
    && SentInOrder(run, true, done)
  }

  lemma DeflOneMore(compressed: seq<byte>, writeSize: nat, sent: nat, done: seq<seq<byte>>, run: seq<Event>, tries: nat)
    requires writeSize > 0 && sent < |compressed| && 1 <= tries <= BLOCK_ATTEMPTS
    requires DeflProgress(compressed, writeSize, sent, done, compressed[..sent], run)
    ensures var block := BlockAt(compressed, sent, writeSize, false);
            DeflProgress(compressed, writeSize, sent + Smaller(|compressed| - sent, writeSize), done + [block],
                         compressed[..sent] + block, run + Acked(tries, true, |done|, block))
  {
    var block, next := BlockAt(compressed, sent, writeSize, false), sent + Smaller(|compressed| - sent, writeSize);
    assert compressed[..next] == compressed[..sent] + block;
    assert Split(compressed, writeSize, false) == (done + [block]) + BlocksFrom(compressed, next, writeSize, false) by {
      SplitOneMore(Split(compressed, writeSize, false), compressed, writeSize, sent, done, false);
    }
    assert SentInOrder(run + Acked(tries, true, |done|, block), true, done + [block]) by {
      SentOneMore(run, true, done, tries, block);
    }
  }

  lemma DeflStoppedAt(compressed: seq<byte>, writeSize: nat, sent: nat, done: seq<seq<byte>>, run: seq<Event>,
                      log: seq<Event>, begin: Event)
    requires writeSize > 0 && sent < |compressed|
    requires DeflProgress(compressed, writeSize, sent, done, compressed[..sent], run)
    ensures var tried := GivenUp(true, |done|, BlockAt(compressed, sent, writeSize, false));
            Transcript(log, log + [begin] + run + tried, begin, true, Split(compressed, writeSize, false), [],
                       BlockFailed(|done|))
  {
    var all := Split(compressed, writeSize, false);
    assert all[|done|] == BlockAt(compressed, sent, writeSize, false) && all[..|done|] == done;
    TranscriptStopped(log, begin, run, true, all, |done|);
  }

  /** What the block loop has done when it ends. */
  ghost predicate BlocksWritten(stores: bool, start: seq<byte>, flash: seq<byte>, image: seq<byte>, offset: nat,
                                writeSize: nat, r: Outcome)
    requires writeSize > 0
  {
    var n := Count(|image|, writeSize);
    && SameOutside(start, flash, offset, offset + Span(n, writeSize))
    && (r.AllSent() ==>
         |image| <= Span(n, writeSize)
         && (stores ==> Holds(flash, offset, Flashed(image, writeSize, n))))
    && (r.BlockFailed? ==>
         Span(r.block, writeSize) < |image|
         && (stores ==> Holds(flash, offset, image[..Span(r.block, writeSize)])))
  }

  /**
   What an uncompressed download does to flash. Nothing outside the sectors of its blocks changes, whatever is
   lost; success leaves the image and erased bytes after it to the end of its last block; a failure at a block
   leaves the blocks before it.
   */
  ghost predicate Downloaded(stores: bool, start: seq<byte>, flash: seq<byte>, image: seq<byte>, offset: nat,
                             writeSize: nat, r: Outcome)
    requires writeSize > 0
  {
    var n := Count(|image|, writeSize);
    && SameOutside(start, flash, SectorDown(offset), ExtentEnd(offset, |image|, writeSize))
    && (r.AllSent() ==>
         |image| <= Span(n, writeSize)
         && (stores ==> Holds(flash, offset, Flashed(image, writeSize, n))))
    && (r.BlockFailed? ==>
         Span(r.block, writeSize) < |image|
         && (stores ==> Holds(flash, offset, image[..Span(r.block, writeSize)])))
  }

  lemma WithinSectors(stores: bool, start: seq<byte>, erased: seq<byte>, flash: seq<byte>, image: seq<byte>,
                      offset: nat, writeSize: nat, eraseSize: nat, r: Outcome)
    requires writeSize > 0 && BlocksWritten(stores, erased, flash, image, offset, writeSize, r)
    requires SameOutside(start, erased, SectorDown(offset), SectorUp(offset + eraseSize))
    requires SectorUp(offset + eraseSize) <= ExtentEnd(offset, |image|, writeSize)
    ensures Downloaded(stores, start, flash, image, offset, writeSize, r)
  {
    SectorUpCovers(offset + Span(Count(|image|, writeSize), writeSize));
  }

  lemma WholeImage(data: seq<byte>)
    requires |data| < TWO32
    ensures data[..|data| % TWO32] == data
  {
  }

  lemma ImageLanded(stores: bool, start: seq<byte>, flash: seq<byte>, data: seq<byte>, offset: nat, writeSize: nat)
    requires writeSize > 0 && Downloaded(stores, start, flash, data[..|data| % TWO32], offset, writeSize, Written)
    ensures stores && |data| < TWO32 ==> Holds(flash, offset, data)
  {
    if stores && |data| < TWO32 {
      WholeImage(data);
      HoldsPrefix(flash, offset, data, Erased(Span(Count(|data|, writeSize), writeSize) - |data|));
    }
  }

  lemma SectorUpCovers(x: nat)
    ensures x <= SectorUp(x)
  {
  }

  /** The invariant of the block loop: `done` are the blocks acknowledged so far. */
  ghost predicate Progress(stores: bool, image: seq<byte>, offset: nat, writeSize: nat, sent: nat, done: seq<seq<byte>>,
                           start: seq<byte>, flash: seq<byte>, run: seq<Event>)
    requires writeSize > 0
  {
    var n := Count(|image|, writeSize);
    && sent <= |image| && sent <= Span(|done|, writeSize) && (sent < |image| ==> sent == Span(|done|, writeSize))
    && Split(image, writeSize, true) == done + BlocksFrom(image, sent, writeSize, true)
    && |Split(image, writeSize, true)| == n
    && SameOutside(start, flash, offset, offset + Span(n, writeSize))
    && (stores ==> Holds(flash, offset, Flashed(image[..sent], writeSize, |done|)))
    && SentInOrder(run, false, done)
  }

  lemma NoneStored(stores: bool, start: seq<byte>, image: seq<byte>, offset: nat, writeSize: nat)
    requires writeSize > 0
    ensures Progress(stores, image, offset, writeSize, 0, [], start, start, [])
  {
    BlocksCount(image, 0, writeSize, true);
    assert image[..0] == [];
  }

  /** The block at hand lies within the span of all blocks. */
  lemma NextBlock(stores: bool, image: seq<byte>, offset: nat, writeSize: nat, sent: nat, done: seq<seq<byte>>,
                  start: seq<byte>, flash: seq<byte>, run: seq<Event>)
    requires writeSize > 0 && sent < |image|
    requires Progress(stores, image, offset, writeSize, sent, done, start, flash, run)
    ensures var all := Split(image, writeSize, true);
            && |done| < |all| && all[|done|] == BlockAt(image, sent, writeSize, true) && all[..|done|] == done
            && Span(|done| + 1, writeSize) == sent + writeSize <= Span(|all|, writeSize)
  {
    SpanMonotone(|done| + 1, |Split(image, writeSize, true)|, writeSize);
  }

  lemma FlashedLonger(image: seq<byte>, writeSize: nat, sent: nat, blocks: nat)
    requires writeSize > 0 && sent < |image| && sent == Span(blocks, writeSize)
    ensures Flashed(image[..sent], writeSize, blocks) == image[..sent]
    ensures var next := sent + Smaller(|image| - sent, writeSize);
            Flashed(image[..next], writeSize, blocks + 1) == image[..sent] + BlockAt(image, sent, writeSize, true)
  {
    var next := sent + Smaller(|image| - sent, writeSize);
    assert image[..next] == image[..sent] + image[sent..next];
  }

  lemma StoredLonger(image: seq<byte>, offset: nat, writeSize: nat, sent: nat, blocks: nat, before: seq<byte>,
                     after: seq<byte>)
    requires writeSize > 0 && sent < |image| && sent == Span(blocks, writeSize)
    requires Holds(before, offset, Flashed(image[..sent], writeSize, blocks))
    requires SameOutside(before, after, offset + sent, offset + sent + writeSize)
    requires Holds(after, offset + sent, BlockAt(image, sent, writeSize, true))
    ensures var next := sent + Smaller(|image| - sent, writeSize);
            next <= Span(blocks + 1, writeSize) && Holds(after, offset, Flashed(image[..next], writeSize, blocks + 1))
  {
    var next := sent + Smaller(|image| - sent, writeSize);
    var block := BlockAt(image, sent, writeSize, true);
    FlashedLonger(image, writeSize, sent, blocks);
    HoldsKept(before, after, offset + sent, offset + sent + writeSize, offset, image[..sent]);
    HoldsAppend(after, offset, image[..sent], block);
  }

  lemma SplitOneMore(all: seq<seq<byte>>, image: seq<byte>, writeSize: nat, sent: nat, done: seq<seq<byte>>, fill: bool)
    requires writeSize > 0 && sent < |image| && all == done + BlocksFrom(image, sent, writeSize, fill)
    ensures var next := sent + Smaller(|image| - sent, writeSize);
            all == (done + [BlockAt(image, sent, writeSize, fill)]) + BlocksFrom(image, next, writeSize, fill)
  {
  }

  /** An acknowledged block extends what flash holds. */
  lemma StoredOneMore(stores: bool, image: seq<byte>, offset: nat, writeSize: nat, sent: nat, done: seq<seq<byte>>,
                      start: seq<byte>, before: seq<byte>, after: seq<byte>, run: seq<Event>, tries: nat)
    requires writeSize > 0 && sent < |image|
    requires Progress(stores, image, offset, writeSize, sent, done, start, before, run)
    requires SameOutside(before, after, offset + sent, offset + sent + writeSize) && 1 <= tries <= BLOCK_ATTEMPTS
    requires stores ==> Holds(after, offset + sent, BlockAt(image, sent, writeSize, true))
    ensures var block := BlockAt(image, sent, writeSize, true);
            Progress(stores, image, offset, writeSize, sent + Smaller(|image| - sent, writeSize), done + [block],
                     start, after, run + Acked(tries, false, |done|, block))
  {
    var block := BlockAt(image, sent, writeSize, true);
    NextBlock(stores, image, offset, writeSize, sent, done, start, before, run);
    SplitOneMore(Split(image, writeSize, true), image, writeSize, sent, done, true);
    if stores {
      StoredLonger(image, offset, writeSize, sent, |done|, before, after);
    }
    SentOneMore(run, false, done, tries, block);
    SameOutsideTrans(start, before, after, offset, offset + Span(Count(|image|, writeSize), writeSize), offset + sent,
                     offset + sent + writeSize);
  }

  lemma StoppedAt(stores: bool, image: seq<byte>, offset: nat, writeSize: nat, sent: nat, done: seq<seq<byte>>,
                  start: seq<byte>, before: seq<byte>, after: seq<byte>, run: seq<Event>, log: seq<Event>, begin: Event)
    requires writeSize > 0 && sent < |image|
    requires Progress(stores, image, offset, writeSize, sent, done, start, before, run)
    requires SameOutside(before, after, offset + sent, offset + sent + writeSize)
    ensures BlocksWritten(stores, start, after, image, offset, writeSize, BlockFailed(|done|))
    ensures var tried := GivenUp(false, |done|, BlockAt(image, sent, writeSize, true));
            Transcript(log, log + [begin] + run + tried, begin, false, Split(image, writeSize, true), [],
                       BlockFailed(|done|))
  {
    NextBlock(stores, image, offset, writeSize, sent, done, start, before, run);
    if stores {
      assert Flashed(image[..sent], writeSize, |done|) == image[..sent];
      HoldsKept(before, after, offset + sent, offset + sent + writeSize, offset, image[..sent]);
    }
    SameOutsideTrans(start, before, after, offset, offset + Span(Count(|image|, writeSize), writeSize), offset + sent,
                     offset + sent + writeSize);
    TranscriptStopped(log, begin, run, false, Split(image, writeSize, true), |done|);
  }

  lemma AllStored(stores: bool, image: seq<byte>, offset: nat, writeSize: nat, done: seq<seq<byte>>, start: seq<byte>,
                  flash: seq<byte>, run: seq<Event>, log: seq<Event>, begin: Event)
    requires writeSize > 0 && Progress(stores, image, offset, writeSize, |image|, done, start, flash, run)
    ensures BlocksWritten(stores, start, flash, image, offset, writeSize, Written)
    ensures Split(image, writeSize, true) == done
    ensures Transcript(log, log + [begin] + run, begin, false, Split(image, writeSize, true), [], Written)
  {
    assert image[..|image|] == image && Split(image, writeSize, true) == done;
    TranscriptComplete(log, begin, run, false, done);
  }

  /** What the begin command may erase lies in the sectors of the blocks. */
  lemma EraseWithin(offset: nat, eraseSize: nat, size: nat, writeSize: nat)
    requires 0 < writeSize < TWO32 && size < TWO32
    requires eraseSize == size || eraseSize == Count32(size, writeSize) * writeSize % TWO32
    ensures SectorUp(offset + eraseSize) <= ExtentEnd(offset, size, writeSize)
  {
    CountCovers(size, writeSize);
    CountNoMore(size, writeSize);
    SpanIsProduct(Count32(size, writeSize), writeSize);
    SpanMonotone(Count32(size, writeSize), Count(size, writeSize), writeSize);
    SectorUpMonotone(offset + eraseSize, offset + Span(Count(size, writeSize), writeSize));
  }

  lemma TargetWithin(offset: nat, target: nat, size: nat, writeSize: nat)
    requires 0 < writeSize < TWO32 && size < TWO32
    requires target == size || target == Count32(size, writeSize) * writeSize % TWO32
    ensures SectorDown(offset) <= offset && offset + target <= SectorUp(offset + target)
            <= ExtentEnd(offset, size, writeSize)
  {
    EraseWithin(offset, target, size, writeSize);
    SectorUpCovers(offset + target);
  }

  lemma CountNoMore(size: nat, blockSize: nat)
    requires 0 < blockSize <= TWO32 && size < TWO32
    ensures Count32(size, blockSize) <= Count(size, blockSize)
  {
    var x := size + blockSize - 1;
    if x >= TWO32 {
      assert x % TWO32 == x - TWO32;
      DivisionDrops(x, TWO32, blockSize);
    }
  }

  lemma SectorUpMonotone(x: nat, y: nat)
    requires x <= y
    ensures SectorUp(x) <= SectorUp(y)
  {
    var a, b := x + SECTOR - 1, y + SECTOR - 1;
    assert a == SECTOR * (a / SECTOR) + a % SECTOR && b == SECTOR * (b / SECTOR) + b % SECTOR;
    assert a / SECTOR <= b / SECTOR;
  }
}
