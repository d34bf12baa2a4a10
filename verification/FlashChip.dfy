/**
 The chip at the far end of a download, as the commands of internal/espflash/protocol.go drive it.

 Any command or acknowledgement may be lost, and a block that is not acknowledged may have left anything
 in its place. A chip that stores what it acknowledges has an acknowledged block at offset + seq * blockSize;
 its stub inflates the blocks it accepted in sequence order, a block that is sent again counting once, and has
 written the result when it acknowledges the end of the download. Any other chip may acknowledge and not store.
 On a healthy chip nothing is lost: it carries out and acknowledges every command that fits its flash.
 */
module FlashChip {
  import opened Wrappers
  import opened Bytes
  import opened Blocks

  const SECTOR: nat := 0x1000

  function SectorDown(x: nat): nat { x - x % SECTOR }
  function SectorUp(x: nat): nat { SectorDown(x + SECTOR - 1) }

  ghost predicate SameOutside(a: seq<byte>, b: seq<byte>, low: nat, high: nat) {
    |a| == |b| && forall i :: 0 <= i < |a| && !(low <= i < high) ==> a[i] == b[i]
  }

  predicate Holds(flash: seq<byte>, at: nat, data: seq<byte>) {
    data == [] || (at + |data| <= |flash| && flash[at..at + |data|] == data)
  }

  function Overwrite(flash: seq<byte>, at: nat, data: seq<byte>): (r: seq<byte>)
    requires at + |data| <= |flash|
    ensures SameOutside(flash, r, at, at + |data|) && Holds(r, at, data)
  {
    flash[..at] + data + flash[at + |data|..]
  }

  /** Every command of a download, and whether it was acknowledged: the announcement, the blocks, the end. */
  datatype Event =
    | Begin(deflated: bool, size: nat, blocks: nat, blockSize: nat, offset: nat, ok: bool)
    | Data(deflated: bool, number: nat, block: seq<byte>, ok: bool)
    | End(deflated: bool, ok: bool)

  type Digest = seq<byte> -> seq<byte>

  /** A digest request, what was in flash then, and the reply if there was one. */
  datatype Query = Query(at: nat, size: nat, flash: seq<byte>, reply: Option<seq<byte>>)

  class Chip {
    const md5: Digest
    const inflate: seq<byte> -> seq<byte>
    const storesAcknowledged: bool
    const healthy: bool
    var flash: seq<byte>
    var base: nat
    var blockSize: nat
    var staged: seq<byte>   // compressed bytes accepted since the download began
    var next: nat           // the number of the next block to accept
    var target: nat         // how many bytes the compressed download will fill
    ghost var log: seq<Event>
    ghost var asked: Option<Query>   // the last digest request

    constructor (md5: Digest, inflate: seq<byte> -> seq<byte>, storesAcknowledged: bool, healthy: bool,
                 flash: seq<byte>)
      ensures this.md5 == md5 && this.inflate == inflate
      ensures this.storesAcknowledged == storesAcknowledged && this.healthy == healthy
      ensures this.flash == flash && log == [] && asked == None
    {
      this.md5, this.inflate, this.flash := md5, inflate, flash;
      this.storesAcknowledged, this.healthy := storesAcknowledged, healthy;
      base, blockSize, staged, next, target, log, asked := 0, 1, [], 0, 0, [], None;
    }

    /** Whether a command reaches the chip, and whether its reply reaches the host. */
    method Fates() returns (received: bool, acknowledged: bool)
      ensures healthy ==> received && acknowledged
    {
      received, acknowledged := *, *;
      received, acknowledged := received || healthy, acknowledged || healthy;
    }

    method FlashBegin(eraseSize: nat, blocks: nat, size: nat, offset: nat) returns (ok: bool)
      modifies this
      ensures log == old(log) + [Begin(false, eraseSize, blocks, size, offset, ok)] && (healthy ==> ok)
      ensures SameOutside(old(flash), flash, SectorDown(offset), SectorUp(offset + eraseSize))
      ensures ok ==> base == offset && blockSize == size
    {
      var received, acknowledged := Fates();
      if received {
        base, blockSize := offset, size;
        MayErase(offset, eraseSize);
      }
      ok := received && acknowledged;
      log := log + [Begin(false, eraseSize, blocks, size, offset, ok)];
    }

    method MayErase(offset: nat, size: nat)
      modifies this`flash
      ensures SameOutside(old(flash), flash, SectorDown(offset), SectorUp(offset + size))
    {
      var erases: bool := *;
      if erases {
        var low, high, f := SectorDown(offset), SectorUp(offset + size), flash;
        flash := seq(|f|, i requires 0 <= i < |f| => if low <= i < high then ERASED else f[i]);
      }
    }

    method FlashData(block: seq<byte>, number: nat) returns (ok: bool)
      modifies this`flash, this`log
      ensures log == old(log) + [Data(false, number, block, ok)]
      ensures var at := base + Span(number, blockSize);
              && SameOutside(old(flash), flash, at, at + |block|)
              && (ok && storesAcknowledged ==> Holds(flash, at, block))
              && (healthy && at + |block| <= |flash| ==> ok)
    {
      var at := base + Span(number, blockSize);
      var received, acknowledged := Fates();
      ok := false;
      if received && at + |block| <= |flash| {
        assert |block| == |block|;   // block itself is such a sequence
        var written :| |written| == |block| && (healthy ==> written == block);
        flash := Overwrite(flash, at, written);
        ok := acknowledged && (written == block || !storesAcknowledged);
      } else if !storesAcknowledged {
        ok := acknowledged;
      }
      log := log + [Data(false, number, block, ok)];
    }

    method FlashDeflBegin(size: nat, blocks: nat, blockLen: nat, offset: nat) returns (ok: bool)
      modifies this
      ensures log == old(log) + [Begin(true, size, blocks, blockLen, offset, ok)] && (healthy ==> ok)
      ensures SameOutside(old(flash), flash, SectorDown(offset), SectorUp(offset + size))
      ensures ok ==> base == offset && blockSize == blockLen && staged == [] && next == 0 && target == size
    {
      var received, acknowledged := Fates();
      if received {
        base, blockSize, staged, next, target := offset, blockLen, [], 0, size;
        MayErase(offset, size);
      }
      ok := received && acknowledged;
      log := log + [Begin(true, size, blocks, blockLen, offset, ok)];
    }

    /** A block is accepted when its number is the next one; flash is written behind, inside the target. */
    method FlashDeflData(block: seq<byte>, number: nat) returns (ok: bool)
      modifies this`flash, this`log, this`staged, this`next
      ensures log == old(log) + [Data(true, number, block, ok)] && (healthy && number == old(next) ==> ok)
      ensures SameOutside(old(flash), flash, base, base + target)
      ensures (staged == old(staged) && next == old(next)) ||
              (number == old(next) && staged == old(staged) + block && next == old(next) + 1)
      ensures ok ==> number < next
    {
      var received, acknowledged := Fates();
      if received && number == next {
        staged, next := staged + block, next + 1;
        WriteBehind();
      }
      ok := received && acknowledged && number < next;
      log := log + [Data(true, number, block, ok)];
    }

    method WriteBehind()
      modifies this`flash
      ensures SameOutside(old(flash), flash, base, base + target)
    {
      if base + target <= |flash| {
        assert |seq(target, _ => ERASED)| == target;
        var written: seq<byte> :| |written| == target;
        flash := Overwrite(flash, base, written);
      }
    }

    /** The write barrier of a compressed download. */
    method FlashDeflEnd() returns (ok: bool)
      modifies this`flash, this`log
      ensures log == old(log) + [End(true, ok)]
      ensures SameOutside(old(flash), flash, base, base + target)
      ensures ok && storesAcknowledged && |inflate(staged)| == target ==> Holds(flash, base, inflate(staged))
      ensures healthy && base + target <= |flash| ==> ok
    {
      var received, acknowledged := Fates();
      ok := false;
      if received {
        if storesAcknowledged && |inflate(staged)| == target && base + target <= |flash| {
          flash := Overwrite(flash, base, inflate(staged));
          ok := acknowledged;
        } else if |inflate(staged)| != target || !storesAcknowledged {
          ok := acknowledged;
        }
      }
      log := log + [End(true, ok)];
    }

    method FlashEnd() returns (ok: bool)
      modifies this`log
      ensures log == old(log) + [End(false, ok)] && (healthy ==> ok)
    {
      ok := *;
      ok := ok || healthy;
      log := log + [End(false, ok)];
    }

    /** A reset: any session is lost, flash keeps its contents. */
    method Reset()
      modifies this
      ensures flash == old(flash) && log == old(log)
    {
      base, blockSize, staged, next, target := *, *, *, *, *;
    }

    method FlashMD5(at: nat, size: nat) returns (digest: Option<seq<byte>>)
      modifies this`asked
      ensures asked == Some(Query(at, size, flash, digest))
      ensures digest.Some? ==> at + size <= |flash| && digest.value == md5(flash[at..at + size])
      ensures healthy && at + size <= |flash| ==> digest.Some?
    {
      var answers: bool := *;
      digest := if (answers || healthy) && at + size <= |flash| then Some(md5(flash[at..at + size])) else None;
      asked := Some(Query(at, size, flash, digest));
    }

    /** The last digest request was for this range of flash as it is now, and its reply, if any, was the image's. */
    ghost predicate Vouched(data: seq<byte>, size: nat, at: nat)
      reads this
    {
      asked.Some? && asked.value.(reply := None) == Query(at, size, flash, None) &&
      (asked.value.reply.None? || asked.value.reply.value == md5(data))
    }

    /** Its reply was another digest. */
    ghost predicate Denied(data: seq<byte>, size: nat, at: nat)
      reads this
    {
      asked.Some? && asked.value.(reply := None) == Query(at, size, flash, None) &&
      asked.value.reply.Some? && asked.value.reply.value != md5(data)
    }

    ghost predicate Answered()
      reads this
    {
      asked.Some? && asked.value.reply.Some?
    }
  }

  lemma SameOutsideTrans(a: seq<byte>, b: seq<byte>, c: seq<byte>, low: nat, high: nat, low': nat, high': nat)
    requires SameOutside(a, b, low, high) && SameOutside(b, c, low', high') && low <= low' && high' <= high
    ensures SameOutside(a, c, low, high)
  {
  }

  lemma HoldsKept(a: seq<byte>, b: seq<byte>, low: nat, high: nat, at: nat, data: seq<byte>)
    requires SameOutside(a, b, low, high) && Holds(a, at, data) && (at + |data| <= low || high <= at)
    ensures Holds(b, at, data)
  {
  }

  lemma HoldsAppend(flash: seq<byte>, at: nat, x: seq<byte>, y: seq<byte>)
    requires Holds(flash, at, x) && Holds(flash, at + |x|, y)
    ensures Holds(flash, at, x + y)
  {
    if x == [] {
      assert x + y == y;
    } else if y == [] {
      assert x + y == x;
    } else {
      assert flash[at..at + |x + y|] == flash[at..at + |x|] + flash[at + |x|..at + |x| + |y|];
    }
  }

  lemma HoldsPrefix(flash: seq<byte>, at: nat, x: seq<byte>, y: seq<byte>)
    requires Holds(flash, at, x + y)
    ensures Holds(flash, at, x)
  {
    if x != [] {
      assert flash[at..at + |x|] == flash[at..at + |x + y|][..|x|] == x;
    }
  }
}
