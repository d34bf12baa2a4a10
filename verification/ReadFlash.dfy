/**
 Reading flash back through the stub (`readFlash` of internal/espflash/protocol.go): one command, then
 data frames that the host acknowledges with the number of bytes it has, then a digest frame.
 */
module ReadFlash {
  import opened Wrappers
  import opened Bytes
  import opened Slip
  import opened Serial
  import opened Command

  const CMD_READ_FLASH: byte := 0xD2
  const BLOCK: nat := 0x1000
  const MAX_INFLIGHT: nat := 64

  function Arguments(offset: nat, size: nat): (r: seq<byte>)
    ensures |r| == 16
  {
    PutU32Le(offset) + PutU32Le(size) + PutU32Le(BLOCK) + PutU32Le(MAX_INFLIGHT)
  }

  /** The number of blocks, in 32-bit arithmetic. */
  function BlockCount(size: nat): nat {
    (size + BLOCK - 1) % TWO32 / BLOCK
  }

  // -------------------------------------------------------------- the exchange

  datatype Fetch<M> =
    | Fetched(data: seq<byte>, wire: Wire<M>)
    | Failed
    | Undetermined   // a deadline came first, or the framing was broken before the reply

  /** The data loop with `line` the whole unread stream: one frame, one acknowledgement of all bytes so far. */
  function FetchBlocks<M>(react: Reaction<M>, wire: Wire<M>, blocks: nat, got: seq<byte>, polls: nat): Fetch<M>
    decreases blocks
  {
    if blocks == 0 then Fetched(got, wire)
    else if |wire.line| > polls then Undetermined
    else
      match Feed(START, wire.line)
      case Packet(p, rest) =>
        var acked := Transmit(react, wire.(line := rest), Encode(PutU32Le(|got + p|)));
        FetchBlocks(react, acked, blocks - 1, got + p, polls)
      case _ => Failed
  }

  function FetchDigest<M>(f: Fetch<M>, size: nat, polls: nat): Fetch<M> {
    if !f.Fetched? then f
    else if |f.wire.line| > polls then Undetermined
    else
      match Feed(START, f.wire.line)
      case Packet(_, rest) => Fetched(if |f.data| > size then f.data[..size] else f.data, f.wire.(line := rest))
      case _ => Failed
  }

  function Download<M>(react: Reaction<M>, poke: bool, wire: Wire<M>, offset: nat, size: nat, polls: nat,
                       tries: nat): Fetch<M>
  {
    var asked := Ask(react, wire, Request(CMD_READ_FLASH, Arguments(offset, size), 0), poke);
    if |asked.line| > polls then Undetermined
    else
      match Await(asked.line, CMD_READ_FLASH, 0, tries)
      case Noise => Undetermined
      case GaveUp(_) => Failed
      case Answered(v, d, rest) =>
        if CheckReply(Reply(v, d), 0).Accepted? then
          FetchDigest(FetchBlocks(react, asked.(line := rest), BlockCount(size), [], polls), size, polls)
        else Failed
  }

  ghost predicate Fits<M>(data: Option<seq<byte>>, state: Wire<M>, f: Fetch<M>) {
    match f
    case Fetched(d, w) => data == Some(d) && state == w
    case Failed => data.None?
    case Undetermined => true
  }

  method ReadBlocks<M(!new)>(c: Conn<M>, blocks: nat, polls: nat) returns (data: Option<seq<byte>>)
    requires c.Valid()
    modifies c.port, c.reader
    ensures Fits(data, StateOf(c), FetchBlocks(c.port.react, old(StateOf(c)), blocks, [], polls))
  {
    var result := [];
    ghost var f := FetchBlocks(c.port.react, StateOf(c), blocks, [], polls);
    ghost var late := false;
    var i := 0;
    while i < blocks
      invariant i <= blocks
      invariant !late ==> FetchBlocks(c.port.react, StateOf(c), blocks - i, result, polls) == f
      invariant late ==> f.Undetermined?
    {
      late := late || |c.reader.Stream()| > polls;
      var r := c.reader.ReadFrame(polls);
      if !r.Frame? {
        return None;
      }
      ghost var before := StateOf(c);
      result := result + r.packet;
      var ack := Encode(PutU32Le(|result|));
      TransmitBehind(c.port.react, c.port.State(), c.reader.leftover, ack);
      c.port.Write(ack);
      i := i + 1;
    }
    return Some(result);
  }

  method Read<M(!new)>(c: Conn<M>, offset: nat, size: nat, polls: nat, tries: nat) returns (data: Option<seq<byte>>)
    requires c.Valid()
    modifies c.port, c.reader
    ensures Fits(data, StateOf(c), Download(c.port.react, c.Pokes(), old(StateOf(c)), offset, size, polls, tries))
  {
    ghost var request := Request(CMD_READ_FLASH, Arguments(offset, size), 0);
    AskBehind(c.port.react, c.port.State(), c.reader.leftover, request, c.Pokes());
    var answer := c.Command(CMD_READ_FLASH, Arguments(offset, size), 0, polls, tries, true);
    var checked := CheckReply(answer, 0);
    if !checked.Accepted? {
      return None;
    }
    ghost var atBlocks := StateOf(c);
    data := ReadBlocks(c, BlockCount(size), polls);
    if data.None? {
      return;
    }
    ghost var atDigest := StateOf(c);
    var digest := c.reader.ReadFrame(polls);
    if !digest.Frame? {
      return None;
    }
    if |data.value| > size {
      data := Some(data.value[..size]);
    }
  }

  // -------------------------------------------------------------- the honest stub

  datatype Session = NoSession | Reading(offset: nat, size: nat, sent: nat)
  datatype Stub = Stub(flash: seq<byte>, session: Session)

  function StatusReply(opcode: byte, status: byte): (r: seq<byte>)
    ensures |r| == 10 && IsReply(r, opcode)
  {
    [RESPONSE, opcode] + PutU16Le(2) + PutU32Le(0) + [status, 0]
  }

  /** Sends the next block of at most 4 KiB, or the digest once every byte is out. */
  function Continue(md5: seq<byte> -> seq<byte>, flash: seq<byte>, offset: nat, size: nat, sent: nat): (Stub, seq<byte>)
    requires sent <= size && offset + size <= |flash|
  {
    if sent == size then (Stub(flash, NoSession), md5(flash[offset..offset + size]))
    else
      var n := if size - sent < BLOCK then size - sent else BLOCK;
      (Stub(flash, Reading(offset, size, sent + n)), flash[offset + sent..offset + sent + n])
  }

  function StubReact(md5: seq<byte> -> seq<byte>, s: Stub, p: seq<byte>): (Stub, seq<seq<byte>>) {
    match s.session
    case NoSession =>
      var r := ParseRequest(p);
      if r.None? then (s, [])
      else if r.value.opcode != CMD_READ_FLASH || |r.value.payload| != 16 then (s, [StatusReply(r.value.opcode, 1)])
      else
        var offset, size := GetU32Le(r.value.payload[..4]), GetU32Le(r.value.payload[4..8]);
        if offset + size > |s.flash| then (s, [StatusReply(CMD_READ_FLASH, 1)])
        else
          var (s', frame) := Continue(md5, s.flash, offset, size, 0);
          (s', [StatusReply(CMD_READ_FLASH, 0), frame])
    case Reading(offset, size, sent) =>
      if |p| == 4 && GetU32Le(p) == sent && sent <= size && offset + size <= |s.flash| then
        var (s', frame) := Continue(md5, s.flash, offset, size, sent);
        (s', [frame])
      else (s, [])
  }

  function HonestStub(md5: seq<byte> -> seq<byte>): Reaction<Stub> {
    (s: Stub, p: seq<byte>) => StubReact(md5, s, p)
  }

  // ------------------------------------------------------------------- theorem

  predicate Digests(md5: seq<byte> -> seq<byte>, data: seq<byte>) {
    |md5(data)| == 16
  }

  /** The line with the frame that follows `got` acknowledged bytes. */
  function OnLine(md5: seq<byte> -> seq<byte>, flash: seq<byte>, offset: nat, size: nat, got: nat): Wire<Stub>
    requires got <= size && offset + size <= |flash|
  {
    var (s, frame) := Continue(md5, flash, offset, size, got);
    Wire(START, s, Encode(frame))
  }

  /** The blocks still to come. */
  function Left(size: nat, got: nat): nat
    requires got <= size
    decreases size - got
  {
    if got == size then 0 else 1 + Left(size, got + Smaller(size - got, BLOCK))
  }

  lemma {:induction false} LeftCount(size: nat, got: nat)
    requires got <= size
    ensures Left(size, got) == (size - got + BLOCK - 1) / BLOCK
    decreases size - got
  {
    if got < size {
      LeftCount(size, got + Smaller(size - got, BLOCK));
      if size - got > BLOCK {
        assert size - got + BLOCK - 1 == (size - got - BLOCK + BLOCK - 1) + BLOCK;
      }
    }
  }

  /** What the data loop fetches with `got` bytes received and the next frame on the line. */
  function Remaining(md5: seq<byte> -> seq<byte>, flash: seq<byte>, offset: nat, size: nat, got: nat,
                     polls: nat): Fetch<Stub>
    requires offset + size <= |flash| && got <= size
  {
    FetchBlocks(HonestStub(md5), OnLine(md5, flash, offset, size, got), Left(size, got), flash[offset..offset + got],
                polls)
  }

  /** The frame on the line after `got` bytes. */
  lemma BlockOnLine(md5: seq<byte> -> seq<byte>, flash: seq<byte>, offset: nat, size: nat, got: nat)
    requires offset + size <= |flash| && got < size
    ensures var next := got + Smaller(size - got, BLOCK);
            var block := flash[offset + got..offset + next];
            && OnLine(md5, flash, offset, size, got)
               == Wire(START, Stub(flash, Reading(offset, size, next)), Encode(block))
            && |Encode(block)| <= 2 * BLOCK + 2 && Feed(START, Encode(block)) == Packet(block, [])
            && flash[offset..offset + got] + block == flash[offset..offset + next]
  {
    var block := flash[offset + got..offset + got + Smaller(size - got, BLOCK)];
    EncodedLength(block);
    FeedOneFrame(block);
  }

  lemma OneTurn<M>(react: Reaction<M>, wire: Wire<M>, wire': Wire<M>, blocks: nat, got: seq<byte>, packet: seq<byte>,
                   got': seq<byte>, polls: nat)
    requires blocks > 0 && |wire.line| <= polls && Feed(START, wire.line) == Packet(packet, []) && got' == got + packet
    requires wire' == Transmit(react, wire.(line := []), Encode(PutU32Le(|got'|)))
    ensures FetchBlocks(react, wire, blocks, got, polls) == FetchBlocks(react, wire', blocks - 1, got', polls)
  {
  }

  lemma BlockFeeds(md5: seq<byte> -> seq<byte>, flash: seq<byte>, offset: nat, size: nat, got: nat)
    returns (packet: seq<byte>)
    requires offset + size <= |flash| && got < size
    ensures var line := OnLine(md5, flash, offset, size, got).line;
            |line| <= 2 * BLOCK + 2 && Feed(START, line) == Packet(packet, [])
    ensures flash[offset..offset + got + Smaller(size - got, BLOCK)] == flash[offset..offset + got] + packet
  {
    BlockOnLine(md5, flash, offset, size, got);
    packet := flash[offset + got..offset + got + Smaller(size - got, BLOCK)];
  }

  lemma NextOnLine(md5: seq<byte> -> seq<byte>, flash: seq<byte>, offset: nat, size: nat, got: nat)
    requires offset + size <= |flash| && size < TWO32 && got < size
    ensures var next := got + Smaller(size - got, BLOCK);
            Transmit(HonestStub(md5), OnLine(md5, flash, offset, size, got).(line := []),
                     Encode(PutU32Le(|flash[offset..offset + next]|)))
            == OnLine(md5, flash, offset, size, next)
  {
    BlockOnLine(md5, flash, offset, size, got);
    AckReachesStub(md5, flash, offset, size, got + Smaller(size - got, BLOCK));
  }

  /** One turn of the data loop: the block on the line is taken, its acknowledgement brings the next frame. */
  lemma BlockTaken(md5: seq<byte> -> seq<byte>, flash: seq<byte>, offset: nat, size: nat, got: nat, next: nat,
                   left: nat, polls: nat)
    requires offset + size <= |flash| && size < TWO32 && got < size && polls >= 2 * BLOCK + 2
    requires next == got + Smaller(size - got, BLOCK)
    ensures var wire, wire' := OnLine(md5, flash, offset, size, got), OnLine(md5, flash, offset, size, next);
            FetchBlocks(HonestStub(md5), wire, left + 1, flash[offset..offset + got], polls)
            == FetchBlocks(HonestStub(md5), wire', left, flash[offset..offset + next], polls)
  {
    var wire, wire' := OnLine(md5, flash, offset, size, got), OnLine(md5, flash, offset, size, next);
    var data, data' := flash[offset..offset + got], flash[offset..offset + next];
    var packet := BlockFeeds(md5, flash, offset, size, got);
    NextOnLine(md5, flash, offset, size, got);
    OneTurn(HonestStub(md5), wire, wire', left + 1, data, packet, data', polls);
  }

  /** The loop fetches exactly the rest. */
  lemma {:induction false} BlocksArrive(md5: seq<byte> -> seq<byte>, flash: seq<byte>, offset: nat, size: nat,
                                        got: nat, polls: nat)
    requires offset + size <= |flash| && size < TWO32 && got <= size && polls >= 2 * BLOCK + 2
    ensures Remaining(md5, flash, offset, size, got, polls)
            == Fetched(flash[offset..offset + size], OnLine(md5, flash, offset, size, size))
    decreases size - got
  {
    if got < size {
      var next := got + Smaller(size - got, BLOCK);
      assert Remaining(md5, flash, offset, size, got, polls) == Remaining(md5, flash, offset, size, next, polls) by {
        assert Left(size, got) == Left(size, next) + 1;
        BlockTaken(md5, flash, offset, size, got, next, Left(size, next), polls);
      }
      BlocksArrive(md5, flash, offset, size, next, polls);
    } else {
      assert Left(size, got) == 0;
    }
  }

  lemma AckReachesStub(md5: seq<byte> -> seq<byte>, flash: seq<byte>, offset: nat, size: nat, sent: nat)
    requires offset + size <= |flash| && size < TWO32 && sent <= size
    ensures Transmit(HonestStub(md5), Wire(START, Stub(flash, Reading(offset, size, sent)), []), Encode(PutU32Le(sent)))
         == OnLine(md5, flash, offset, size, sent)
  {
    var s := Stub(flash, Reading(offset, size, sent));
    var ack, frame := PutU32Le(sent), Continue(md5, flash, offset, size, sent).1;
    assert StubReact(md5, s, ack) == (Continue(md5, flash, offset, size, sent).0, [frame]) by {
      U32LeExact(sent);
    }
    ServeFrame(HonestStub(md5), START, s, ack);
    OneFrame(frame);
  }

  lemma OneFrame(frame: seq<byte>)
    ensures [] + EncodeAll([frame]) == Encode(frame)
  {
    assert [frame][1..] == [];
  }

  lemma {:induction false} EncodedLength(data: seq<byte>)
    ensures |Encode(data)| <= 2 * |data| + 2
  {
    TwoPassesEscapeEachByte(data);
    if data != [] {
      EncodedLength(data[1..]);
      TwoPassesEscapeEachByte(data[1..]);
    }
  }

  lemma TwoFrames(a: seq<byte>, b: seq<byte>)
    ensures [] + EncodeAll([a, b]) == Encode(a) + Encode(b)
  {
    assert [a, b][1..] == [b] && [b][1..] == [];
    assert EncodeAll([b]) == Encode(b) + EncodeAll([]) == Encode(b);
  }

  lemma ArgumentsArrive(offset: nat, size: nat)
    requires offset < TWO32 && size < TWO32
    ensures var r := ParseRequest(Request(CMD_READ_FLASH, Arguments(offset, size), 0));
            && r.Some? && r.value.opcode == CMD_READ_FLASH && |r.value.payload| == 16
            && GetU32Le(r.value.payload[..4]) == offset && GetU32Le(r.value.payload[4..8]) == size
  {
    var args := Arguments(offset, size);
    RequestRecovered(CMD_READ_FLASH, args, 0);
    assert args[..4] == PutU32Le(offset) && args[4..8] == PutU32Le(size);
    U32LeExact(offset);
    U32LeExact(size);
  }

  lemma StubStarts(md5: seq<byte> -> seq<byte>, flash: seq<byte>, offset: nat, size: nat)
    requires offset + size <= |flash| && offset < TWO32 && size < TWO32
    ensures StubReact(md5, Stub(flash, NoSession), Request(CMD_READ_FLASH, Arguments(offset, size), 0))
         == (Continue(md5, flash, offset, size, 0).0,
             [StatusReply(CMD_READ_FLASH, 0), Continue(md5, flash, offset, size, 0).1])
  {
    ArgumentsArrive(offset, size);
  }

  /** The command's reply, then the first frame of the transfer. */
  lemma TransferStarts(md5: seq<byte> -> seq<byte>, flash: seq<byte>, offset: nat, size: nat)
    requires offset + size <= |flash| && offset < TWO32 && size < TWO32
    ensures var first := OnLine(md5, flash, offset, size, 0);
            Ask(HonestStub(md5), Wire(START, Stub(flash, NoSession), []),
                Request(CMD_READ_FLASH, Arguments(offset, size), 0), false)
            == first.(line := Encode(StatusReply(CMD_READ_FLASH, 0)) + first.line)
  {
    StubStarts(md5, flash, offset, size);
    ServeFrame(HonestStub(md5), START, Stub(flash, NoSession), Request(CMD_READ_FLASH, Arguments(offset, size), 0));
    TwoFrames(StatusReply(CMD_READ_FLASH, 0), Continue(md5, flash, offset, size, 0).1);
  }

  lemma ReplyArrives(rest: seq<byte>, tries: nat)
    requires tries > 0
    ensures var w := Await(Encode(StatusReply(CMD_READ_FLASH, 0)) + rest, CMD_READ_FLASH, 0, tries);
            w.Answered? && w.rest == rest && CheckReply(Reply(w.value, w.data), 0).Accepted?
  {
    var reply := StatusReply(CMD_READ_FLASH, 0);
    FeedFrame(START, reply, rest);
    assert reply[8..] == [0, 0];
  }

  lemma DownloadStarts(md5: seq<byte> -> seq<byte>, flash: seq<byte>, offset: nat, size: nat, polls: nat, tries: nat)
    requires offset + size <= |flash| && offset < TWO32 && size < TWO32
    requires Digests(md5, flash[offset..offset + size])
    requires polls >= 2 * BLOCK + 24 && tries > 0
    ensures Download(HonestStub(md5), false, Wire(START, Stub(flash, NoSession), []), offset, size, polls, tries)
         == FetchDigest(FetchBlocks(HonestStub(md5), OnLine(md5, flash, offset, size, 0), BlockCount(size), [], polls),
                        size, polls)
  {
    TransferStarts(md5, flash, offset, size);
    EncodedLength(StatusReply(CMD_READ_FLASH, 0));
    FirstFrameIsShort(md5, flash, offset, size);
    ReplyArrives(OnLine(md5, flash, offset, size, 0).line, tries);
  }

  lemma DigestArrives<M>(f: Fetch<M>, digest: seq<byte>, size: nat, polls: nat)
    requires f.Fetched? && f.wire.line == Encode(digest) && |digest| == 16 && |f.data| == size && polls >= 34
    ensures FetchDigest(f, size, polls) == Fetched(f.data, f.wire.(line := []))
  {
    EncodedLength(digest);
    FeedOneFrame(digest);
  }

  /**
   Against an honest stub the read returns exactly flash[offset..offset+size), and leaves the line at a frame
   boundary with nothing unread, if and only if the size leaves room for one block below 2^32. Beyond that the
   32-bit block count is 0: the first block is taken for the digest, and no data are returned.
   */
  lemma ReadReturnsFlash(md5: seq<byte> -> seq<byte>, flash: seq<byte>, offset: nat, size: nat, polls: nat, tries: nat)
    requires offset + size <= |flash| && offset < TWO32 && size < TWO32
    requires Digests(md5, flash[offset..offset + size]) && polls >= 2 * BLOCK + 24 && tries > 0
    ensures var idle := Wire(START, Stub(flash, NoSession), []);
            var read := Download(HonestStub(md5), false, idle, offset, size, polls, tries);
            && (read == Fetched(flash[offset..offset + size], idle) <==> size + BLOCK <= TWO32)
            && (size + BLOCK > TWO32 ==> read.Fetched? && read.data == [])
  {
    DownloadStarts(md5, flash, offset, size, polls, tries);
    if size + BLOCK <= TWO32 {
      AllFetched(md5, flash, offset, size, polls);
      DigestArrives(Fetched(flash[offset..offset + size], OnLine(md5, flash, offset, size, size)),
                    md5(flash[offset..offset + size]), size, polls);
    } else {
      NothingFetched(md5, flash, offset, size, polls);
    }
  }

  /** A range that reaches beyond the flash is refused by the stub, and the read returns nothing. */
  lemma ReadBeyondFlashFails(md5: seq<byte> -> seq<byte>, flash: seq<byte>, offset: nat, size: nat, polls: nat,
                             tries: nat)
    requires offset < TWO32 && size < TWO32 && offset + size > |flash| && polls >= 22 && tries > 0
    ensures var idle := Wire(START, Stub(flash, NoSession), []);
            Download(HonestStub(md5), false, idle, offset, size, polls, tries) == Failed
  {
    var stub, refusal := Stub(flash, NoSession), StatusReply(CMD_READ_FLASH, 1);
    var request := Request(CMD_READ_FLASH, Arguments(offset, size), 0);
    assert StubReact(md5, stub, request) == (stub, [refusal]) by {
      ArgumentsArrive(offset, size);
    }
    ServeFrame(HonestStub(md5), START, stub, request);
    OneFrame(refusal);
    assert Encode(refusal) + [] == Encode(refusal) && refusal[8] == 1;
    StatusOnTheWire(refusal, [], CMD_READ_FLASH, 0, tries);
    EncodedLength(refusal);
  }

  lemma NothingFetched(md5: seq<byte> -> seq<byte>, flash: seq<byte>, offset: nat, size: nat, polls: nat)
    requires offset + size <= |flash| && size < TWO32 < size + BLOCK && polls >= 2 * BLOCK + 2
    ensures var first := OnLine(md5, flash, offset, size, 0);
            FetchDigest(FetchBlocks(HonestStub(md5), first, BlockCount(size), [], polls), size, polls)
            == Fetched([], first.(line := []))
  {
    assert BlockCount(size) == 0;
    BlockOnLine(md5, flash, offset, size, 0);
  }

  lemma AllFetched(md5: seq<byte> -> seq<byte>, flash: seq<byte>, offset: nat, size: nat, polls: nat)
    requires offset + size <= |flash| && size + BLOCK <= TWO32 && polls >= 2 * BLOCK + 2
    ensures FetchBlocks(HonestStub(md5), OnLine(md5, flash, offset, size, 0), BlockCount(size), [], polls)
         == Fetched(flash[offset..offset + size], OnLine(md5, flash, offset, size, size))
  {
    LeftCount(size, 0);
    assert Left(size, 0) == BlockCount(size) && flash[offset..offset + 0] == [];
    BlocksArrive(md5, flash, offset, size, 0, polls);
  }

  lemma FirstFrameIsShort(md5: seq<byte> -> seq<byte>, flash: seq<byte>, offset: nat, size: nat)
    requires offset + size <= |flash| && Digests(md5, flash[offset..offset + size])
    ensures |OnLine(md5, flash, offset, size, 0).line| <= 2 * BLOCK + 2
  {
    EncodedLength(Continue(md5, flash, offset, size, 0).1);
  }
}
