/**
 Commands to the bootloader (internal/espflash/protocol.go): the request packet, how it is written, and
 how a reply is matched to its command, on chips that answer at once and on the ESP32-P4 ROM, which
 keeps each reply back until the next command arrives (internal/espflash/command_p4.go).
 */
module Command {
  import opened Wrappers
  import opened Bytes
  import opened Slip
  import opened Serial

  const REQUEST: byte := 0x00
  const RESPONSE: byte := 0x01
  const CMD_SYNC: byte := 0x08
  const CHECKSUM_MAGIC: nat := 0xEF
  const MAX_STALE_FRAMES: nat := 256
  const USB_CHUNK: nat := 64

  function SyncPayload(): (r: seq<byte>)
    ensures |r| == 36
  {
    [0x07, 0x07, 0x12, 0x20] + seq(32, _ => 0x55)
  }

  // ---------------------------------------------------------------- checksum

  function XorAll(state: nat, data: seq<byte>): nat
    decreases |data|
  {
    if data == [] then state else XorAll(Xor(state, data[0] as nat), data[1..])
  }

  method Checksum(data: seq<byte>) returns (state: nat)
    ensures state == XorAll(0xEF, data)
  {
    state := CHECKSUM_MAGIC;
    for i := 0 to |data|
      invariant XorAll(state, data[i..]) == XorAll(CHECKSUM_MAGIC, data)
    {
      assert data[i..][1..] == data[i + 1..];
      state := Xor(state, data[i] as nat);
    }
    assert data[|data|..] == [];
  }

  lemma {:induction false} XorAllInjective(a: nat, b: nat, data: seq<byte>)
    requires a != b
    ensures XorAll(a, data) != XorAll(b, data)
    decreases |data|
  {
    if data != [] {
      var x := data[0] as nat;
      if Xor(a, x) == Xor(b, x) {
        XorInjective(a, b, x);
      }
      XorAllInjective(Xor(a, x), Xor(b, x), data[1..]);
    }
  }

  /** A block with one wrong byte never carries the checksum of the right one. */
  lemma {:induction false} ChecksumDetectsOneWrongByte(state: nat, data: seq<byte>, i: nat, wrong: byte)
    requires i < |data| && wrong != data[i]
    ensures XorAll(state, data[i := wrong]) != XorAll(state, data)
    decreases |data|
  {
    if i == 0 {
      assert data[i := wrong][1..] == data[1..];
      if Xor(state, wrong as nat) == Xor(state, data[0] as nat) {
        XorInjective(wrong as nat, data[0] as nat, state);
      }
      XorAllInjective(Xor(state, wrong as nat), Xor(state, data[0] as nat), data[1..]);
    } else {
      assert data[i := wrong][1..] == data[1..][i - 1 := wrong];
      ChecksumDetectsOneWrongByte(Xor(state, data[0] as nat), data[1..], i - 1, wrong);
    }
  }

  // ------------------------------------------------------------ request packet

  function Request(opcode: byte, data: seq<byte>, checksum: nat): (p: seq<byte>)
    ensures |p| == 8 + |data|
  {
    [REQUEST, opcode] + PutU16Le(|data|) + PutU32Le(checksum) + data
  }

  datatype Received = Received(opcode: byte, length: nat, checksum: nat, payload: seq<byte>)

  /** The chip's view of a packet: direction, opcode, 16-bit length, 32-bit checksum, payload. */
  function ParseRequest(p: seq<byte>): Option<Received> {
    if |p| < 8 || p[0] != REQUEST then None
    else Some(Received(p[1], GetU16Le(p[2..4]), GetU32Le(p[4..8]), p[8..]))
  }

  /** In bytes: 0x00, the opcode, the length and the checksum with their least significant bytes first, the payload. */
  lemma RequestLayout(opcode: byte, data: seq<byte>, checksum: nat)
    ensures var p := Request(opcode, data, checksum);
            && |p| == 8 + |data| && p[0] == 0x00 && p[1] == opcode && p[8..] == data
            && p[2] as nat + 0x100 * p[3] as nat == |data| % 0x1_0000
            && p[4] as nat + 0x100 * p[5] as nat + 0x1_0000 * p[6] as nat + 0x100_0000 * p[7] as nat
               == checksum % TWO32
  {
    var p := Request(opcode, data, checksum);
    assert p[2..4] == PutU16Le(|data|) && p[4..8] == PutU32Le(checksum);
    U16LeRoundTrip(|data|);
    U32LeRoundTrip(checksum);
  }

  lemma RequestRecovered(opcode: byte, data: seq<byte>, checksum: nat)
    ensures ParseRequest(Request(opcode, data, checksum))
         == Some(Received(opcode, |data| % 0x1_0000, checksum % TWO32, data))
  {
    var p := Request(opcode, data, checksum);
    assert p[2..4] == PutU16Le(|data|) && p[4..8] == PutU32Le(checksum) && p[8..] == data;
    U16LeRoundTrip(|data|);
    U32LeRoundTrip(checksum);
  }

  /**
   However the frame of a command is cut into writes, the chip sees one packet and recovers opcode,
   length, checksum and payload from it; the length is right exactly for payloads under 64 KiB.
   */
  lemma ChipRecoversCommand<M>(react: Reaction<M>, rx: Scan, device: M, pieces: seq<seq<byte>>,
                               opcode: byte, data: seq<byte>, checksum: nat)
    requires Idle(rx) && checksum < TWO32
    requires Concat(pieces) == Encode(Request(opcode, data, checksum))
    ensures var p := Request(opcode, data, checksum);
            ServePieces(react, rx, device, pieces) == Served(START, react(device, p).0, react(device, p).1)
    ensures var got := ParseRequest(Request(opcode, data, checksum));
            && got.Some? && got.value.opcode == opcode && got.value.checksum == checksum && got.value.payload == data
            && (got.value.length == |data| <==> |data| < 0x1_0000)
  {
    var p := Request(opcode, data, checksum);
    assert ServePieces(react, rx, device, pieces) == Served(START, react(device, p).0, react(device, p).1) by {
      PiecesDoNotMatter(react, rx, device, pieces);
      ServeFrame(react, rx, device, p);
    }
    RequestRecovered(opcode, data, checksum);
  }

  /** A frame in pieces of at most n bytes. */
  function Chunks(frame: seq<byte>, n: nat): (r: seq<seq<byte>>)
    requires n > 0
    ensures forall i :: 0 <= i < |r| ==> 0 < |r[i]| <= n
    decreases |frame|
  {
    if frame == [] then []
    else if |frame| <= n then [frame]
    else [frame[..n]] + Chunks(frame[n..], n)
  }

  lemma {:induction false} ChunksConcat(frame: seq<byte>, n: nat)
    requires n > 0
    ensures Concat(Chunks(frame, n)) == frame
    decreases |frame|
  {
    if frame != [] {
      var r := Chunks(frame, n);
      if |frame| <= n {
        assert r[1..] == [];
      } else {
        ChunksConcat(frame[n..], n);
        assert r[1..] == Chunks(frame[n..], n);
      }
    }
  }

  lemma NextChunk<M>(react: Reaction<M>, wire: Wire<M>, frame: seq<byte>, off: nat, end: nat)
    requires off < |frame| && end == if off + USB_CHUNK > |frame| then |frame| else off + USB_CHUNK
    ensures Chunks(frame[off..], USB_CHUNK) == [frame[off..end]] + Chunks(frame[end..], USB_CHUNK)
    ensures Transmit(react, Transmit(react, wire, frame[..off]), frame[off..end]) == Transmit(react, wire, frame[..end])
  {
    assert frame[off..][..end - off] == frame[off..end] && frame[off..][end - off..] == frame[end..];
    if end == |frame| {
      assert frame[off..] == frame[off..end] && Chunks(frame[end..], USB_CHUNK) == [];
    }
    TransmitAppend(react, wire, frame[..off], frame[off..end]);
    assert frame[..off] + frame[off..end] == frame[..end];
  }

  // ----------------------------------------------------------- awaiting a reply

  datatype Awaited =
    | Answered(value: nat, data: seq<byte>, rest: seq<byte>)
    | GaveUp(rest: seq<byte>)
    | Noise   // the stream breaks the framing: what is left of it is not determined

  predicate IsReply(frame: seq<byte>, opcode: byte) {
    |frame| >= 8 && frame[0] == RESPONSE && frame[1] == opcode
  }

  /** The read loop of `command` on a stream of which every byte has arrived. */
  function Await(stream: seq<byte>, opcode: byte, stale: nat, tries: nat): Awaited
    decreases tries, 0
  {
    if tries == 0 then GaveUp(stream)
    else
      match Feed(START, stream)
      case Invalid(_, _) => Noise
      case More(_) => Skip([], opcode, stale, tries)
      case Packet(f, rest) =>
        if |f| >= 8 && f[0] != RESPONSE then Await(rest, opcode, stale, tries - 1)
        else if !IsReply(f, opcode) then Skip(rest, opcode, stale, tries)
        else Answered(GetU32Le(f[4..8]), f[8..], rest)
  }

  /** One more stale frame or read error. */
  function Skip(stream: seq<byte>, opcode: byte, stale: nat, tries: nat): Awaited
    requires tries > 0
    decreases tries - 1, 1
  {
    if stale + 1 > MAX_STALE_FRAMES then GaveUp(stream) else Await(stream, opcode, stale + 1, tries - 1)
  }

  /** What the chip family needs after a command and before its reply is read. */
  datatype Post = Plain | P4

  /** The line after a command, and after the poke when one is sent. */
  function Ask<M>(react: Reaction<M>, wire: Wire<M>, request: seq<byte>, poke: bool): Wire<M> {
    var asked := Transmit(react, wire, Encode(request));
    if poke then Transmit(react, asked, Encode(Request(CMD_SYNC, SyncPayload(), 0))) else asked
  }

  datatype Answer = NotAwaited | Reply(value: nat, data: seq<byte>) | NoReply

  datatype Checked =
    | Accepted(data: seq<byte>)
    | Refused(status: byte, code: byte)
    | TooShort
    | Unanswered

  /** `checkCommand` on a reply: two status bytes follow `expected` bytes of response data. */
  function CheckReply(a: Answer, expected: nat): Checked {
    if !a.Reply? then Unanswered
    else if |a.data| < expected + 2 then
      if |a.data| >= 2 && a.data[0] != 0 then Refused(a.data[0], a.data[1]) else TooShort
    else if a.data[expected] != 0 then Refused(a.data[expected], a.data[expected + 1])
    else Accepted(if expected > 0 then a.data[..expected] else PutU32Le(a.value))
  }

  /**
   What the status bytes of a reply mean. Behind the expected data a zero accepts the command and anything else refuses
   it, with the byte after it as the reason; in a shorter reply the first two bytes can only refuse.
   */
  ghost predicate StatusDecides(frame: seq<byte>, expected: nat, c: Checked)
    requires |frame| >= 8
  {
    var status := 8 + expected;
    if |frame| >= status + 2 then
      if frame[status] == 0 then
        c == Accepted(if expected > 0 then frame[8..status] else frame[4..8])
      else c == Refused(frame[status], frame[status + 1])
    else c == if |frame| >= 10 && frame[8] != 0 then Refused(frame[8], frame[9]) else TooShort
  }

  lemma ReplyDecides(frame: seq<byte>, expected: nat)
    requires |frame| >= 8
    ensures StatusDecides(frame, expected, CheckReply(Reply(GetU32Le(frame[4..8]), frame[8..]), expected))
  {
    U32LeBytes(frame[4..8]);
    if |frame| >= 8 + expected {
      assert frame[8..][..expected] == frame[8..8 + expected];
    }
  }

  /** On the wire: the status bytes of the first reply on the line decide about the command. */
  lemma StatusOnTheWire(frame: seq<byte>, rest: seq<byte>, opcode: byte, expected: nat, tries: nat)
    requires IsReply(frame, opcode) && tries > 0
    ensures var w := Await(Encode(frame) + rest, opcode, 0, tries);
            && w.Answered? && w.rest == rest
            && StatusDecides(frame, expected, CheckReply(Reply(w.value, w.data), expected))
  {
    FeedFrame(START, frame, rest);
    ReplyDecides(frame, expected);
  }

  /** Whether an answer, and the stream it leaves behind, is the one `Await` describes. */
  ghost predicate Matches(a: Answer, left: seq<byte>, w: Awaited) {
    match w
    case Answered(v, d, rest) => a == Reply(v, d) && left == rest
    case GaveUp(rest) => a == NoReply && left == rest
    case Noise => a != NotAwaited
  }

  class Conn<M(!new)> {
    const port: Port<M>
    const reader: SlipReader<M>
    const usesUSB: bool
    var stub: bool
    var post: Post

    constructor (port: Port<M>, usesUSB: bool)
      ensures this.port == port && this.usesUSB == usesUSB && !stub && post == Plain
      ensures fresh(reader) && reader.port == port && reader.leftover == []
    {
      this.port, this.usesUSB, stub, post := port, usesUSB, false, Plain;
      reader := new SlipReader(port);
    }

    ghost predicate Valid() {
      reader.port == port
    }

    method SendCommand(opcode: byte, data: seq<byte>, checksum: nat)
      modifies port
      ensures port.State() == Transmit(port.react, old(port.State()), Encode(Request(opcode, data, checksum)))
      ensures port.writes == old(port.writes) +
              (if usesUSB then Chunks(Encode(Request(opcode, data, checksum)), USB_CHUNK)
               else [Encode(Request(opcode, data, checksum))])
      ensures usesUSB ==> forall i :: |old(port.writes)| <= i < |port.writes| ==> |port.writes[i]| <= 64
    {
      var frame := Encode(Request(opcode, data, checksum));
      if usesUSB {
        WriteChunked(frame);
      } else {
        port.Write(frame);
      }
    }

    method WriteChunked(frame: seq<byte>)
      modifies port
      ensures port.State() == Transmit(port.react, old(port.State()), frame)
      ensures port.writes == old(port.writes) + Chunks(frame, USB_CHUNK)
    {
      var off := 0;
      assert frame[..0] == [] && frame[0..] == frame;
      while off < |frame|
        invariant 0 <= off <= |frame|
        invariant port.State() == Transmit(port.react, old(port.State()), frame[..off])
        invariant port.writes + Chunks(frame[off..], USB_CHUNK) == old(port.writes) + Chunks(frame, USB_CHUNK)
      {
        var end := if off + USB_CHUNK > |frame| then |frame| else off + USB_CHUNK;
        NextChunk(port.react, old(port.State()), frame, off, end);
        port.Write(frame[off..end]);
        off := end;
      }
      assert frame[..|frame|] == frame && Chunks(frame[|frame|..], USB_CHUNK) == [];
    }

    ghost predicate Pokes()
      reads this
    {
      post.P4? && !stub
    }

    /** `p4CommandPost.apply`; the plain follow-up does nothing. */
    method ApplyPost()
      modifies port
      ensures port.State() == if Pokes() then
                                Transmit(port.react, old(port.State()), Encode(Request(CMD_SYNC, SyncPayload(), 0)))
                              else old(port.State())
    {
      if post.P4? && !stub {
        SendCommand(CMD_SYNC, SyncPayload(), 0);
      }
    }

    /**
     Sends a command and, when its reply is awaited, reads frames until one answers it. `polls` is how
     often one frame's deadline lets the port be read, `tries` how many frames the overall deadline allows.
     */
    method Command(opcode: byte, data: seq<byte>, checksum: nat, polls: nat, tries: nat, wait: bool) returns (a: Answer)
      requires Valid()
      modifies port, reader
      ensures var w := Ask(port.react, old(port.State()), Request(opcode, data, checksum), wait && Pokes());
              && port.rx == w.rx && port.device == w.device
              && (!wait ==> a == NotAwaited && port.line == w.line && reader.leftover == old(reader.leftover))
              && (wait && polls >= |w.line| ==>
                    Matches(a, reader.Stream(), Await(old(reader.leftover) + w.line, opcode, 0, tries)))
    {
      SendCommand(opcode, data, checksum);
      if !wait {
        return NotAwaited;
      }
      ApplyPost();
      a := ReadReply(opcode, polls, tries);
    }

    method ReadReply(opcode: byte, polls: nat, tries: nat) returns (a: Answer)
      requires Valid()
      modifies port`line, reader
      ensures a != NotAwaited
      ensures polls >= |old(port.line)| ==> Matches(a, reader.Stream(), Await(old(reader.Stream()), opcode, 0, tries))
    {
      ghost var result := Await(reader.Stream(), opcode, 0, tries);
      ghost var determined := polls >= |port.line|;
      var stale, left := 0, tries;
      while left > 0
        invariant stale <= MAX_STALE_FRAMES
        invariant determined ==> polls >= |port.line| && Await(reader.Stream(), opcode, stale, left) == result
        invariant !determined && polls >= |old(port.line)| ==> result.Noise?
      {
        var r := reader.ReadFrame(polls);
        left := left - 1;
        if !r.Frame? {
          determined := determined && r.TimedOut?;
          stale := stale + 1;
          if stale > MAX_STALE_FRAMES {
            return NoReply;
          }
          continue;
        }
        var frame := r.packet;
        if |frame| < 8 {
          stale := stale + 1;
          if stale > MAX_STALE_FRAMES {
            return NoReply;
          }
          continue;
        }
        if frame[0] != RESPONSE {
          continue;
        }
        if frame[1] != opcode {
          stale := stale + 1;
          if stale > MAX_STALE_FRAMES {
            return NoReply;
          }
          continue;
        }
        return Reply(GetU32Le(frame[4..8]), frame[8..]);
      }
      return NoReply;
    }

    method CheckCommand(opcode: byte, data: seq<byte>, checksum: nat, polls: nat, tries: nat, expected: nat)
      returns (c: Checked)
      requires Valid()
      modifies port, reader
      ensures var w := Ask(port.react, old(port.State()), Request(opcode, data, checksum), Pokes());
              && port.rx == w.rx && port.device == w.device
              && (polls >= |w.line| ==>
                    exists a :: Matches(a, reader.Stream(), Await(old(reader.leftover) + w.line, opcode, 0, tries)) &&
                                c == CheckReply(a, expected))
      ensures var w := Ask(port.react, old(port.State()), Request(opcode, data, checksum), Pokes());
              forall frame: seq<byte>, rest: seq<byte> ::
                old(reader.leftover) + w.line == Encode(frame) + rest && IsReply(frame, opcode) ==>
                polls >= |w.line| && tries > 0 ==> StatusDecides(frame, expected, c) && reader.Stream() == rest
    {
      ghost var w := Ask(port.react, port.State(), Request(opcode, data, checksum), Pokes());
      ghost var line := reader.leftover + w.line;
      var a := Command(opcode, data, checksum, polls, tries, true);
      c := CheckReply(a, expected);
      forall frame: seq<byte>, rest: seq<byte> |
        line == Encode(frame) + rest && IsReply(frame, opcode) && polls >= |w.line| && tries > 0
        ensures StatusDecides(frame, expected, c) && reader.Stream() == rest
      {
        StatusOnTheWire(frame, rest, opcode, expected, tries);
      }
    }
  }

  /** The state of a connection, with the reader's leftover counted as unread. */
  ghost function StateOf<M(!new)>(c: Conn<M>): Wire<M>
    reads c.port, c.reader, c.reader.port
  {
    Wire(c.port.rx, c.port.device, c.reader.Stream())
  }

  /** Bytes the reader holds back stay ahead of what the chip sends. */
  lemma TransmitBehind<M>(react: Reaction<M>, wire: Wire<M>, leftover: seq<byte>, data: seq<byte>)
    ensures var w := Transmit(react, wire, data);
            Transmit(react, wire.(line := leftover + wire.line), data) == w.(line := leftover + w.line)
  {
    var s := Serve(react, wire.rx, wire.device, data);
    assert (leftover + wire.line) + EncodeAll(s.answers) == leftover + (wire.line + EncodeAll(s.answers));
  }

  lemma AskBehind<M>(react: Reaction<M>, wire: Wire<M>, leftover: seq<byte>, request: seq<byte>, poke: bool)
    ensures var w := Ask(react, wire, request, poke);
            Ask(react, wire.(line := leftover + wire.line), request, poke) == w.(line := leftover + w.line)
  {
    TransmitBehind(react, wire, leftover, Encode(request));
    TransmitBehind(react, Transmit(react, wire, Encode(request)), leftover,
                   Encode(Request(CMD_SYNC, SyncPayload(), 0)));
  }
}
