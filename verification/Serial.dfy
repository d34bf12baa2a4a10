/**
 The serial line between the host and a chip, and the streaming SLIP reader of
 internal/espflash/slip.go on its host end.

 The chip is any function from its state and a received packet to a new state and the packets it
 answers with. How many bytes one read of the port returns is left open, so every statement about
 the reader holds for every way of cutting the stream.
 */
module Serial {
  import opened Bytes
  import opened Slip

  type Reaction<!M> = (M, seq<byte>) -> (M, seq<seq<byte>>)

  /** The chip's end of the line: it unframes what arrives, and each packet makes it react. */
  datatype Served<M> = Served(rx: Scan, device: M, answers: seq<seq<byte>>)

  function Serve<M>(react: Reaction<M>, rx: Scan, device: M, data: seq<byte>): Served<M>
    decreases |data|
  {
    match Feed(rx, data)
    case More(s) => Served(s, device, [])
    case Invalid(_, rest) => Serve(react, START, device, rest)
    case Packet(p, rest) =>
      var (d, out) := react(device, p);
      var later := Serve(react, START, d, rest);
      later.(answers := out + later.answers)
  }

  function ServePieces<M>(react: Reaction<M>, rx: Scan, device: M, pieces: seq<seq<byte>>): Served<M>
    decreases |pieces|
  {
    if pieces == [] then Served(rx, device, [])
    else
      var now := Serve(react, rx, device, pieces[0]);
      var later := ServePieces(react, now.rx, now.device, pieces[1..]);
      later.(answers := now.answers + later.answers)
  }

  lemma {:induction false} ServeAppend<M>(react: Reaction<M>, rx: Scan, device: M, a: seq<byte>, b: seq<byte>)
    ensures var now := Serve(react, rx, device, a);
            var later := Serve(react, now.rx, now.device, b);
            Serve(react, rx, device, a + b) == later.(answers := now.answers + later.answers)
    decreases |a|
  {
    FeedAppend(rx, a, b);
    match Feed(rx, a) {
      case More(s) =>
        assert Serve(react, rx, device, a) == Served(s, device, []);
        assert Serve(react, rx, device, a + b) == Serve(react, s, device, b) by {
          assert Feed(rx, a + b) == Feed(s, b);
        }
        assert [] + Serve(react, s, device, b).answers == Serve(react, s, device, b).answers;
      case Invalid(_, rest) =>
        ServeAppend(react, START, device, rest, b);
      case Packet(p, rest) =>
        var (d, out) := react(device, p);
        ServeAppend(react, START, d, rest, b);
        var first := Serve(react, START, d, rest);
        var later := Serve(react, first.rx, first.device, b);
        var both := Serve(react, START, d, rest + b);
        assert Serve(react, rx, device, a) == first.(answers := out + first.answers);
        assert Serve(react, rx, device, a + b) == both.(answers := out + both.answers);
        assert out + (first.answers + later.answers) == (out + first.answers) + later.answers;
    }
  }

  /** The chip cannot tell in how many writes the host sent its bytes. */
  lemma {:induction false} PiecesDoNotMatter<M>(react: Reaction<M>, rx: Scan, device: M, pieces: seq<seq<byte>>)
    ensures ServePieces(react, rx, device, pieces) == Serve(react, rx, device, Concat(pieces))
    decreases |pieces|
  {
    if pieces != [] {
      var now := Serve(react, rx, device, pieces[0]);
      PiecesDoNotMatter(react, now.rx, now.device, pieces[1..]);
      ServeAppend(react, rx, device, pieces[0], Concat(pieces[1..]));
    }
  }

  predicate Idle(rx: Scan) {
    !rx.inEscape && rx.partial == []
  }

  /** One framed packet makes the chip react to that packet, once. */
  lemma ServeFrame<M>(react: Reaction<M>, rx: Scan, device: M, packet: seq<byte>)
    requires Idle(rx) && packet != []
    ensures var (d, out) := react(device, packet);
            Serve(react, rx, device, Encode(packet)) == Served(START, d, out)
  {
    FeedFrame(rx, packet, []);
    assert Encode(packet) + [] == Encode(packet);
    var (d, out) := react(device, packet);
    assert Serve(react, START, d, []) == Served(START, d, []);
    assert out + [] == out;
  }

  /** The chip's end, and the bytes it has sent that the host has not read. */
  datatype Wire<M> = Wire(rx: Scan, device: M, line: seq<byte>)

  function Transmit<M>(react: Reaction<M>, wire: Wire<M>, data: seq<byte>): Wire<M> {
    var s := Serve(react, wire.rx, wire.device, data);
    Wire(s.rx, s.device, wire.line + EncodeAll(s.answers))
  }

  lemma TransmitAppend<M>(react: Reaction<M>, wire: Wire<M>, a: seq<byte>, b: seq<byte>)
    ensures Transmit(react, Transmit(react, wire, a), b) == Transmit(react, wire, a + b)
  {
    ServeAppend(react, wire.rx, wire.device, a, b);
    var first := Serve(react, wire.rx, wire.device, a);
    var later := Serve(react, first.rx, first.device, b);
    EncodeAllAppend(first.answers, later.answers);
    assert (wire.line + EncodeAll(first.answers)) + EncodeAll(later.answers)
        == wire.line + EncodeAll(first.answers + later.answers);
  }

  class Port<M(!new)> {
    const react: Reaction<M>
    var rx: Scan
    var device: M
    var line: seq<byte>
    ghost var writes: seq<seq<byte>>  // every write of the host, in order

    ghost function State(): Wire<M>
      reads this
    {
      Wire(rx, device, line)
    }

    constructor (react: Reaction<M>, device: M)
      ensures this.react == react && this.device == device && rx == START && line == [] && writes == []
    {
      this.react, this.device, rx, line, writes := react, device, START, [], [];
    }

    method Write(data: seq<byte>)
      modifies this
      ensures State() == Transmit(react, old(State()), data)
      ensures writes == old(writes) + [data]
    {
      var s := Serve(react, rx, device, data);
      rx, device, line := s.rx, s.device, line + EncodeAll(s.answers);
      writes := writes + [data];
    }

    /** Some bytes off the line, at most `max`; none only when there are none. */
    method Read(max: nat) returns (chunk: seq<byte>)
      modifies this`line
      ensures chunk + line == old(line) && |chunk| <= max
      ensures chunk == [] <==> old(line) == [] || max == 0
    {
      var limit := if |line| < max then |line| else max;
      assert 0 <= limit <= limit && (limit == 0 ==> limit == 0);   // limit itself is such an n
      var n :| 0 <= n <= limit && (n == 0 ==> limit == 0);
      chunk, line := line[..n], line[n..];
    }

    method ResetInputBuffer()
      modifies this`line
      ensures line == []
    {
      line := [];
    }
  }

  datatype ReadResult = Frame(packet: seq<byte>) | BadEscape(escaped: byte) | TimedOut

  const READ_BUFFER: nat := 256

  class SlipReader<M(!new)> {
    const port: Port<M>
    var leftover: seq<byte>

    constructor (port: Port<M>)
      ensures this.port == port && leftover == []
    {
      this.port, leftover := port, [];
    }

    /** Everything the chip has sent and no frame has consumed. */
    ghost function Stream(): seq<byte>
      reads this, port
    {
      leftover + port.line
    }

    method Reset()
      modifies this
      ensures leftover == []
    {
      leftover := [];
    }

    /** Runs the automaton over one buffer; a packet leaves the unread rest in `leftover`. */
    method ProcessBytes(scan: Scan, data: seq<byte>) returns (o: Outcome)
      modifies this
      ensures o == Feed(scan, data)
      ensures leftover == if o.Packet? then o.rest else old(leftover)
    {
      var s, i := scan, 0;
      while i < |data|
        invariant 0 <= i <= |data|
        invariant leftover == old(leftover)
        invariant Feed(s, data[i..]) == Feed(scan, data)
      {
        var b := data[i];
        assert data[i..][1..] == data[i + 1..];
        if !s.inFrame {
          if b == END {
            s := s.(inFrame := true, partial := []);
          }
        } else if s.inEscape {
          if b == ESC_END {
            s := s.(inEscape := false, partial := s.partial + [END]);
          } else if b == ESC_ESC {
            s := s.(inEscape := false, partial := s.partial + [ESC]);
          } else {
            return Invalid(b, data[i + 1..]);
          }
        } else if b == END {
          if s.partial != [] {
            leftover := data[i + 1..];
            return Packet(s.partial, data[i + 1..]);
          }
        } else if b == ESC {
          s := s.(inEscape := true);
        } else {
          s := s.(partial := s.partial + [b]);
        }
        i := i + 1;
      }
      o := More(s);
    }

    /**
     One frame off the stream. `polls` is how often the deadline lets the port be read.

     A frame is the first packet of the stream, and what the stream holds afterwards is exactly what
     followed it, whatever the cuts. A timeout loses what was consumed; it cannot happen while a whole
     frame is on the line unless the deadline comes first.
     */
    method ReadFrame(polls: nat) returns (r: ReadResult)
      modifies this, port`line
      ensures match r
              case Frame(p) => Feed(START, old(Stream())) == Packet(p, Stream())
              case BadEscape(b) => leftover == [] &&
                                   exists lost :: Feed(START, old(Stream())) == Invalid(b, lost + port.line)
              case TimedOut => leftover == [] &&
                               exists lost :: old(Stream()) == lost + port.line && Feed(START, lost).More?
      ensures |port.line| <= |old(port.line)|
      ensures polls >= |old(port.line)| ==>
                match Feed(START, old(Stream()))
                case Packet(p, rest) => r == Frame(p) && Stream() == rest
                case Invalid(b, _) => r == BadEscape(b)
                case More(_) => r == TimedOut && Stream() == []
    {
      ghost var stream := Stream();
      ghost var seen := [];
      var scan := START;
      if |leftover| > 0 {
        var saved := leftover;
        leftover := [];
        FeedAppend(START, saved, port.line);
        var o := ProcessBytes(scan, saved);
        match o
        case Packet(p, _) => return Frame(p);
        case Invalid(b, lost) =>
          assert Feed(START, old(Stream())) == Invalid(b, lost + port.line);
          return BadEscape(b);
        case More(s) =>
          scan, seen := s, saved;
      }
      var left := polls;
      while left > 0
        invariant leftover == [] && stream == seen + port.line
        invariant Feed(START, seen) == More(scan)
        invariant port.line == [] || |port.line| + (polls - left) <= |old(port.line)|
        invariant left <= polls && |port.line| <= |old(port.line)|
      {
        left := left - 1;
        var chunk := port.Read(READ_BUFFER);
        if |chunk| == 0 {
          continue;
        }
        FeedAppend(START, seen, chunk);
        FeedAppend(START, seen + chunk, port.line);
        assert stream == (seen + chunk) + port.line;
        var o := ProcessBytes(scan, chunk);
        match o
        case Packet(p, _) => return Frame(p);
        case Invalid(b, lost) =>
          assert Feed(START, old(Stream())) == Invalid(b, lost + port.line);
          return BadEscape(b);
        case More(s) =>
          scan, seen := s, seen + chunk;
      }
      assert port.line == [] ==> seen + port.line == seen;
      return TimedOut;
    }
  }

  /**
   Reading on until a read finds nothing returns the packets of the stream in order, however the reads
   cut it; Slip.FramesOfEncodedPackets says what they are when the chip sent whole frames.
   */
  method ReadAll<M(!new)>(reader: SlipReader<M>) returns (got: seq<seq<byte>>)
    modifies reader, reader.port`line
    ensures got == Frames(old(reader.Stream()))
  {
    got := [];
    var more := true;
    while more
      invariant got + (if more then Frames(reader.Stream()) else []) == Frames(old(reader.Stream()))
      decreases more, |reader.Stream()|
    {
      var r := reader.ReadFrame(|reader.port.line|);
      match r
      case Frame(p) => got := got + [p];
      case _ => more := false;
    }
  }
}
