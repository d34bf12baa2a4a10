/**
 SLIP framing of RFC 1055, as internal/espflash/slip.go implements it: the encoder, the whole-frame
 decoder, and the byte automaton that the streaming frame reader runs.
 */
module Slip {
  import opened Wrappers
  import opened Bytes

  const END: byte := 0xC0
  const ESC: byte := 0xDB
  const ESC_END: byte := 0xDC
  const ESC_ESC: byte := 0xDD

  // ---------------------------------------------------------------- encoding

  /** `bytes.ReplaceAll` for a one-byte pattern. */
  function ReplaceAll(s: seq<byte>, old_: byte, new_: seq<byte>): seq<byte> {
    if s == [] then []
    else (if s[0] == old_ then new_ else [s[0]]) + ReplaceAll(s[1..], old_, new_)
  }

  /** The encoder's two passes: first every ESC, then every END. */
  function Escape(data: seq<byte>): seq<byte> {
    ReplaceAll(ReplaceAll(data, ESC, [ESC, ESC_ESC]), END, [ESC, ESC_END])
  }

  function Encode(data: seq<byte>): seq<byte> {
    [END] + Escape(data) + [END]
  }

  /** The escaping RFC 1055 defines: one substitution per byte. */
  function EscapeByte(b: byte): seq<byte> {
    if b == END then [ESC, ESC_END] else if b == ESC then [ESC, ESC_ESC] else [b]
  }

  function EscapeEach(data: seq<byte>): seq<byte> {
    if data == [] then [] else EscapeByte(data[0]) + EscapeEach(data[1..])
  }

  lemma {:induction false} ReplaceAllAppend(a: seq<byte>, b: seq<byte>, old_: byte, new_: seq<byte>)
    ensures ReplaceAll(a + b, old_, new_) == ReplaceAll(a, old_, new_) + ReplaceAll(b, old_, new_)
  {
    if a == [] {
      assert a + b == b;
    } else {
      assert (a + b)[1..] == a[1..] + b;
      ReplaceAllAppend(a[1..], b, old_, new_);
    }
  }

  /** The second pass never touches what the first pass inserted. */
  lemma {:induction false} TwoPassesEscapeEachByte(data: seq<byte>)
    ensures Escape(data) == EscapeEach(data)
  {
    if data != [] {
      TwoPassesEscapeEachByte(data[1..]);
      var head := if data[0] == ESC then [ESC, ESC_ESC] else [data[0]];
      ReplaceAllAppend(head, ReplaceAll(data[1..], ESC, [ESC, ESC_ESC]), END, [ESC, ESC_END]);
      assert data[0] == ESC ==> head[1..] == [ESC_ESC] && head[1..][1..] == [];
      assert data[0] != ESC ==> head[1..] == [];
    }
  }

  lemma {:induction false} EscapeEachAppend(a: seq<byte>, b: seq<byte>)
    ensures EscapeEach(a + b) == EscapeEach(a) + EscapeEach(b)
  {
    if a == [] {
      assert a + b == b;
    } else {
      assert (a + b)[1..] == a[1..] + b;
      EscapeEachAppend(a[1..], b);
    }
  }

  /** In bytes: what becomes of one byte, wherever it stands. */
  lemma EncodedByte(before: seq<byte>, b: byte, after: seq<byte>)
    ensures var code := if b == 0xC0 then [0xDB, 0xDC] else if b == 0xDB then [0xDB, 0xDD] else [b];
            Encode(before + [b] + after) == [0xC0] + (Escape(before) + code + Escape(after)) + [0xC0]
  {
    TwoPassesEscapeEachByte(before);
    TwoPassesEscapeEachByte(after);
    TwoPassesEscapeEachByte(before + [b] + after);
    EscapeEachAppend(before + [b], after);
    EscapeEachAppend(before, [b]);
    assert EscapeEach([b]) == EscapeByte(b);
  }

  /** A delimiter occurs in a frame only at its two ends. */
  lemma {:induction false} InteriorHasNoDelimiter(data: seq<byte>)
    ensures END !in Escape(data)
  {
    TwoPassesEscapeEachByte(data);
    if data != [] {
      InteriorHasNoDelimiter(data[1..]);
      TwoPassesEscapeEachByte(data[1..]);
    }
  }

  // ------------------------------------------------------- whole-frame decode

  /** What the decoder's loop appends for the bytes that are still to come. */
  function Unescape(frame: seq<byte>, inEscape: bool): seq<byte> {
    if frame == [] then []
    else
      var b, rest := frame[0], frame[1..];
      if inEscape then
        (if b == ESC_END then [END] else if b == ESC_ESC then [ESC] else [ESC, b]) + Unescape(rest, false)
      else if b == ESC then Unescape(rest, true)
      else if b == END then Unescape(rest, false)
      else [b] + Unescape(rest, false)
  }

  /** One turn of the decoder's loop: what it appends, and whether an escape is pending after it. */
  function Turn(b: byte, inEscape: bool): (seq<byte>, bool) {
    if inEscape then (if b == ESC_END then [END] else if b == ESC_ESC then [ESC] else [ESC, b], false)
    else (if b == ESC || b == END then [] else [b], b == ESC)
  }

  lemma UnescapeTurn(frame: seq<byte>, i: nat, inEscape: bool)
    requires i < |frame|
    ensures Unescape(frame[i..], inEscape)
         == Turn(frame[i], inEscape).0 + Unescape(frame[i + 1..], Turn(frame[i], inEscape).1)
  {
    var rest := frame[i..];
    assert rest[0] == frame[i] && rest[1..] == frame[i + 1..];
  }

  method Decode(frame: seq<byte>) returns (result: seq<byte>)
    ensures result == Unescape(frame, false)
  {
    result := [];
    var inEscape := false;
    assert frame[0..] == frame;
    for i := 0 to |frame|
      invariant result + Unescape(frame[i..], inEscape) == Unescape(frame, false)
    {
      var b := frame[i];
      ghost var turn := Turn(b, inEscape);
      UnescapeTurn(frame, i, inEscape);
      Regrouped(result, turn.0, Unescape(frame[i + 1..], turn.1));
      if inEscape {
        if b == ESC_END {
          result := result + [END];
        } else if b == ESC_ESC {
          result := result + [ESC];
        } else {
          result := result + [ESC, b];
        }
        inEscape := false;
      } else if b == ESC {
        inEscape := true;
      } else if b != END {
        result := result + [b];
      }
    }
    assert frame[|frame|..] == [];
  }

  lemma UnescapeUnit(b: byte, tail: seq<byte>)
    ensures Unescape(EscapeByte(b) + tail, false) == [b] + Unescape(tail, false)
  {
    var all := EscapeByte(b) + tail;
    if b == END || b == ESC {
      assert all[1..][1..] == tail;
      assert Unescape(all, false) == Unescape(all[1..], true);
    } else {
      assert all[1..] == tail;
    }
  }

  lemma {:induction false} UnescapeEscaped(data: seq<byte>, tail: seq<byte>)
    ensures Unescape(EscapeEach(data) + tail, false) == data + Unescape(tail, false)
  {
    if data == [] {
      assert EscapeEach(data) + tail == tail;
    } else {
      UnescapeEscaped(data[1..], tail);
      UnescapeUnit(data[0], EscapeEach(data[1..]) + tail);
      Regrouped(EscapeByte(data[0]), EscapeEach(data[1..]), tail);
      Regrouped([data[0]], data[1..], Unescape(tail, false));
      assert [data[0]] + data[1..] == data;
    }
  }

  /** Decoding inverts encoding for every byte string. */
  lemma DecodeInvertsEncode(data: seq<byte>)
    ensures Unescape(Encode(data), false) == data
  {
    TwoPassesEscapeEachByte(data);
    UnescapeEscaped(data, [END]);
    assert Encode(data)[1..] == EscapeEach(data) + [END];
    assert [END][1..] == [];
  }

  // --------------------------------------------------------- stream automaton

  /** The reader's local variables between two bytes. */
  datatype Scan = Scan(inFrame: bool, inEscape: bool, partial: seq<byte>)

  const START := Scan(false, false, [])

  /** What a run of the reader over some bytes ends in; `rest` are the bytes it did not look at. */
  datatype Outcome =
    | More(scan: Scan)
    | Packet(packet: seq<byte>, rest: seq<byte>)
    | Invalid(escaped: byte, rest: seq<byte>)

  /** One byte of the reader: `rest` of the result is always empty. */
  function Step(s: Scan, b: byte): Outcome {
    if !s.inFrame then
      More(if b == END then s.(inFrame := true, partial := []) else s)
    else if s.inEscape then
      if b == ESC_END then More(s.(inEscape := false, partial := s.partial + [END]))
      else if b == ESC_ESC then More(s.(inEscape := false, partial := s.partial + [ESC]))
      else Invalid(b, [])
    else if b == END then
      if s.partial != [] then Packet(s.partial, []) else More(s)
    else if b == ESC then More(s.(inEscape := true))
    else More(s.(partial := s.partial + [b]))
  }

  function Feed(s: Scan, data: seq<byte>): (o: Outcome)
    ensures !o.More? ==> |o.rest| < |data|
    decreases |data|
  {
    if data == [] then More(s)
    else match Step(s, data[0])
      case More(s') => Feed(s', data[1..])
      case Packet(p, _) => Packet(p, data[1..])
      case Invalid(b, _) => Invalid(b, data[1..])
  }

  /** Cutting the input anywhere does not change what the reader finds. */
  lemma {:induction false} FeedAppend(s: Scan, a: seq<byte>, b: seq<byte>)
    ensures Feed(s, a + b) ==
            match Feed(s, a)
            case More(s') => Feed(s', b)
            case Packet(p, rest) => Packet(p, rest + b)
            case Invalid(x, rest) => Invalid(x, rest + b)
    decreases |a|
  {
    if a == [] {
      assert a + b == b;
    } else {
      assert (a + b)[1..] == a[1..] + b;
      match Step(s, a[0])
      case More(s') => FeedAppend(s', a[1..], b);
      case _ =>
    }
  }

  lemma FeedUnit(b: byte, partial: seq<byte>, tail: seq<byte>)
    ensures Feed(Scan(true, false, partial), EscapeByte(b) + tail) == Feed(Scan(true, false, partial + [b]), tail)
  {
    var all := EscapeByte(b) + tail;
    if b == END || b == ESC {
      assert all[1..][1..] == tail;
      assert Feed(Scan(true, false, partial), all) == Feed(Scan(true, true, partial), all[1..]);
    } else {
      assert all[1..] == tail;
    }
  }

  lemma {:induction false} FeedEscaped(data: seq<byte>, partial: seq<byte>, tail: seq<byte>)
    ensures Feed(Scan(true, false, partial), EscapeEach(data) + tail)
         == Feed(Scan(true, false, partial + data), tail)
  {
    if data == [] {
      assert EscapeEach(data) + tail == tail && partial + data == partial;
    } else {
      FeedUnit(data[0], partial, EscapeEach(data[1..]) + tail);
      FeedEscaped(data[1..], partial + [data[0]], tail);
      Regrouped(EscapeByte(data[0]), EscapeEach(data[1..]), tail);
      Regrouped(partial, [data[0]], data[1..]);
      assert [data[0]] + data[1..] == data;
    }
  }

  /** A frame ends the scan with its packet, unless the packet is empty: then the scan goes on. */
  lemma FeedFrame(s: Scan, packet: seq<byte>, tail: seq<byte>)
    requires !s.inEscape && s.partial == []
    ensures Feed(s, Encode(packet) + tail) ==
            if packet == [] then Feed(Scan(true, false, []), tail) else Packet(packet, tail)
  {
    TwoPassesEscapeEachByte(packet);
    var framed := Scan(true, false, []);
    assert Encode(packet) + tail == [END] + (EscapeEach(packet) + ([END] + tail));
    FeedAppend(s, [END], EscapeEach(packet) + ([END] + tail));
    assert [END][1..] == [];
    assert Feed(s, [END]) == More(framed);
    FeedEscaped(packet, [], [END] + tail);
    assert [] + packet == packet;
    assert ([END] + tail)[1..] == tail;
  }

  /** An escape byte that is followed by neither code is an error at the byte behind it. */
  lemma BadEscapeIsInvalid(s: Scan, data: seq<byte>, bad: byte, tail: seq<byte>)
    requires !s.inFrame && !s.inEscape && bad != ESC_END && bad != ESC_ESC
    ensures Feed(s, [END] + (EscapeEach(data) + ([ESC, bad] + tail))) == Invalid(bad, tail)
  {
    var body := EscapeEach(data) + ([ESC, bad] + tail);
    FeedAppend(s, [END], body);
    assert [END][1..] == [];
    assert Feed(s, [END]) == More(s.(inFrame := true, partial := []));
    FeedEscapedFrom(s.(inFrame := true, partial := []), data, [ESC, bad] + tail);
    assert ([ESC, bad] + tail)[1..] == [bad] + tail && ([bad] + tail)[1..] == tail;
  }

  lemma FeedEscapedFrom(s: Scan, data: seq<byte>, tail: seq<byte>)
    requires s.inFrame && s.partial == []
    ensures !s.inEscape ==> Feed(s, EscapeEach(data) + tail) == Feed(Scan(true, false, data), tail)
  {
    if !s.inEscape {
      FeedEscaped(data, [], tail);
      assert [] + data == data;
    }
  }

  /** Noise before the first delimiter is passed over. */
  lemma {:induction false} NoiseIsSkipped(s: Scan, noise: seq<byte>, tail: seq<byte>)
    requires !s.inFrame && END !in noise
    ensures Feed(s, noise + tail) == Feed(s, tail)
  {
    if noise == [] {
      assert noise + tail == tail;
    } else {
      assert (noise + tail)[0] == noise[0] && (noise + tail)[1..] == noise[1..] + tail && noise[0] in noise;
      NoiseIsSkipped(s, noise[1..], tail);
    }
  }

  lemma FeedOneFrame(packet: seq<byte>)
    requires packet != []
    ensures Feed(START, Encode(packet)) == Packet(packet, [])
  {
    FeedFrame(START, packet, []);
    assert Encode(packet) + [] == Encode(packet);
  }

  // ------------------------------------------------------------------ streams

  function EncodeAll(packets: seq<seq<byte>>): seq<byte> {
    if packets == [] then [] else Encode(packets[0]) + EncodeAll(packets[1..])
  }

  function NonEmpty(packets: seq<seq<byte>>): seq<seq<byte>> {
    if packets == [] then []
    else (if packets[0] == [] then [] else [packets[0]]) + NonEmpty(packets[1..])
  }

  /** The packets that successive reads from a stream return, up to the first read that finds none. */
  function Frames(stream: seq<byte>): seq<seq<byte>>
    decreases |stream|
  {
    match Feed(START, stream)
    case Packet(p, rest) => [p] + Frames(rest)
    case _ => []
  }

  lemma {:induction false} EncodeAllAppend(a: seq<seq<byte>>, b: seq<seq<byte>>)
    ensures EncodeAll(a + b) == EncodeAll(a) + EncodeAll(b)
  {
    if a == [] {
      assert a + b == b;
    } else {
      assert (a + b)[1..] == a[1..] + b;
      EncodeAllAppend(a[1..], b);
    }
  }

  /** What follows the first non-empty packet. */
  function AfterFirst(packets: seq<seq<byte>>): (r: seq<seq<byte>>)
    ensures packets != [] ==> |r| < |packets|
    ensures NonEmpty(packets) != [] ==> NonEmpty(r) == NonEmpty(packets)[1..]
  {
    if packets == [] then []
    else if packets[0] != [] then packets[1..]
    else AfterFirst(packets[1..])
  }

  lemma {:induction false} FeedEncodeAll(s: Scan, packets: seq<seq<byte>>)
    requires !s.inEscape && s.partial == []
    ensures Feed(s, EncodeAll(packets)) ==
            if NonEmpty(packets) == [] then More(if packets == [] then s else Scan(true, false, []))
            else Packet(NonEmpty(packets)[0], EncodeAll(AfterFirst(packets)))
    decreases |packets|
  {
    if packets != [] {
      FeedFrame(s, packets[0], EncodeAll(packets[1..]));
      if packets[0] == [] {
        FeedEncodeAll(Scan(true, false, []), packets[1..]);
      }
    }
  }

  /** Successive reads return exactly the non-empty packets, in order. */
  lemma {:induction false} FramesOfEncodedPackets(packets: seq<seq<byte>>)
    ensures Frames(EncodeAll(packets)) == NonEmpty(packets)
    decreases |packets|
  {
    FeedEncodeAll(START, packets);
    if NonEmpty(packets) != [] {
      FramesOfEncodedPackets(AfterFirst(packets));
    }
  }
}
