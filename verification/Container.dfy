/**
 The multi-part image container: how `ConvertELFToESPImage` frames its parts and how
 `ParseMultiPartImage` reads them back (internal/flash/convert.go).
 */
module Container {
  import opened Wrappers
  import opened Bytes

  datatype Part = Part(offset: nat, data: seq<byte>)

  const HEADER: nat := 8

  function FrameOne(p: Part): (r: seq<byte>)
    ensures |r| == HEADER + |p.data|
  {
    PutU32Be(p.offset) + PutU32Be(|p.data|) + p.data
  }

  function Frame(parts: seq<Part>): seq<byte> {
    if parts == [] then [] else FrameOne(parts[0]) + Frame(parts[1..])
  }

  method FrameParts(parts: seq<Part>) returns (result: seq<byte>)
    ensures result == Frame(parts)
  {
    result := [];
    for i := 0 to |parts|
      invariant result + Frame(parts[i..]) == Frame(parts)
    {
      assert parts[i..][0] == parts[i] && parts[i..][1..] == parts[i + 1..];
      result := result + PutU32Be(parts[i].offset) + PutU32Be(|parts[i].data|);
      result := result + parts[i].data;
      assert result + Frame(parts[i + 1..]) == Frame(parts);
    }
  }

  /** What the parser makes of the bytes it has not read; nothing when a header or its data is cut short. */
  function Parse(data: seq<byte>): Option<seq<Part>>
    decreases |data|
  {
    if data == [] then Some([])
    else if |data| < HEADER then None
    else
      var offset, length := GetU32Be(data[..4]), GetU32Be(data[4..8]);
      if HEADER + length > |data| then None
      else
        match Parse(data[HEADER + length..])
        case None => None
        case Some(rest) => Some([Part(offset, data[HEADER..HEADER + length])] + rest)
  }

  function After(parts: seq<Part>, rest: Option<seq<Part>>): Option<seq<Part>> {
    match rest
    case None => None
    case Some(more) => Some(parts + more)
  }

  lemma AfterOne(parts: seq<Part>, p: Part, rest: Option<seq<Part>>)
    ensures After(parts, After([p], rest)) == After(parts + [p], rest)
  {
    if rest.Some? {
      assert parts + ([p] + rest.value) == (parts + [p]) + rest.value;
    }
  }

  /** What the parser makes of the rest of the data from a complete header on. */
  lemma ParseOne(data: seq<byte>, offset: nat)
    requires offset + HEADER <= |data|
    ensures var length := GetU32Be(data[offset + 4..offset + 8]);
            var start := offset + HEADER;
            Parse(data[offset..]) == if start + length > |data| then None
                                     else After([Part(GetU32Be(data[offset..offset + 4]), data[start..start + length])],
                                                Parse(data[start + length..]))
  {
    var rest := data[offset..];
    assert rest[..4] == data[offset..offset + 4] && rest[4..8] == data[offset + 4..offset + 8];
    var length := GetU32Be(rest[4..8]);
    if HEADER + length <= |rest| {
      var start := offset + HEADER;
      assert rest[HEADER..HEADER + length] == data[start..start + length]
             && rest[HEADER + length..] == data[start + length..];
    }
  }

  /** One turn of the parser's loop. */
  lemma ParseTurn(parts: seq<Part>, data: seq<byte>, offset: nat)
    requires offset + HEADER <= |data|
    ensures var length := GetU32Be(data[offset + 4..offset + 8]);
            var start := offset + HEADER;
            After(parts, Parse(data[offset..]))
            == if start + length > |data| then None
               else After(parts + [Part(GetU32Be(data[offset..offset + 4]), data[start..start + length])],
                          Parse(data[start + length..]))
  {
    ParseOne(data, offset);
    var length, start := GetU32Be(data[offset + 4..offset + 8]), offset + HEADER;
    if start + length <= |data| {
      var part := Part(GetU32Be(data[offset..offset + 4]), data[start..start + length]);
      AfterOne(parts, part, Parse(data[start + length..]));
    }
  }

  method ParseMultiPartImage(data: seq<byte>) returns (r: Option<seq<Part>>)
    ensures r == Parse(data)
  {
    var parts: seq<Part> := [];
    var offset := 0;
    assert data[0..] == data;
    assert Parse(data).Some? ==> [] + Parse(data).value == Parse(data).value;
    while offset < |data|
      invariant offset <= |data|
      invariant After(parts, Parse(data[offset..])) == Parse(data)
    {
      if offset + 8 > |data| {
        return None;
      }
      var partOffset := GetU32Be(data[offset..offset + 4]);
      var partLength := GetU32Be(data[offset + 4..offset + 8]);
      ParseTurn(parts, data, offset);
      offset := offset + 8;
      if offset + partLength > |data| {
        return None;
      }
      parts := parts + [Part(partOffset, data[offset..offset + partLength])];
      offset := offset + partLength;
    }
    assert data[offset..] == [] && parts + [] == parts;
    return Some(parts);
  }

  /** Offsets and lengths that the 32-bit header fields can hold. */
  predicate Framable(parts: seq<Part>) {
    forall i :: 0 <= i < |parts| ==> parts[i].offset < TWO32 && |parts[i].data| < TWO32
  }

  lemma FrameOneParts(p: Part, rest: seq<byte>)
    requires p.offset < TWO32 && |p.data| < TWO32
    ensures var all := FrameOne(p) + rest;
            && GetU32Be(all[..4]) == p.offset && GetU32Be(all[4..8]) == |p.data|
            && all[HEADER..HEADER + |p.data|] == p.data && all[HEADER + |p.data|..] == rest
  {
    var all := FrameOne(p) + rest;
    assert all[..4] == PutU32Be(p.offset) && all[4..8] == PutU32Be(|p.data|);
    U32BeRoundTrip(p.offset);
    U32BeRoundTrip(|p.data|);
  }

  lemma {:induction false} ParseFramed(parts: seq<Part>)
    requires Framable(parts)
    ensures Parse(Frame(parts)) == Some(parts)
    decreases |parts|
  {
    if parts != [] {
      ParseFramed(parts[1..]);
      FrameOneParts(parts[0], Frame(parts[1..]));
      assert [parts[0]] + parts[1..] == parts;
    }
  }

  lemma HeaderBytes(data: seq<byte>, p: Part)
    requires HEADER + |p.data| <= |data| && p.data == data[HEADER..HEADER + |p.data|]
    requires p.offset == GetU32Be(data[..4]) && |p.data| == GetU32Be(data[4..8])
    ensures FrameOne(p) + data[HEADER + |p.data|..] == data
  {
    U32BeBytes(data[..4]);
    U32BeBytes(data[4..8]);
    assert data[..4] + data[4..8] + p.data + data[HEADER + |p.data|..] == data;
  }

  /** Whatever is accepted is exactly the framing of what was parsed. */
  lemma {:induction false} FrameParsed(data: seq<byte>)
    requires Parse(data).Some?
    ensures Frame(Parse(data).value) == data && Framable(Parse(data).value)
    decreases |data|
  {
    if data != [] {
      var all := Parse(data).value;
      var tail := data[HEADER + |all[0].data|..];
      FrameParsed(tail);
      HeaderBytes(data, all[0]);
      assert all[1..] == Parse(tail).value;
    }
  }

  /** Parsing inverts framing exactly for parts whose offsets and lengths fit 32 bits. */
  lemma RoundTrip(parts: seq<Part>)
    ensures Parse(Frame(parts)) == Some(parts) <==> Framable(parts)
  {
    if Framable(parts) {
      ParseFramed(parts);
    }
    if Parse(Frame(parts)) == Some(parts) {
      FrameParsed(Frame(parts));
    }
  }

  /** The parser accepts exactly the framings of such parts. */
  lemma AcceptsExactlyFramings(data: seq<byte>)
    ensures Parse(data).Some? <==> exists parts :: Framable(parts) && Frame(parts) == data
  {
    if Parse(data).Some? {
      FrameParsed(data);
    }
    if parts :| Framable(parts) && Frame(parts) == data {
      ParseFramed(parts);
    }
  }
}
