/** The firmware image header and its digest (internal/espflash/image.go). */
module Image {
  import opened Wrappers
  import opened Bytes

  const MAGIC: byte := 0xE9
  const KEEP: byte := 0xFF
  const LOW_NIBBLE: nat := 0x0F
  const HIGH_NIBBLE: nat := 0xF0
  const DIGEST: nat := 32
  const HEADER: nat := 24

  /** SHA-256, of which only the length of its result matters here. */
  type Hash = h: seq<byte> -> seq<byte> | forall x :: |h(x)| == DIGEST witness (_ => seq(DIGEST, _ => 0))

  datatype HeaderOptions = HeaderOptions(mode: string, freq: string, size: string)
  datatype ChipDef = ChipDef(isESP8266: bool, frequencies: map<string, byte>, sizes: map<string, byte>)

  const MODES: map<string, byte> := map["qio" := 0x00, "qout" := 0x01, "dio" := 0x02, "dout" := 0x03]

  // ------------------------------------------------------------ image structure

  /** Where the segments end when `count` of them start at `pos`. */
  function SegmentsEnd(data: seq<byte>, pos: nat, count: nat): (r: Option<nat>)
    requires pos <= |data|
    ensures r.Some? ==> pos <= r.value <= |data|
    decreases count
  {
    if count == 0 then Some(pos)
    else if pos + 8 > |data| then None
    else
      var next := pos + 8 + U32LeAt(data, pos + 4);
      if next > |data| then None else SegmentsEnd(data, next, count - 1)
  }

  /** The offset of the digest: after the segments, up to a multiple of 16 that leaves room for the checksum byte. */
  function DataLength(data: seq<byte>): (r: Option<nat>) {
    if |data| < HEADER || data[0] != MAGIC then None
    else
      match SegmentsEnd(data, HEADER, data[1] as nat)
      case None => None
      case Some(end) => var n := end + 16 - end % 16; if n > |data| then None else Some(n)
  }

  /** `imageDataLength`; -1 when the image cannot be parsed. */
  method ImageDataLength(data: seq<byte>) returns (n: int)
    ensures match DataLength(data) case None => n == -1 case Some(v) => n == v
  {
    if |data| < HEADER || data[0] != MAGIC {
      return -1;
    }
    var segCount := data[1] as nat;
    var pos: nat, i: nat := HEADER, 0;
    while i < segCount
      invariant i <= segCount && pos <= |data|
      invariant SegmentsEnd(data, pos, segCount - i) == SegmentsEnd(data, HEADER, segCount)
    {
      if pos + 8 > |data| {
        return -1;
      }
      pos := pos + 8 + U32LeAt(data, pos + 4);
      if pos > |data| {
        return -1;
      }
      i := i + 1;
    }
    n := pos + 16 - pos % 16;
    if n > |data| {
      return -1;
    }
  }

  lemma DigestIsAligned(data: seq<byte>)
    requires DataLength(data).Some?
    ensures var end := SegmentsEnd(data, HEADER, data[1] as nat).value;
            var n := DataLength(data).value;
            n % 16 == 0 && end < n <= end + 16
  {
    var end := SegmentsEnd(data, HEADER, data[1] as nat).value;
    assert end == 16 * (end / 16) + end % 16;
    assert end + 16 - end % 16 == 16 * (end / 16 + 1);
  }

  // ------------------------------------------------------------------- patching

  /** A named option: KEEP when unset, nothing when the name is unknown. */
  function Choose(name: string, table: Option<map<string, byte>>): Option<byte> {
    if name == "" || name == "keep" then Some(KEEP)
    else if table.None? || name !in table.value then None
    else Some(table.value[name])
  }

  /** The byte holding the flash size in its upper and the flash frequency in its lower nibble. */
  function SizeFreq(b: byte, size: byte, freq: byte): byte {
    OrByte(And(b as nat, LOW_NIBBLE), size as nat);
    var sized := if size != KEEP then Or(And(b as nat, LOW_NIBBLE), size as nat) else b as nat;
    OrByte(And(sized, HIGH_NIBBLE), freq as nat);
    (if freq != KEEP then Or(And(sized, HIGH_NIBBLE), freq as nat) else sized) as byte
  }

  function WithHeader(data: seq<byte>, mode: byte, freq: byte, size: byte): (r: seq<byte>)
    requires |data| >= 4
    ensures |r| == |data|
  {
    data[2 := if mode != KEEP then mode else data[2]][3 := SizeFreq(data[3], size, freq)]
  }

  /** Whether, and where, the image carries a digest that has to be kept right. */
  function DigestAt(chip: Option<ChipDef>, data: seq<byte>): (r: Option<nat>)
    ensures r.Some? ==> r == DataLength(data) && r.value + DIGEST <= |data|
  {
    if chip.Some? && !chip.value.isESP8266 && |data| >= HEADER + DIGEST && data[23] % 2 != 0
    then
      var n := DataLength(data);
      if n.Some? && n.value + DIGEST <= |data| then n else None
    else None
  }

  function WithDigest(chip: Option<ChipDef>, sha: Hash, data: seq<byte>): (r: seq<byte>)
    ensures |r| == |data|
  {
    match DigestAt(chip, data)
    case None => data
    case Some(n) => data[..n] + sha(data[..n]) + data[n + DIGEST..]
  }

  /** `patchImageHeader`; nothing for an option the chip does not know. */
  function Patch(opts: HeaderOptions, chip: Option<ChipDef>, sha: Hash, data: seq<byte>): Option<seq<byte>> {
    if |data| < 4 || data[0] != MAGIC then Some(data)
    else
      var mode := Choose(opts.mode, Some(MODES));
      var freq := Choose(opts.freq, if chip.Some? then Some(chip.value.frequencies) else None);
      var size := Choose(opts.size, if chip.Some? then Some(chip.value.sizes) else None);
      if mode.None? || freq.None? || size.None? then None
      else if mode.value == KEEP && freq.value == KEEP && size.value == KEEP then Some(data)
      else Some(WithDigest(chip, sha, WithHeader(data, mode.value, freq.value, size.value)))
  }

  method PatchImageHeader(opts: HeaderOptions, chip: Option<ChipDef>, sha: Hash, data: seq<byte>)
    returns (r: Option<seq<byte>>)
    ensures r == Patch(opts, chip, sha, data)
  {
    if |data| < 4 || data[0] != MAGIC {
      return Some(data);
    }
    var mode := Choose(opts.mode, Some(MODES));
    if mode.None? {
      return None;
    }
    var freq := Choose(opts.freq, if chip.Some? then Some(chip.value.frequencies) else None);
    if freq.None? {
      return None;
    }
    var size := Choose(opts.size, if chip.Some? then Some(chip.value.sizes) else None);
    if size.None? {
      return None;
    }
    if mode.value == KEEP && freq.value == KEEP && size.value == KEEP {
      return Some(data);
    }
    var patched := CopyOf(data);
    PatchBytes(patched, mode.value, freq.value, size.value);
    UpdateDigest(chip, sha, patched);
    return Some(patched[..]);
  }

  method CopyOf(data: seq<byte>) returns (a: array<byte>)
    ensures fresh(a) && a[..] == data
  {
    a := new byte[|data|](i requires 0 <= i < |data| => data[i]);
  }

  method PatchBytes(patched: array<byte>, mode: byte, freq: byte, size: byte)
    requires patched.Length >= 4
    modifies patched
    ensures patched[..] == WithHeader(old(patched[..]), mode, freq, size)
  {
    if mode != KEEP {
      patched[2] := mode;
    }
    if freq != KEEP || size != KEEP {
      patched[3] := SizeFreq(patched[3], size, freq);
    }
  }

  /** The last step of patching: the digest of the image is computed again, in place. */
  method UpdateDigest(chip: Option<ChipDef>, sha: Hash, patched: array<byte>)
    modifies patched
    ensures patched[..] == WithDigest(chip, sha, old(patched[..]))
  {
    if chip.Some? && !chip.value.isESP8266 && patched.Length >= HEADER + DIGEST && patched[23] % 2 != 0 {
      var n := ImageDataLength(patched[..]);
      if n >= 0 && n + DIGEST <= patched.Length {
        var hash := sha(patched[..n]);
        assert patched[..n] == patched[..][..n] && patched[n + DIGEST..] == patched[..][n + DIGEST..];
        CopyInto(patched, n, hash);
      }
    }
  }

  method CopyInto(a: array<byte>, at: nat, src: seq<byte>)
    requires at + |src| <= a.Length
    modifies a
    ensures a[..] == old(a[..at]) + src + old(a[at + |src|..])
  {
    for i := 0 to |src|
      invariant forall k :: 0 <= k < a.Length ==> a[k] == if at <= k < at + i then src[k - at] else old(a[k])
    {
      a[at + i] := src[i];
    }
  }

  // --------------------------------------------------------------- what it keeps

  ghost predicate Agree(a: seq<byte>, b: seq<byte>, low: nat, high: nat) {
    |a| == |b| && high <= |a| && forall i :: low <= i < high ==> a[i] == b[i]
  }

  /** Parsing reads only the length, the first two bytes and what lies before the end it finds. */
  lemma {:induction false} SegmentsEndAgrees(a: seq<byte>, b: seq<byte>, pos: nat, count: nat, high: nat)
    requires pos <= |a| && Agree(a, b, pos, high)
    requires match SegmentsEnd(a, pos, count) case Some(end) => end <= high case None => high == |a|
    ensures SegmentsEnd(b, pos, count) == SegmentsEnd(a, pos, count)
    decreases count
  {
    if count > 0 && pos + 8 <= |a| {
      var next := pos + 8 + U32LeAt(a, pos + 4);
      assert pos + 8 <= high;
      if next <= |a| {
        SegmentsEndAgrees(a, b, next, count - 1, high);
      }
    }
  }

  lemma AgreeKeepsLength(a: seq<byte>, b: seq<byte>, high: nat)
    requires Agree(a, b, HEADER, high) && (|a| >= 2 ==> a[0] == b[0] && a[1] == b[1])
    requires match DataLength(a) case Some(n) => n <= high case None => high == |a|
    ensures DataLength(b) == DataLength(a)
  {
    if |a| >= HEADER {
      if DataLength(a).Some? {
        DigestIsAligned(a);
      }
      SegmentsEndAgrees(a, b, HEADER, a[1] as nat, high);
    }
  }

  lemma HeaderKeepsLength(data: seq<byte>, mode: byte, freq: byte, size: byte)
    requires |data| >= 4
    ensures DataLength(WithHeader(data, mode, freq, size)) == DataLength(data)
  {
    AgreeKeepsLength(data, WithHeader(data, mode, freq, size), |data|);
  }

  lemma WithDigestAgrees(chip: Option<ChipDef>, sha: Hash, data: seq<byte>)
    requires DigestAt(chip, data).Some?
    ensures Agree(data, WithDigest(chip, sha, data), 0, DigestAt(chip, data).value)
  {
  }

  lemma DigestKeepsLength(chip: Option<ChipDef>, sha: Hash, data: seq<byte>)
    ensures DataLength(WithDigest(chip, sha, data)) == DataLength(data)
    ensures DigestAt(chip, WithDigest(chip, sha, data)) == DigestAt(chip, data)
  {
    var n := DigestAt(chip, data);
    if n.Some? {
      var r := WithDigest(chip, sha, data);
      DigestIsAligned(data);
      WithDigestAgrees(chip, sha, data);
      assert r[0] == data[0] && r[1] == data[1] && r[23] == data[23];
      AgreeKeepsLength(data, r, n.value);
    }
  }

  // ---------------------------------------------------------------- main results

  ghost function Chosen(opts: HeaderOptions, chip: Option<ChipDef>): (byte, byte, byte)
    requires Choose(opts.mode, Some(MODES)).Some?
    requires Choose(opts.freq, if chip.Some? then Some(chip.value.frequencies) else None).Some?
    requires Choose(opts.size, if chip.Some? then Some(chip.value.sizes) else None).Some?
  {
    (Choose(opts.mode, Some(MODES)).value,
     Choose(opts.freq, if chip.Some? then Some(chip.value.frequencies) else None).value,
     Choose(opts.size, if chip.Some? then Some(chip.value.sizes) else None).value)
  }

  /** An ESP image for which some header option is set to a known value. */
  ghost predicate Patches(opts: HeaderOptions, chip: Option<ChipDef>, sha: Hash, data: seq<byte>) {
    && |data| >= 4 && data[0] == MAGIC && Patch(opts, chip, sha, data).Some?
    && Chosen(opts, chip) != (KEEP, KEEP, KEEP)
  }

  /** Where patching may change a byte. */
  predicate Patchable(chip: Option<ChipDef>, data: seq<byte>, i: nat) {
    i == 2 || i == 3 ||
    (DigestAt(chip, data).Some? && DigestAt(chip, data).value <= i < DigestAt(chip, data).value + DIGEST)
  }

  /**
   Patching keeps every byte but the two header bytes and the digest, and keeps the parsed length. When an option
   is set, it leaves a digest, where there is one, that is the hash of the patched content before it.
   */
  lemma PatchKeepsImage(opts: HeaderOptions, chip: Option<ChipDef>, sha: Hash, data: seq<byte>)
    requires Patch(opts, chip, sha, data).Some?
    ensures var r := Patch(opts, chip, sha, data).value;
            && |r| == |data| && DataLength(r) == DataLength(data) && DigestAt(chip, r) == DigestAt(chip, data)
            && (forall i :: 0 <= i < |r| && !Patchable(chip, data, i) ==> r[i] == data[i])
            && (Patches(opts, chip, sha, data) && DigestAt(chip, r).Some? ==>
                  var n := DigestAt(chip, r).value;
                  r[n..n + DIGEST] == sha(r[..n]))
  {
    if Patches(opts, chip, sha, data) {
      var (mode, freq, size) := Chosen(opts, chip);
      HeaderKeepsImage(chip, data, mode, freq, size);
      var h := WithHeader(data, mode, freq, size);
      DigestIsHash(chip, sha, h);
      OnlyDigestChanges(chip, sha, h);
    }
  }

  lemma HeaderKeepsImage(chip: Option<ChipDef>, data: seq<byte>, mode: byte, freq: byte, size: byte)
    requires |data| >= 4
    ensures var h := WithHeader(data, mode, freq, size);
            && |h| == |data| && DataLength(h) == DataLength(data) && DigestAt(chip, h) == DigestAt(chip, data)
            && forall i :: 0 <= i < |h| && i != 2 && i != 3 ==> h[i] == data[i]
  {
    HeaderKeepsLength(data, mode, freq, size);
  }

  lemma OnlyDigestChanges(chip: Option<ChipDef>, sha: Hash, data: seq<byte>)
    ensures var r := WithDigest(chip, sha, data);
            var at := DigestAt(chip, data);
            forall i :: 0 <= i < |r| && !(at.Some? && at.value <= i < at.value + DIGEST) ==> r[i] == data[i]
  {
    var at := DigestAt(chip, data);
    if at.Some? {
      var n, middle := at.value, sha(data[..at.value]);
      assert WithDigest(chip, sha, data) == data[..n] + middle + data[n + |middle|..];
      OnlyTheMiddleChanges(data, n, middle);
    }
  }

  lemma OnlyTheMiddleChanges(data: seq<byte>, n: nat, middle: seq<byte>)
    requires n + |middle| <= |data|
    ensures var r := data[..n] + middle + data[n + |middle|..];
            |r| == |data| && forall i :: 0 <= i < |r| && !(n <= i < n + |middle|) ==> r[i] == data[i]
  {
  }

  lemma DigestIsHash(chip: Option<ChipDef>, sha: Hash, data: seq<byte>)
    ensures var r := WithDigest(chip, sha, data);
            && DataLength(r) == DataLength(data) && DigestAt(chip, r) == DigestAt(chip, data)
            && match DigestAt(chip, data)
               case None => r == data
               case Some(n) =>
                 r[n..n + DIGEST] == sha(r[..n]) && r[..n] == data[..n] && r[n + DIGEST..] == data[n + DIGEST..]
  {
    DigestKeepsLength(chip, sha, data);
    var r := WithDigest(chip, sha, data);
    var n := DigestAt(chip, data);
    if n.Some? {
      assert r[..n.value] == data[..n.value];
    }
  }

  lemma SizeFreqTwice(b: byte, size: byte, freq: byte)
    ensures SizeFreq(SizeFreq(b, size, freq), size, freq) == SizeFreq(b, size, freq)
  {
    var x, s, q := b as nat, size as nat, freq as nat;
    if size == KEEP {
      MaskAbsorbs(x, HIGH_NIBBLE, q);
    } else if freq == KEEP {
      MaskAbsorbs(x, LOW_NIBBLE, s);
    } else {
      NibblesAreDisjoint();
      MaskDrops(x, LOW_NIBBLE, s, HIGH_NIBBLE);
      MaskDrops(SizeFreq(b, size, freq) as nat, LOW_NIBBLE, s, HIGH_NIBBLE);
    }
  }

  lemma NibblesAreDisjoint()
    ensures And(LOW_NIBBLE, HIGH_NIBBLE) == 0 && And(HIGH_NIBBLE, LOW_NIBBLE) == 0
  {
    assert And(1, 30) == 0 && And(30, 1) == 0;
    assert And(3, 60) == 0 && And(60, 3) == 0;
    assert And(7, 120) == 0 && And(120, 7) == 0;
  }

  /** Patching twice with the same options is patching once. */
  lemma PatchIsIdempotent(opts: HeaderOptions, chip: Option<ChipDef>, sha: Hash, data: seq<byte>)
    requires Patch(opts, chip, sha, data).Some?
    ensures Patch(opts, chip, sha, Patch(opts, chip, sha, data).value) == Patch(opts, chip, sha, data)
  {
    var r := Patch(opts, chip, sha, data).value;
    if Patches(opts, chip, sha, data) {
      var (mode, freq, size) := Chosen(opts, chip);
      var h := WithHeader(data, mode, freq, size);
      DigestIsHash(chip, sha, h);
      SizeFreqTwice(data[3], size, freq);
      var n := DigestAt(chip, h);
      if n.Some? {
        DigestIsAligned(h);
        assert r[..n.value][..4] == h[..n.value][..4];
        assert r[0] == h[0] && r[2] == h[2] && r[3] == h[3];
        assert WithDigest(chip, sha, r) == r;
      }
      assert WithHeader(r, mode, freq, size) == r;
    }
  }

  /**
   The chip reads its size and frequency back out of the patched byte exactly when the two codes stay in
   their nibbles, as those of every chip table do.
   */
  lemma CodesReadBack(b: byte, size: byte, freq: byte)
    requires size != KEEP && freq != KEEP
    ensures var x := SizeFreq(b, size, freq) as nat;
            (And(x, HIGH_NIBBLE) == size as nat && And(x, LOW_NIBBLE) == freq as nat)
            <==> (And(size as nat, LOW_NIBBLE) == 0 && And(freq as nat, HIGH_NIBBLE) == 0)
  {
    var x, s, q := SizeFreq(b, size, freq) as nat, size as nat, freq as nat;
    NibblesAreDisjoint();
    MaskDrops(b as nat, LOW_NIBBLE, s, HIGH_NIBBLE);
    assert x == Or(And(s, HIGH_NIBBLE), q);
    MaskDrops(s, HIGH_NIBBLE, q, LOW_NIBBLE);
    MaskedOr(s, HIGH_NIBBLE, q);
    Pow2Of8();
    MasksSplit(s, LOW_NIBBLE, HIGH_NIBBLE, 8);
    MasksSplit(q, LOW_NIBBLE, HIGH_NIBBLE, 8);
    OrZero(And(s, HIGH_NIBBLE));
  }

  // Images as they are built.

  /** A segment: its address, its length, and its bytes. */
  function Segment(address: nat, body: seq<byte>): (r: seq<byte>)
    ensures |r| == 8 + |body|
  {
    PutU32Le(address) + PutU32Le(|body|) + body
  }

  function Segments(list: seq<(nat, seq<byte>)>): seq<byte> {
    if list == [] then [] else Segment(list[0].0, list[0].1) + Segments(list[1..])
  }

  lemma Inside(before: seq<byte>, part: seq<byte>, after: seq<byte>, low: nat, high: nat)
    requires low <= high <= |part|
    ensures (before + part + after)[|before| + low..|before| + high] == part[low..high]
  {
  }

  lemma SegmentLength(before: seq<byte>, address: nat, body: seq<byte>, after: seq<byte>)
    requires |body| < TWO32
    ensures U32LeAt(before + Segment(address, body) + after, |before| + 4) == |body|
  {
    var data, part := before + Segment(address, body) + after, Segment(address, body);
    Inside(before, part, after, 4, 8);
    assert part[4..8] == PutU32Le(|body|);
    U32LeExact(|body|);
    assert U32LeAt(data, |before| + 4) == GetU32Le(data[|before| + 4..|before| + 8]);
  }

  lemma SegmentNext(before: seq<byte>, address: nat, body: seq<byte>, after: seq<byte>, count: nat)
    requires |body| < TWO32 && count > 0
    ensures var data := before + Segment(address, body) + after;
            SegmentsEnd(data, |before|, count) == SegmentsEnd(data, |before + Segment(address, body)|, count - 1)
  {
    SegmentLength(before, address, body, after);
  }

  /** The parser finds the end of the segments an image was built from, whatever precedes and follows them. */
  lemma {:induction false} SegmentsAreFound(before: seq<byte>, list: seq<(nat, seq<byte>)>, after: seq<byte>)
    requires forall i :: 0 <= i < |list| ==> |list[i].1| < TWO32
    ensures SegmentsEnd(before + Segments(list) + after, |before|, |list|) == Some(|before| + |Segments(list)|)
    decreases |list|
  {
    if list != [] {
      var first, rest := Segment(list[0].0, list[0].1), Segments(list[1..]);
      assert before + (first + rest) + after == before + first + (rest + after) by {
        Regrouped(before, first, rest);
        Regrouped(before + first, rest, after);
      }
      SegmentNext(before, list[0].0, list[0].1, rest + after, |list|);
      Regrouped(before + first, rest, after);
      SegmentsAreFound(before + first, list[1..], after);
    }
  }

  // Which images carry a digest.

  /**
   In an image that ends before its digest, has no digest flag, or is for an ESP8266 or an unknown chip, only the
   header changes.
   */
  lemma OnlyHeaderChanges(opts: HeaderOptions, chip: Option<ChipDef>, sha: Hash, data: seq<byte>, i: nat)
    requires Patch(opts, chip, sha, data).Some? && i < |data| && i != 2 && i != 3
    requires chip.None? || chip.value.isESP8266 || |data| < 56 || data[23] % 2 == 0 || DataLength(data).None?
             || DataLength(data).value + 32 > |data|
    ensures |Patch(opts, chip, sha, data).value| == |data| && Patch(opts, chip, sha, data).value[i] == data[i]
  {
    PatchKeepsImage(opts, chip, sha, data);
  }

  /** Any other image for which an option is set carries the hash of its patched content. */
  lemma DigestIsRenewed(opts: HeaderOptions, chip: ChipDef, sha: Hash, data: seq<byte>)
    requires Patch(opts, Some(chip), sha, data).Some? && (Set(opts.mode) || Set(opts.freq) || Set(opts.size))
    requires !chip.isESP8266 && |data| >= 56 && data[0] == 0xE9 && data[23] % 2 == 1
    requires DataLength(data).Some? && DataLength(data).value + 32 <= |data|
    requires forall n :: n in chip.sizes ==> chip.sizes[n] != 0xFF
    requires forall n :: n in chip.frequencies ==> chip.frequencies[n] != 0xFF
    ensures var r, n := Patch(opts, Some(chip), sha, data).value, DataLength(data).value;
            |r| == |data| && r[n..n + 32] == sha(r[..n])
  {
    PatchKeepsImage(opts, Some(chip), sha, data);
    assert Patches(opts, Some(chip), sha, data);
  }

  lemma NibbleMasks(v: nat)
    requires v < 0x100
    ensures And(v, LOW_NIBBLE) == v % 16 && And(v, HIGH_NIBBLE) == v - v % 16
  {
    AndLowNibble(v);
    NibblesAreDisjoint();
    Pow2Of8();
    MasksSplit(v, LOW_NIBBLE, HIGH_NIBBLE, 8);
  }

  lemma NibblesAdd(high: nat, low: nat)
    requires high < 0x100 && high % 16 == 0 && low < 16
    ensures Or(high, low) == high + low && Or(low, high) == high + low
  {
    NibblesApart(high, low);
    OrDisjoint(high, low);
    OrDisjoint(low, high);
  }

  lemma NibblesApart(high: nat, low: nat)
    requires high < 0x100 && high % 16 == 0 && low < 16
    ensures And(high, low) == 0 && And(low, high) == 0
  {
    assert And(high, HIGH_NIBBLE) == high by {
      NibbleMasks(high);
    }
    assert And(low, LOW_NIBBLE) == low by {
      NibbleMasks(low);
    }
    NibblesAreDisjoint();
    AndMasked(high, HIGH_NIBBLE, low, LOW_NIBBLE);
    AndMasked(low, LOW_NIBBLE, high, HIGH_NIBBLE);
  }

  /** A size code in the upper nibble and a frequency code in the lower one, or the byte's own nibble where unset. */
  lemma NibblesAsAsked(b: byte, size: byte, freq: byte)
    requires (size == KEEP || size % 16 == 0) && (freq == KEEP || freq < 16)
    ensures var r := SizeFreq(b, size, freq) as nat;
            && r / 16 == (if size != KEEP then size as nat else b as nat) / 16
            && r % 16 == if freq != KEEP then freq as nat else b as nat % 16
  {
    var sized := if size != KEEP then Or(And(b as nat, LOW_NIBBLE), size as nat) else b as nat;
    if size != KEEP {
      SizeSet(b as nat, size as nat);
    }
    if freq != KEEP {
      FreqSet(sized, freq as nat);
    }
  }

  lemma SizeSet(b: nat, size: nat)
    requires b < 0x100 && size < 0x100 && size % 16 == 0
    ensures var r := Or(And(b, LOW_NIBBLE), size); r < 0x100 && r / 16 == size / 16 && r % 16 == b % 16
  {
    assert Or(And(b, LOW_NIBBLE), size) == size + b % 16 by {
      NibbleMasks(b);
      NibblesAdd(size, b % 16);
    }
    NibbleSum(size, b % 16);
  }

  lemma NibbleSum(high: nat, low: nat)
    requires high % 16 == 0 && low < 16
    ensures (high + low) / 16 == high / 16 && (high + low) % 16 == low
    ensures high < 0x100 ==> high + low < 0x100
  {
  }

  lemma HighPart(b: nat)
    ensures (b - b % 16) % 16 == 0 && (b - b % 16) / 16 == b / 16 && b % 16 <= b
  {
  }

  lemma FreqSet(b: nat, freq: nat)
    requires b < 0x100 && freq < 16
    ensures var r := Or(And(b, HIGH_NIBBLE), freq); r < 0x100 && r / 16 == b / 16 && r % 16 == freq
  {
    HighPart(b);
    assert Or(And(b, HIGH_NIBBLE), freq) == (b - b % 16) + freq by {
      NibbleMasks(b);
      NibblesAdd(b - b % 16, freq);
    }
    NibbleSum(b - b % 16, freq);
  }

  predicate Set(name: string) { name != "" && name != "keep" }

  /** An option that is set has the code the table gives it; one that is not set leaves the old value. */
  ghost predicate Holds(table: Option<map<string, byte>>, name: string, code: nat, kept: nat) {
    if Set(name) then table.Some? && name in table.value && table.value[name] as nat == code else code == kept
  }

  function Sizes(chip: Option<ChipDef>): Option<map<string, byte>> {
    if chip.Some? then Some(chip.value.sizes) else None
  }

  function Frequencies(chip: Option<ChipDef>): Option<map<string, byte>> {
    if chip.Some? then Some(chip.value.frequencies) else None
  }

  /** Size codes stay in the upper nibble and frequency codes in the lower one, as those of every chip do. */
  ghost predicate CodesFit(chip: Option<ChipDef>) {
    chip.Some? ==>
      && (forall n :: n in chip.value.sizes ==> chip.value.sizes[n] % 16 == 0)
      && (forall n :: n in chip.value.frequencies ==> chip.value.frequencies[n] < 16)
  }

  lemma HeaderBytes(opts: HeaderOptions, chip: Option<ChipDef>, sha: Hash, data: seq<byte>)
    requires Patches(opts, chip, sha, data)
    ensures var r := Patch(opts, chip, sha, data).value;
            var (mode, freq, size) := Chosen(opts, chip);
            && |r| == |data| && r[2] == (if mode != KEEP then mode else data[2])
            && r[3] == SizeFreq(data[3], size, freq)
  {
    var (mode, freq, size) := Chosen(opts, chip);
    var h := WithHeader(data, mode, freq, size);
    OnlyDigestChanges(chip, sha, h);
    if DigestAt(chip, h).Some? {
      DigestIsAligned(h);
    }
  }

  /** Byte 2 of a patched ESP image is the mode that was asked for, or the old one. */
  lemma ModeAsAsked(opts: HeaderOptions, chip: Option<ChipDef>, sha: Hash, data: seq<byte>)
    requires |data| >= 4 && data[0] == 0xE9 && Patch(opts, chip, sha, data).Some?
    ensures var r := Patch(opts, chip, sha, data).value;
            && |r| == |data| && (!Set(opts.mode) ==> r[2] == data[2])
            && (opts.mode == "qio" ==> r[2] == 0) && (opts.mode == "qout" ==> r[2] == 1)
            && (opts.mode == "dio" ==> r[2] == 2) && (opts.mode == "dout" ==> r[2] == 3)
  {
    if Patches(opts, chip, sha, data) {
      HeaderBytes(opts, chip, sha, data);
    }
  }

  /** The nibbles of byte 3 are the chip's codes for the size and the frequency that were asked for, or the old ones. */
  lemma SizeAndFreqAsAsked(opts: HeaderOptions, chip: Option<ChipDef>, sha: Hash, data: seq<byte>)
    requires |data| >= 4 && data[0] == MAGIC && Patch(opts, chip, sha, data).Some? && CodesFit(chip)
    ensures var r := Patch(opts, chip, sha, data).value;
            && |r| == |data|
            && Holds(Sizes(chip), opts.size, r[3] as nat / 16 * 16, data[3] as nat / 16 * 16)
            && Holds(Frequencies(chip), opts.freq, r[3] as nat % 16, data[3] as nat % 16)
  {
    if Patches(opts, chip, sha, data) {
      var (mode, freq, size) := Chosen(opts, chip);
      HeaderBytes(opts, chip, sha, data);
      NibblesAsAsked(data[3], size, freq);
      CodeBack(size as nat);
    }
  }

  lemma CodeBack(size: nat)
    ensures size % 16 == 0 ==> size / 16 * 16 == size
  {
  }

  /**
   An image is refused exactly for an option that is set and unknown: a mode of another name, a code the chip lacks.
   */
  lemma RefusedIff(opts: HeaderOptions, chip: Option<ChipDef>, sha: Hash, data: seq<byte>)
    ensures Patch(opts, chip, sha, data).None? <==>
              && |data| >= 4 && data[0] == 0xE9
              && ((Set(opts.mode) && opts.mode !in {"qio", "qout", "dio", "dout"})
                  || (Set(opts.freq) && (chip.None? || opts.freq !in chip.value.frequencies))
                  || (Set(opts.size) && (chip.None? || opts.size !in chip.value.sizes)))
  {
  }

  /** Zero bytes up to a multiple of four. */
  function Pad4(data: seq<byte>): (r: seq<byte>)
    ensures |r| % 4 == 0 && |data| <= |r| < |data| + 4 && data <= r
    ensures forall i :: |data| <= i < |r| ==> r[i] == 0
  {
    if |data| % 4 != 0 then data + seq(4 - |data| % 4, _ => 0) else data
  }
}
