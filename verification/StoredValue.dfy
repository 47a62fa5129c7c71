/** What a store command sends for a value, and how a reader gets the value back from it. */
module StoredValue {
  import opened Flags
  import opened Options
  import opened Text
  import opened Response
  import Ring
  import Servers
  import Tokenizer

  type Word = Ring.Word
  type Byte = b: int | 0 <= b < 256
  type Bytes = seq<Byte>

  const CRLF: Bytes := [13, 10]
  const MAX_FACTOR := 16

  predicate Compressed(flags: nat) {
    Bit(flags, COMPRESSED) || Bit(flags, COMPRESSED_LZO) || Bit(flags, COMPRESSED_BZIP2)
  }

  function Plain(flags: nat): nat {
    Without(Without(Without(flags, COMPRESSED), COMPRESSED_LZO), COMPRESSED_BZIP2)
  }

  datatype Codec = Zlib | Bzip2 | Lzo

  /** The codec a value is compressed with. */
  function Compressing(flags: nat): Codec {
    if Bit(flags, COMPRESSED) then Zlib else if Bit(flags, COMPRESSED_BZIP2) then Bzip2 else Lzo
  }

  /** The codec a value is decompressed with. */
  function Decompressing(flags: nat): Codec {
    if Bit(flags, COMPRESSED) then Zlib else if Bit(flags, COMPRESSED_BZIP2) then Bzip2 else Lzo
  }

  lemma SameCodec(flags: nat)
    ensures Compressing(flags) == Decompressing(flags)
  {
  }

  datatype Inflated = Done(data: Bytes) | TooSmall | Broken

  /** The libraries: compression, decompression into a buffer of a given size, and one step of the CRC. */
  datatype Libraries = Libraries(
    deflate: (Codec, Bytes) -> Option<Bytes>,
    inflate: (Codec, Bytes, nat) -> Inflated,
    step: (Word, Byte) -> Word)

  /** Decompression undoes the compression of `v` when the buffer is large enough; bzip2 enlarges its buffer itself. */
  ghost predicate Undone(lib: Libraries, codec: Codec, v: Bytes) {
    var z := lib.deflate(codec, v);
    z.Some? ==> forall size ::
      lib.inflate(codec, z.value, size) == if codec.Bzip2? || |v| <= size then Done(v) else TooSmall
  }

  ghost predicate Lossless(lib: Libraries) {
    forall codec, v :: Undone(lib, codec, v)
  }

  // Checksums

  function Steps(lib: Libraries, crc: Word, s: Bytes): Word {
    if s == [] then crc else lib.step(Steps(lib, crc, s[..|s| - 1]), s[|s| - 1])
  }

  function Crc(lib: Libraries, s: Bytes): Word {
    Ring.MODULUS - 1 - Steps(lib, Ring.MODULUS - 1, s)
  }

  /** The checksum is computed byte by byte from all ones, and complemented in the end. */
  lemma CrcIs(lib: Libraries, s: Bytes, b: Byte)
    ensures Crc(lib, []) == 0
    ensures 0xffff_ffff - Crc(lib, s + [b]) == lib.step(0xffff_ffff - Crc(lib, s), b)
  {
    assert (s + [b])[..|s|] == s;
  }

  function Concat(chunks: seq<Bytes>): Bytes {
    if chunks == [] then [] else Concat(chunks[..|chunks| - 1]) + chunks[|chunks| - 1]
  }

  /** The bytes of a 32-bit integer in memory, the low byte first. */
  function FlagBytes(flags: nat): Bytes {
    [flags % 0x100, flags / 0x100 % 0x100, flags / 0x1_0000 % 0x100, flags / 0x100_0000 % 0x100]
  }

  /** The four bytes make up the lower 32 bits of the flags. */
  lemma FlagBytesAre(flags: nat)
    ensures var b := FlagBytes(flags);
            && |b| == 4
            && b[0] as int + 0x100 * (b[1] as int) + 0x1_0000 * (b[2] as int) + 0x100_0000 * (b[3] as int)
               == flags % 0x1_0000_0000
  {
    var second := flags / 0x100;
    var third := second / 0x100;
    var fourth := third / 0x100;
    var above := fourth / 0x100;
    assert flags / 0x1_0000 == third;
    assert flags / 0x100_0000 == fourth;
    assert flags == 0x1_0000_0000 * above + flags % 0x1_0000_0000;
  }

  /** The checksum that protects the flags together with the bytes. */
  function CrcExtra(lib: Libraries, s: Bytes, flags: nat): Word {
    Crc(lib, FlagBytes(flags) + s)
  }

  /** The checksum of several pieces is the checksum of their concatenation. */
  method ChecksumCrc32(lib: Libraries, s: seq<Bytes>) returns (r: Word)
    ensures r == Crc(lib, Concat(s))
  {
    ghost var start: Word := Ring.MODULUS - 1;
    var crc: Word := Ring.MODULUS - 1;
    for p := 0 to |s|
      invariant crc == Steps(lib, start, Concat(s[..p]))
    {
      assert s[..p + 1][..p] == s[..p] && Concat(s[..p]) + s[p][..0] == Concat(s[..p]);
      for i := 0 to |s[p]|
        invariant crc == Steps(lib, start, Concat(s[..p]) + s[p][..i])
      {
        ghost var longer := Concat(s[..p]) + s[p][..i + 1];
        assert longer[..|longer| - 1] == Concat(s[..p]) + s[p][..i];
        crc := lib.step(crc, s[p][i]);
      }
      assert s[p][..|s[p]|] == s[p];
    }
    assert s[..|s|] == s;
    r := Ring.MODULUS - 1 - crc;
  }

  method GetChecksumExtra(lib: Libraries, value: Bytes, flags: nat) returns (r: Word)
    ensures r == CrcExtra(lib, value, flags)
  {
    r := ChecksumCrc32(lib, [FlagBytes(flags), value]);
    assert [FlagBytes(flags), value][..1] == [FlagBytes(flags)];
    assert Concat([FlagBytes(flags)]) == FlagBytes(flags);
  }

  method GetChecksum(lib: Libraries, value: Bytes) returns (r: Word)
    ensures r == Crc(lib, value)
  {
    r := ChecksumCrc32(lib, [value]);
    assert Concat([value]) == value;
  }

  // Storing

  datatype Settings = Settings(threshold: int, level: int, lzo: bool, savings: real)

  datatype Sent = Sent(flags: nat, sums: string, body: Bytes)

  /** The flags that decide about compression; for append and prepend there are none. */
  function Wanted(settings: Settings, appending: bool, flags: nat, length: nat): nat {
    if appending then 0
    else if Compressed(flags) then Available(settings, flags)
    else if settings.threshold != 0 && length >= settings.threshold then
      Available(settings, With(flags, if settings.level > 0 then COMPRESSED else COMPRESSED_LZO))
    else flags
  }

  /** Without LZO, zlib takes its place. */
  function Available(settings: Settings, flags: nat): nat {
    var f := Without(flags, COMPRESSED_LZO);
    if settings.lzo then flags else if Bit(f, COMPRESSED_BZIP2) then f else With(f, COMPRESSED)
  }

  predicate Worthwhile(settings: Settings, compressed: nat, length: nat) {
    compressed as real < length as real * (1.0 - settings.savings)
  }

  /** The checksum header of a value sent as it is. */
  function PlainSums(lib: Libraries, mode: Servers.Integrity, flags: nat, value: Bytes): string {
    match mode
    case Unsupported => ""
    case SupportedOff => Hex(1, 4) + ":"
    case Crc => Hex(2, 4) + ":" + Hex(CrcExtra(lib, value, flags), 8)
  }

  /** The checksum header of a compressed value; zero counts as not computed. */
  function KeptSums(lib: Libraries, mode: Servers.Integrity, flags: nat, value: Bytes, z: Bytes): string {
    match mode
    case Unsupported => ""
    case SupportedOff => Hex(1, 4) + ":"
    case Crc =>
      var crc := CrcExtra(lib, z, flags);
      var uncrc := if Crc(lib, value) == 0 then crc else Crc(lib, value);
      if crc != 0 then Hex(2, 4) + ":" + Hex(crc, 8) + ":" + Hex(uncrc, 8) else Hex(2, 4) + ":" + Hex(uncrc, 8)
  }

  /** What the first attempt to store a value sends; None when compression fails. */
  function Stored(lib: Libraries, settings: Settings, mode: Servers.Integrity, appending: bool,
    flags: nat, value: Bytes): Option<Sent>
  {
    var f := Wanted(settings, appending, flags, |value|);
    var g := Plain(f);
    if !Compressed(f) then Some(Sent(f, PlainSums(lib, mode, f, value), value))
    else
      match lib.deflate(Compressing(f), value)
      case None => None
      case Some(z) =>
        if Worthwhile(settings, |z|, |value|) then Some(Sent(f, KeptSums(lib, mode, f, value, z), z))
        else Some(Sent(g, PlainSums(lib, mode, g, value), value))
  }

  lemma AvailableStaysCompressed(settings: Settings, flags: nat)
    ensures Compressed(flags) ==> Compressed(Available(settings, flags))
    ensures Bit(Available(settings, flags), CHKSUM) == Bit(flags, CHKSUM)
    ensures Compressed(flags) && !settings.lzo ==> !Bit(Available(settings, flags), COMPRESSED_LZO)
  {
    hide Bit, With, Without;
    Bits(flags, COMPRESSED_LZO);
    Bits(Without(flags, COMPRESSED_LZO), COMPRESSED);
  }

  lemma PlainIsNotCompressed(flags: nat)
    ensures !Compressed(Plain(flags)) && Bit(Plain(flags), CHKSUM) == Bit(flags, CHKSUM)
  {
    hide Bit, With, Without;
    var f := Without(flags, COMPRESSED);
    var g := Without(f, COMPRESSED_LZO);
    Bits(flags, COMPRESSED);
    Bits(f, COMPRESSED_LZO);
    Bits(g, COMPRESSED_BZIP2);
  }

  lemma NoBits()
    ensures !Compressed(0) && !Bit(0, CHKSUM)
  {
  }

  lemma WantedFlags(settings: Settings, appending: bool, flags: nat, length: nat)
    ensures var f := Wanted(settings, appending, flags, length);
            (Bit(f, CHKSUM) ==> Bit(flags, CHKSUM))
            && (Compressed(f) && !settings.lzo ==> !Bit(f, COMPRESSED_LZO))
  {
    hide Bit, With, Without, Available;
    NoBits();
    var f := With(flags, if settings.level > 0 then COMPRESSED else COMPRESSED_LZO);
    Bits(flags, COMPRESSED);
    Bits(flags, COMPRESSED_LZO);
    AvailableStaysCompressed(settings, flags);
    AvailableStaysCompressed(settings, f);
  }

  /** The flags tried for a value, with a compression bit given or at the threshold. */
  lemma TriedBits(settings: Settings, flags: nat)
    ensures var f := Available(settings, flags);
            && (forall j: nat :: j != 1 && j != 2 ==> Bit(f, j) == Bit(flags, j))
            && Bit(f, 1) == (Bit(flags, 1) || (!settings.lzo && !Bit(flags, 4)))
            && Bit(f, 2) == (Bit(flags, 2) && settings.lzo)
  {
    hide Bit, With, Without;
    Bits(flags, COMPRESSED_LZO);
    Bits(Without(flags, COMPRESSED_LZO), COMPRESSED);
  }

  lemma PlainBits(flags: nat)
    ensures forall j: nat :: Bit(Plain(flags), j) == (j != 1 && j != 2 && j != 4 && Bit(flags, j))
  {
    hide Bit, With, Without;
    var f := Without(flags, COMPRESSED);
    Bits(flags, COMPRESSED);
    Bits(f, COMPRESSED_LZO);
    Bits(Without(f, COMPRESSED_LZO), COMPRESSED_BZIP2);
  }

  /** The compression bits 1, 2 and 4 with which a value is tried: zlib, LZO and bzip2. Those given are used, but that
      zlib takes the place of LZO where there is none and bzip2 is not asked for. */
  predicate Tries(settings: Settings, flags: nat, f: nat) {
    && Bit(f, 1) == (Bit(flags, 1) || (!settings.lzo && !Bit(flags, 4)))
    && Bit(f, 2) == (Bit(flags, 2) && settings.lzo) && Bit(f, 4) == Bit(flags, 4)
  }

  /** What a store sends, in terms of the flags and the value given. All bits but the compression bits 1, 2 and 4 stay
      as they are. Without a compression bit and below the threshold so does everything; at the threshold a value is
      sent with bit 1 when the level is positive or LZO is missing, and else with bit 2, if it shrinks enough. With a
      compression bit given, it is sent so if it shrinks enough, and else without any. Append and prepend send no flags
      and the value as it is. */
  ghost predicate SentFor(lib: Libraries, settings: Settings, appending: bool, flags: nat, value: Bytes, sent: Sent) {
    if appending then sent.flags == 0 && sent.body == value
    else
      && (forall j: nat :: j != 1 && j != 2 && j != 4 ==> Bit(sent.flags, j) == Bit(flags, j))
      && if Bit(flags, 1) || Bit(flags, 2) || Bit(flags, 4) then
           var zlib := Bit(flags, 1) || (!settings.lzo && !Bit(flags, 4));
           var z := lib.deflate(if zlib then Zlib else if Bit(flags, 4) then Bzip2 else Lzo, value);
           && z.Some?
           && if |z.value| as real < |value| as real * (1.0 - settings.savings)
              then Tries(settings, flags, sent.flags) && sent.body == z.value
              else !Bit(sent.flags, 1) && !Bit(sent.flags, 2) && !Bit(sent.flags, 4) && sent.body == value
         else if settings.threshold == 0 || |value| < settings.threshold then sent.flags == flags && sent.body == value
         else
           var zlib := settings.level > 0 || !settings.lzo;
           var z := lib.deflate(if zlib then Zlib else Lzo, value);
           && z.Some?
           && if |z.value| as real < |value| as real * (1.0 - settings.savings)
              then sent.flags == flags + (if zlib then 2 else 4) && sent.body == z.value
              else sent.flags == flags && sent.body == value
  }

  /** The checksum header that is sent: none, "0001:" when checksums are off, and else "0002:" and the checksums, in
      eight hexadecimal digits each. A compressed value has one of what is sent, with the flags, and one of the value,
      in the place of which the first stands when it is zero; a first one of zero is left out. */
  lemma SumsAre(lib: Libraries, settings: Settings, mode: Servers.Integrity, appending: bool,
    flags: nat, value: Bytes, sent: Sent)
    requires Stored(lib, settings, mode, appending, flags, value) == Some(sent)
    ensures var crc := Crc(lib, FlagBytes(sent.flags) + sent.body);
            var last := if Crc(lib, value) != 0 then Crc(lib, value) else crc;
            sent.sums == if mode.Unsupported? then "" else if mode.SupportedOff? then "0001:"
                         else if !Bit(sent.flags, 1) && !Bit(sent.flags, 2) && !Bit(sent.flags, 4) then
                           "0002:" + Hex(crc, 8)
                         else if crc == 0 then "0002:" + Hex(last, 8)
                         else "0002:" + Hex(crc, 8) + ":" + Hex(last, 8)
  {
    assert Hex(1, 4) + ":" == "0001:" && Hex(2, 4) + ":" == "0002:" by {
      Prefixes();
    }
    hide Bit, Hex, Crc, Wanted, Plain, FlagBytes;
    PlainIsNotCompressed(Wanted(settings, appending, flags, |value|));
  }

  lemma Prefixes()
    ensures Hex(1, 4) == "0001" && Hex(2, 4) == "0002"
  {
    assert Hex(0, 1) == "0" && Hex(0, 2) == "00" && Hex(0, 3) == "000";
  }

  lemma StoredIsSentFor(lib: Libraries, settings: Settings, mode: Servers.Integrity, appending: bool,
    flags: nat, value: Bytes, sent: Sent)
    requires Stored(lib, settings, mode, appending, flags, value) == Some(sent)
    ensures SentFor(lib, settings, appending, flags, value, sent)
  {
    hide Bit, With, Without, PlainSums, KeptSums, Available, Plain;
    NoBits();
    TriedBits(settings, flags);
    PlainBits(Available(settings, flags));
    if !appending && !Compressed(flags) && settings.threshold != 0 && |value| >= settings.threshold {
      AtThreshold(settings, flags);
    }
  }

  /** The flags of a value at the threshold, before and after compression is given up. */
  lemma AtThreshold(settings: Settings, flags: nat)
    requires !Bit(flags, 1) && !Bit(flags, 2) && !Bit(flags, 4)
    ensures var f := Available(settings, With(flags, if settings.level > 0 then COMPRESSED else COMPRESSED_LZO));
            var zlib := settings.level > 0 || !settings.lzo;
            && f == flags + (if zlib then 2 else 4) && Plain(f) == flags
            && Compressed(f) && Compressing(f) == (if zlib then Zlib else Lzo)
            && forall j: nat :: j != 1 && j != 2 && j != 4 ==> Bit(f, j) == Bit(flags, j)
  {
    hide Bit, With, Without, Available, Plain;
    var first := if settings.level > 0 then COMPRESSED else COMPRESSED_LZO;
    var last := if settings.level > 0 || !settings.lzo then COMPRESSED else COMPRESSED_LZO;
    var f := Available(settings, With(flags, first));
    Bits(flags, first);
    Bits(flags, last);
    TriedBits(settings, With(flags, first));
    SameBits(f, With(flags, last));
    ClearBit(flags, last);
    assert Power(2, 1) == 2 && Power(2, 2) == 4;
    PlainBits(f);
    SameBits(Plain(f), flags);
  }

  method PrepareStore(lib: Libraries, settings: Settings, mode: Servers.Integrity, appending: bool,
    givenFlags: nat, givenValue: Bytes) returns (sent: Option<Sent>)
    ensures sent == Stored(lib, settings, mode, appending, givenFlags, givenValue)
    ensures sent.Some? ==> SentFor(lib, settings, appending, givenFlags, givenValue, sent.value)
  {
    hide Bit, With, Without, Hex, Crc;
    var flags, value := givenFlags, givenValue;
    var crc, uncrc: Word := 0, 0;
    if appending {
      assert !Compressed(0) by { NoBits(); }
      flags := 0;
    } else if settings.threshold != 0 && |value| >= settings.threshold && !Compressed(flags) {
      Bits(flags, COMPRESSED);
      Bits(flags, COMPRESSED_LZO);
      flags := With(flags, if settings.level > 0 then COMPRESSED else COMPRESSED_LZO);
    }
    if Compressed(flags) {
      AvailableStaysCompressed(settings, flags);
      if !settings.lzo {
        flags := Without(flags, COMPRESSED_LZO);
        if !Bit(flags, COMPRESSED_BZIP2) {
          flags := With(flags, COMPRESSED);
        }
      }
      assert flags == Wanted(settings, appending, givenFlags, |givenValue|);
      var data := lib.deflate(Compressing(flags), value);
      if data.None? {
        return None;
      }
      if Worthwhile(settings, |data.value|, |value|) {
        if mode.Crc? {
          uncrc := GetChecksum(lib, value);
          crc := GetChecksumExtra(lib, data.value, flags);
        }
        value := data.value;
      } else {
        flags := Plain(flags);
      }
    }
    if mode.Crc? && uncrc == 0 {
      uncrc := GetChecksumExtra(lib, value, flags);
    }
    var header := "";
    if mode.SupportedOff? {
      header := Hex(1, 4) + ":";
    } else if mode.Crc? && crc != 0 {
      header := Hex(2, 4) + ":" + Hex(crc, 8) + ":" + Hex(uncrc, 8);
    } else if mode.Crc? {
      header := Hex(2, 4) + ":" + Hex(uncrc, 8);
    }
    sent := Some(Sent(flags, header, value));
    StoredIsSentFor(lib, settings, mode, appending, givenFlags, givenValue, sent.value);
  }

  // Reading

  /** `size` times two to the power `factor`. */
  function Doubled(size: nat, factor: nat): nat {
    if factor == 0 then size else 2 * Doubled(size, factor - 1)
  }

  /** Decompression with a buffer 2^factor times as large as the data, then twice that, up to 2^15 times. */
  function Inflating(lib: Libraries, codec: Codec, data: Bytes, factor: nat): Option<Bytes>
    decreases MAX_FACTOR - factor
  {
    match lib.inflate(codec, data, Doubled(|data|, factor))
    case Done(d) => Some(d)
    case Broken => None
    case TooSmall => if factor + 1 < MAX_FACTOR then Inflating(lib, codec, data, factor + 1) else None
  }

  method Uncompress(lib: Libraries, data: Bytes, flags: nat) returns (r: Option<Bytes>)
    ensures r == Inflating(lib, Decompressing(flags), data, 1)
  {
    var factor, size := 1, 2 * |data|;
    var status := lib.inflate(Decompressing(flags), data, size);
    while status.TooSmall? && factor + 1 < MAX_FACTOR
      invariant 1 <= factor < MAX_FACTOR && size == Doubled(|data|, factor)
      invariant status == lib.inflate(Decompressing(flags), data, size)
      invariant Inflating(lib, Decompressing(flags), data, 1) == Inflating(lib, Decompressing(flags), data, factor)
    {
      factor, size := factor + 1, 2 * size;
      status := lib.inflate(Decompressing(flags), data, size);
    }
    r := if status.Done? then Some(status.data) else None;
  }

  lemma DoubledIs(size: nat, factor: nat)
    ensures Doubled(size, factor) == Power(2, factor) * size
  {
    if factor > 0 {
      DoubledIs(size, factor - 1);
    }
  }

  /** Buffers of 2^factor to 2^15 times the size of the data are tried in turn, until one is not too small. */
  lemma {:induction false} InflatingTries(lib: Libraries, codec: Codec, data: Bytes, factor: nat, d: Bytes)
    requires factor <= 15
    ensures Inflating(lib, codec, data, factor) == Some(d) <==>
              exists k :: factor <= k <= 15 && lib.inflate(codec, data, Power(2, k) * |data|) == Done(d)
                && forall i :: factor <= i < k ==> lib.inflate(codec, data, Power(2, i) * |data|) == TooSmall
    decreases 15 - factor
  {
    DoubledIs(|data|, factor);
    if factor < 15 {
      InflatingTries(lib, codec, data, factor + 1, d);
    }
  }

  /** A compressed value comes back exactly when it is at most 2^15 times as long as its compressed form. */
  lemma {:induction false} InflatesBack(lib: Libraries, codec: Codec, v: Bytes, factor: nat)
    requires Lossless(lib) && lib.deflate(codec, v).Some? && 1 <= factor < MAX_FACTOR
    ensures var z := lib.deflate(codec, v).value;
            Inflating(lib, codec, z, factor)
            == if codec.Bzip2? || |v| <= 32768 * |z| then Some(v) else None
    decreases MAX_FACTOR - factor
  {
    var z := lib.deflate(codec, v).value;
    assert Undone(lib, codec, v);
    assert lib.inflate(codec, z, Doubled(|z|, factor))
        == if codec.Bzip2? || |v| <= Doubled(|z|, factor) then Done(v) else TooSmall;
    DoubledGrows(|z|, factor, MAX_FACTOR - 1);
    DoubledIs(|z|, 15);
    assert Power(2, 15) == 32768;
    if factor + 1 < MAX_FACTOR {
      InflatesBack(lib, codec, v, factor + 1);
    }
  }

  lemma DoubledGrows(size: nat, a: nat, b: nat)
    requires a <= b
    ensures Doubled(size, a) <= Doubled(size, b)
  {
    if a < b {
      DoubledGrows(size, a, b - 1);
    }
  }

  datatype Decoded = Undecodable | Mismatch(data: Bytes) | Value(data: Bytes)

  /** The checksums that come with a value, zero where there is none, and how many bytes to skip before the value. */
  datatype Sums = Unusable | Garbled | Sums(crc: int, uncrc: int, skip: nat)

  /** The unsigned 32-bit integer that sscanf stores for a hexadecimal number. */
  function Scanned32(v: int): Word {
    if -0x1_0000_0000_0000_0000 < v < 0x1_0000_0000_0000_0000 then v % Ring.MODULUS else Ring.MODULUS - 1
  }

  /** Numbers below 2^32 are stored as they are, others modulo 2^32, unless they are too large for 64 bits. */
  lemma ScannedIs(v: int)
    ensures 0 <= v < 0x1_0000_0000 ==> Scanned32(v) == v
    ensures -0x1_0000_0000_0000_0000 < v < 0x1_0000_0000_0000_0000 ==> (v - Scanned32(v)) % 0x1_0000_0000 == 0
    ensures v <= -0x1_0000_0000_0000_0000 || v >= 0x1_0000_0000_0000_0000 ==> Scanned32(v) == 0xffff_ffff
  {
  }

  /** The checksums that a header gives for a value, zero where it gives none. */
  function HeaderSums(mode: Servers.Integrity, flags: nat, sums: Option<string>): Sums {
    if mode.Unsupported? then Sums(0, 0, 0)
    else if sums.None? then Unusable
    else
      var wanted := if Compressed(flags) then 3 else 2;
      var numbers := ScanSums(sums.value, wanted);
      if numbers == [] || Downstream(Scanned32(numbers[0])) then Unusable
      else if mode.SupportedOff? || Bit(Scanned32(numbers[0]), 0) then Sums(0, 0, 0)
      else if |numbers| < wanted || !Bit(Scanned32(numbers[0]), 1) then Unusable
      else Sums(if Compressed(flags) then Scanned32(numbers[1]) else 0, Scanned32(numbers[wanted - 1]), 0)
  }

  /** The mismatch bits, set by a proxy or a server on the way. */
  predicate Downstream(metadata: nat) {
    Bit(metadata, 3) || Bit(metadata, 4) || Bit(metadata, 5)
  }

  // Values of the old style carry their checksums in front: a hexadecimal number and a carriage return when the value
  // is compressed, and then a hexadecimal number, a carriage return and a line feed.

  const CR: Byte := 13
  const LF: Byte := 10
  const CHKSUM_LEN := 50
  const LONG_MAX := 0x7fff_ffff_ffff_ffff

  /** The bytes before the first carriage return, at most 50 of them. */
  function FieldLength(data: Bytes, n: nat): (r: nat)
    requires n <= |data|
    ensures n <= r <= |data| && (n <= CHKSUM_LEN ==> r <= CHKSUM_LEN)
    decreases |data| - n
  {
    if n == |data| || n >= CHKSUM_LEN || data[n] == CR then n else FieldLength(data, n + 1)
  }

  function AsText(data: Bytes): string {
    seq(|data|, i requires 0 <= i < |data| => data[i] as char)
  }

  /** strtol to the base 16, without its limits. */
  function Strtol(s: string): int {
    match ScanHex(s)
    case Nothing => 0
    case Number(value, _) => value
  }

  predicate InRange(v: int) {
    -LONG_MAX <= v < LONG_MAX
  }

  /** The number before the first carriage return, and what follows it; None when there is none or it is too large. */
  function Field(data: Bytes): Option<(int, Bytes)> {
    var n := FieldLength(data, 0);
    if n == |data| || data[n] != CR || !InRange(Strtol(AsText(data[..n]))) then None
    else Some((Strtol(AsText(data[..n])), data[n + 1..]))
  }

  /** A field is what stands in front of the first carriage return, at most 50 bytes that hold a number in range. */
  lemma FieldIs(field: Bytes, rest: Bytes)
    requires 13 !in field
    ensures var number := Strtol(AsText(field));
            Field(field + [13] + rest)
            == if |field| <= 50 && -0x7fff_ffff_ffff_ffff <= number < 0x7fff_ffff_ffff_ffff then Some((number, rest))
               else None
    ensures Field(field) == None
  {
    hide Strtol;
    var data := field + [13] + rest;
    assert forall i :: 0 <= i < |field| ==> data[i] == field[i] && field[i] in field;
    LeadingField(data, 0, |field|);
    LeadingField(field, 0, |field|);
    if |field| <= 50 {
      assert data[..|field|] == field && data[|field| + 1..] == rest;
    }
  }

  lemma LeadingField(data: Bytes, from: nat, n: nat)
    requires from <= n <= |data| && from <= 50 && (forall i :: from <= i < n ==> data[i] != CR)
    requires n < |data| ==> data[n] == CR
    ensures FieldLength(data, from) == if n <= 50 then n else 50
    decreases n - from
  {
    if from < n && from < 50 {
      LeadingField(data, from + 1, n);
    }
  }

  /** The checksums of a value of the old style; there must be a value behind them. */
  function OldSums(compressed: bool, data: Bytes): Sums {
    var crc := if compressed then Field(data) else Some((0, data));
    if crc.None? then Garbled
    else
      var uncrc := Field(crc.value.1);
      if uncrc.None? || |uncrc.value.1| < 2 || uncrc.value.1[0] != LF then Garbled
      else Sums(crc.value.0, uncrc.value.0, |data| - |uncrc.value.1| + 1)
  }

  function SumsOf(mode: Servers.Integrity, flags: nat, sums: Option<string>, data: Bytes): Sums {
    if Bit(flags, CHKSUM) then OldSums(Compressed(flags), data) else HeaderSums(mode, flags, sums)
  }

  /** The checksum that received bytes are held against: only the new style protects the flags. */
  function Received(lib: Libraries, s: Bytes, flags: nat): Word {
    if Bit(flags, CHKSUM) then Crc(lib, s) else CrcExtra(lib, s, flags)
  }

  function Decode(lib: Libraries, lzo: bool, mode: Servers.Integrity,
    flags: nat, sums: Option<string>, data: Bytes): Decoded
  {
    if !lzo && Bit(flags, COMPRESSED_LZO) && data != [] then Undecodable
    else match SumsOf(mode, flags, sums, data)
      case Unusable => Mismatch(data)
      case Garbled => Undecodable
      case Sums(crc, uncrc, skip) =>
        var value := if skip <= |data| then data[skip..] else [];
        if Compressed(flags) then
          if crc != 0 && crc != Received(lib, value, flags) then Mismatch(data)
          else match Inflating(lib, Decompressing(flags), value, 1)
               case None => Undecodable
               case Some(d) => if uncrc != 0 && uncrc != Crc(lib, d) then Mismatch(d) else Value(d)
        else if uncrc != 0 && uncrc != Received(lib, value, flags) then Mismatch(data)
        else Value(value)
  }

  datatype Reply = Finished | Failed | Read(header: Header, decoded: Decoded)

  /** Bits 3 to 5 of the metadata, with which a proxy or a server on the way tells a mismatch. */
  predicate ToldMismatch(metadata: nat) {
    metadata / 8 % 2 == 1 || metadata / 16 % 2 == 1 || metadata / 32 % 2 == 1
  }

  lemma DownstreamIs(metadata: nat)
    ensures Downstream(metadata) <==> ToldMismatch(metadata)
    ensures (Bit(metadata, 0) <==> metadata % 2 == 1) && (Bit(metadata, 1) <==> metadata / 2 % 2 == 1)
  {
    BitIs(metadata, 0);
    BitIs(metadata, 1);
    BitIs(metadata, 3);
    BitIs(metadata, 4);
    BitIs(metadata, 5);
    assert Power(2, 0) == 1 && Power(2, 1) == 2 && Power(2, 3) == 8 && Power(2, 4) == 16 && Power(2, 5) == 32;
  }

  /** What becomes of bytes whose checksums are in the header, whether they are checked or not: `wanted` are the numbers
      the header has to give, the metadata first. */
  lemma DecodesTo(lib: Libraries, lzo: bool, mode: Servers.Integrity, flags: nat, sums: string, body: Bytes)
    requires !Bit(flags, 3) && !mode.Unsupported?
    ensures var compressed := Bit(flags, 1) || Bit(flags, 2) || Bit(flags, 4);
            var wanted := if compressed then 3 else 2;
            var numbers := ScanSums(sums, wanted);
            var metadata := if numbers == [] then 0 else Scanned32(numbers[0]);
            var checked := mode.Crc? && metadata % 2 == 0;
            var first := if checked && compressed && |numbers| == 3 then Scanned32(numbers[1]) else 0;
            var last := if checked && |numbers| == wanted then Scanned32(numbers[wanted - 1]) else 0;
            var result := Inflating(lib, Decompressing(flags), body, 1);
            Decode(lib, lzo, mode, flags, Some(sums), body)
            == if !lzo && Bit(flags, 2) && body != [] then Undecodable
               else if numbers == [] || ToldMismatch(metadata) then Mismatch(body)
               else if checked && (|numbers| < wanted || metadata / 2 % 2 == 0) then Mismatch(body)
               else if !compressed then
                 if last != 0 && last != Crc(lib, FlagBytes(flags) + body) then Mismatch(body) else Value(body)
               else if first != 0 && first != Crc(lib, FlagBytes(flags) + body) then Mismatch(body)
               else if result.None? then Undecodable
               else if last != 0 && last != Crc(lib, result.value) then Mismatch(result.value)
               else Value(result.value)
  {
    hide Bit, Inflating, Crc, Downstream, ScanSums, Scanned32, FlagBytes;
    var numbers := ScanSums(sums, if Compressed(flags) then 3 else 2);
    if numbers != [] {
      DownstreamIs(Scanned32(numbers[0]));
    }
    assert body[0..] == body;
  }

  /** On a connection without checksums nothing is checked; on any other one a header without them is a mismatch. */
  lemma DecodesWithout(
    lib: Libraries, lzo: bool, mode: Servers.Integrity, flags: nat, sums: Option<string>, body: Bytes)
    requires !Bit(flags, 3) && (mode.Unsupported? || sums == None)
    ensures var result := Inflating(lib, Decompressing(flags), body, 1);
            Decode(lib, lzo, mode, flags, sums, body)
            == if !lzo && Bit(flags, 2) && body != [] then Undecodable
               else if !mode.Unsupported? then Mismatch(body)
               else if !Bit(flags, 1) && !Bit(flags, 2) && !Bit(flags, 4) then Value(body)
               else if result.None? then Undecodable
               else Value(result.value)
  {
    hide Bit, Inflating, Crc;
    assert body[0..] == body;
  }

  /** What becomes of bytes with their checksums in front: these are of the bytes alone, without the flags. */
  lemma DecodesOldTo(lib: Libraries, lzo: bool, mode: Servers.Integrity, flags: nat, sums: Option<string>, data: Bytes)
    requires Bit(flags, 3)
    ensures var compressed := Bit(flags, 1) || Bit(flags, 2) || Bit(flags, 4);
            var first := if compressed then Field(data) else Some((0, data));
            var last := if first.Some? then Field(first.value.1) else None;
            Decode(lib, lzo, mode, flags, sums, data)
            == if !lzo && Bit(flags, 2) && data != [] then Undecodable
               else if last.None? || |last.value.1| < 2 || last.value.1[0] != 10 then Undecodable
               else
                 var value := last.value.1[1..];
                 var result := Inflating(lib, Decompressing(flags), value, 1);
                 if !compressed then
                   if last.value.0 != 0 && last.value.0 != Crc(lib, value) then Mismatch(data) else Value(value)
                 else if first.value.0 != 0 && first.value.0 != Crc(lib, value) then Mismatch(data)
                 else if result.None? then Undecodable
                 else if last.value.0 != 0 && last.value.0 != Crc(lib, result.value) then Mismatch(result.value)
                 else Value(result.value)
  {
    hide Bit, Inflating, Crc, Field, OldSums;
    OldSumsAre(Compressed(flags), data);
  }

  lemma OldSumsAre(compressed: bool, data: Bytes)
    ensures var first := if compressed then Field(data) else Some((0, data));
            var last := if first.Some? then Field(first.value.1) else None;
            if last.None? || |last.value.1| < 2 || last.value.1[0] != 10 then OldSums(compressed, data) == Garbled
            else
              var sums := OldSums(compressed, data);
              && sums == Sums(first.value.0, last.value.0, sums.skip)
              && sums.skip <= |data| && data[sums.skip..] == last.value.1[1..]
  {
    hide Field;
    var first := if compressed then Field(data) else Some((0, data));
    FieldIsTail(data);
    if first.Some? {
      FieldIsTail(first.value.1);
    }
  }

  /** What follows a field is the end of the data. */
  lemma FieldIsTail(data: Bytes)
    ensures Field(data).Some? ==>
              var rest := Field(data).value.1; |rest| < |data| && rest == data[|data| - |rest|..]
  {
    hide Strtol;
  }

  /** What is read from a header line and the bytes that follow it. */
  function ReplyOf(lib: Libraries, lzo: bool, mode: Servers.Integrity, withCas: bool,
    line: string, stream: Bytes): Reply
  {
    if "END" <= line then Finished
    else match ParseHeader(line, !mode.Unsupported?, withCas)
      case Malformed => Failed
      case Parsed(h) =>
        if |stream| < h.length + 2 then Failed
        else Read(h, Decode(lib, lzo, mode, h.flags, h.sums, stream[..h.length]))
  }

  /** The end of the values is told by "END"; what else cannot be read is a line that is no header, and a body that is
      not complete with the line end behind it. */
  lemma RepliesExactlyWhen(lib: Libraries, lzo: bool, mode: Servers.Integrity, withCas: bool,
    line: string, stream: Bytes)
    ensures var reply := ReplyOf(lib, lzo, mode, withCas, line, stream);
            var parsed := ParseHeader(line, mode != Servers.Unsupported, withCas);
            && (reply == Finished <==> |line| >= 3 && line[..3] == "END")
            && (reply == Failed <==> !(|line| >= 3 && line[..3] == "END")
                                     && (parsed == Malformed || |stream| < parsed.header.length + 2))
            && (reply.Read? ==> parsed == Parsed(reply.header))
  {
    hide Decode, ParseHeader;
    assert "END" <= line <==> |line| >= 3 && line[..3] == "END";
  }

  /** Reads `n` bytes, in portions of any size. */
  method ReadBody(stream: Bytes, n: nat) returns (data: Option<Bytes>)
    ensures data == if |stream| >= n then Some(stream[..n]) else None
  {
    var i, buffer: Bytes := 0, [];
    while i < n
      invariant 0 <= i <= n && i <= |stream| && buffer == stream[..i]
    {
      if i == |stream| {
        return None;
      }
      var size :| 1 <= size <= n - i && i + size <= |stream|;
      buffer := buffer + stream[i..i + size];
      i := i + size;
    }
    data := Some(buffer);
  }

  method ReadSums(mode: Servers.Integrity, flags: nat, sums: Option<string>) returns (r: Sums)
    ensures r == HeaderSums(mode, flags, sums)
  {
    var crc, uncrc: Word := 0, 0;
    if mode.Unsupported? {
      return Sums(0, 0, 0);
    }
    if sums.None? {
      return Unusable;
    }
    var first := ScanSums(sums.value, 1);
    if |first| < 1 {
      return Unusable;
    }
    var metadata := Scanned32(first[0]);
    if !mode.SupportedOff? && !Bit(metadata, 0) {
      if Compressed(flags) {
        var numbers := ScanSums(sums.value, 3);
        if |numbers| < 3 {
          return Unusable;
        }
        crc, uncrc := Scanned32(numbers[1]), Scanned32(numbers[2]);
      } else {
        var numbers := ScanSums(sums.value, 2);
        if |numbers| < 2 {
          return Unusable;
        }
        uncrc := Scanned32(numbers[1]);
      }
      if !Bit(metadata, 1) {
        return Unusable;
      }
    }
    if Downstream(metadata) {
      return Unusable;
    }
    r := Sums(crc, uncrc, 0);
  }

  /** Copies a field into a buffer of 50 characters and reads the number in it. */
  method ReadField(data: Bytes, from: nat) returns (ok: bool, number: int, i: nat)
    requires from <= |data|
    ensures ok == Field(data[from..]).Some?
    ensures ok ==> i <= |data| && Field(data[from..]) == Some((number, data[i..]))
  {
    hide Strtol;
    var rest := data[from..];
    var buffer := "";
    var n := 0;
    while n < |rest| && n < CHKSUM_LEN && rest[n] != CR
      invariant n <= |rest| && FieldLength(rest, 0) == FieldLength(rest, n) && buffer == AsText(rest[..n])
    {
      buffer := buffer + [rest[n] as char];
      n := n + 1;
    }
    ok, number, i := false, 0, 0;
    if n == |rest| || rest[n] != CR {
      return;
    }
    number := Strtol(buffer);
    if number >= LONG_MAX || number < -LONG_MAX {
      return;
    }
    ok, i := true, from + n + 1;
    assert data[i..] == rest[n + 1..];
  }

  method ReadOldSums(compressed: bool, data: Bytes) returns (r: Sums)
    ensures r == OldSums(compressed, data)
  {
    hide Field;
    var crc, uncrc, i := 0, 0, 0;
    var ok := true;
    assert data[0..] == data;
    if compressed {
      ok, crc, i := ReadField(data, 0);
      if !ok {
        return Garbled;
      }
    }
    ok, uncrc, i := ReadField(data, i);
    if !ok || |data| - i < 2 || data[i] != LF {
      return Garbled;
    }
    r := Sums(crc, uncrc, i + 1);
  }

  method ReadValue(lib: Libraries, lzo: bool, mode: Servers.Integrity, withCas: bool, line: string, stream: Bytes)
    returns (r: Reply)
    ensures r == ReplyOf(lib, lzo, mode, withCas, line, stream)
  {
    hide Bit, Inflating, HeaderSums, OldSums, Crc, ParseHeader;
    if "END" <= line {
      return Finished;
    }
    var parsed := ParseResponse(line, !mode.Unsupported?, withCas);
    if parsed.Malformed? {
      return Failed;
    }
    var h := parsed.header;
    var body := ReadBody(stream, h.length + 2);
    if body.None? {
      return Failed;
    }
    var data := body.value[..h.length];
    assert data == stream[..h.length];
    if !lzo && Bit(h.flags, COMPRESSED_LZO) && |data| > 0 {
      return Read(h, Undecodable);
    }
    var sums;
    if Bit(h.flags, CHKSUM) {
      sums := ReadOldSums(Compressed(h.flags), data);
    } else {
      sums := ReadSums(mode, h.flags, h.sums);
    }
    match sums {
      case Unusable =>
        return Read(h, Mismatch(data));
      case Garbled =>
        return Read(h, Undecodable);
      case Sums(_, _, _) =>
    }
    OldSumsSkip(Compressed(h.flags), data);
    HeaderSumsSkip(mode, h.flags, h.sums);
    var value := data[sums.skip..];
    if Compressed(h.flags) {
      if sums.crc != 0 {
        var crc := GetReceived(lib, value, h.flags);
        if crc != sums.crc {
          return Read(h, Mismatch(data));
        }
      }
      var result := Uncompress(lib, value, h.flags);
      if result.None? {
        return Read(h, Undecodable);
      }
      if sums.uncrc != 0 {
        var crc := GetChecksum(lib, result.value);
        if crc != sums.uncrc {
          return Read(h, Mismatch(result.value));
        }
      }
      return Read(h, Value(result.value));
    }
    if sums.uncrc != 0 {
      var crc := GetReceived(lib, value, h.flags);
      if crc != sums.uncrc {
        return Read(h, Mismatch(data));
      }
    }
    r := Read(h, Value(value));
  }

  method GetReceived(lib: Libraries, value: Bytes, flags: nat) returns (r: Word)
    ensures r == Received(lib, value, flags)
  {
    if Bit(flags, CHKSUM) {
      r := GetChecksum(lib, value);
    } else {
      r := GetChecksumExtra(lib, value, flags);
    }
  }

  /** The checksums are a part of the data, and a value follows them. */
  lemma OldSumsSkip(compressed: bool, data: Bytes)
    ensures OldSums(compressed, data).Sums? ==> OldSums(compressed, data).skip < |data|
  {
    hide Strtol;
  }

  lemma HeaderSumsSkip(mode: Servers.Integrity, flags: nat, sums: Option<string>)
    ensures HeaderSums(mode, flags, sums) != Garbled
    ensures HeaderSums(mode, flags, sums).Sums? ==> HeaderSums(mode, flags, sums).skip == 0
  {
    hide Bit, ScanSums;
  }

  /** What a writer of the old style puts in front of a value. */
  function OldPrefix(sums: Option<Word>, uncrc: Word): Bytes {
    (if sums.Some? then AsBytes(Hex(sums.value, 8)) + [CR] else []) + (AsBytes(Hex(uncrc, 8)) + [CR] + [LF])
  }

  function AsBytes(s: string): Bytes {
    seq(|s|, i requires 0 <= i < |s| => s[i] as int % 256)
  }

  /** Checksums of the old style are read back, and so is the value behind them. */
  lemma OldSumsReadBack(sums: Option<Word>, uncrc: Word, value: Bytes)
    requires value != []
    ensures OldSums(sums.Some?, OldPrefix(sums, uncrc) + value)
         == Sums(if sums.Some? then sums.value else 0, uncrc, |OldPrefix(sums, uncrc)|)
  {
    hide Field;
    var rest := [LF] + value;
    var second := AsBytes(Hex(uncrc, 8)) + [CR] + rest;
    FieldReads(uncrc, rest);
    assert OldPrefix(sums, uncrc) + value
        == if sums.Some? then AsBytes(Hex(sums.value, 8)) + [CR] + second else second;
    if sums.Some? {
      FieldReads(sums.value, second);
    }
  }

  lemma FieldReads(n: Word, rest: Bytes)
    ensures Field(AsBytes(Hex(n, 8)) + [CR] + rest) == Some((n, rest))
  {
    hide Hex, ScanHex;
    var s := Hex(n, 8);
    var data := AsBytes(s) + [CR] + rest;
    HexIsDigits(n, 8);
    HexLength(n, 8);
    assert forall i :: 0 <= i < |s| ==> HexValue(s[i]) >= 0 && s[i] < 256 as char && data[i] == s[i] as int != CR;
    FieldLengthIs(data, 0, |s|);
    assert AsText(data[..|s|]) == s + "";
    ScanHexReads(n, 8, "");
    assert data[|s| + 1..] == rest;
  }

  lemma FieldLengthIs(data: Bytes, from: nat, n: nat)
    requires from <= n < |data| && n <= CHKSUM_LEN && data[n] == CR && forall i :: from <= i < n ==> data[i] != CR
    ensures FieldLength(data, from) == n
    decreases n - from
  {
    if from < n {
      FieldLengthIs(data, from + 1, n);
    }
  }

  /** A 32-bit number has at most eight hexadecimal digits. */
  lemma HexLength(n: nat, width: nat)
    requires width > 0 && n < Power(16, width)
    ensures |Hex(n, width)| == width
  {
    if width > 1 {
      HexLength(n / 16, width - 1);
    }
  }

  // The round trip

  lemma ScanField(n: nat, width: nat, s: string, max: nat)
    requires max > 0
    ensures ScanSums(Hex(n, width) + ":" + s, max) == [n] + ScanSums(s, max - 1)
  {
    assert Hex(n, width) + ":" + s == Hex(n, width) + (":" + s);
    ScanHexReads(n, width, ":" + s);
    assert (":" + s)[1..] == s;
  }

  /** What follows the checksums in a header: a cas value, or the end of the line. */
  predicate Tail(s: string) {
    s != "" && (s[0] == ' ' || s[0] == '\r')
  }

  lemma ScanLast(n: nat, width: nat, tail: string, max: nat)
    requires max > 0 && Tail(tail)
    ensures ScanSums(Hex(n, width) + tail, max) == [n]
  {
    ScanHexReads(n, width, tail);
  }

  lemma Metadata()
    ensures Bit(Scanned32(1), 0) && !Downstream(Scanned32(1))
    ensures !Bit(Scanned32(2), 0) && Bit(Scanned32(2), 1) && !Downstream(Scanned32(2))
  {
  }

  lemma PlainSumsRead(lib: Libraries, mode: Servers.Integrity, flags: nat, value: Bytes, tail: string)
    requires Tail(tail) && !Compressed(flags)
    ensures HeaderSums(mode, flags, Some(PlainSums(lib, mode, flags, value) + tail))
         == Sums(0, if mode.Crc? then CrcExtra(lib, value, flags) else 0, 0)
  {
    hide Bit, Hex, ScanSums, Crc;
    var crc := CrcExtra(lib, value, flags);
    Metadata();
    match mode
    case Unsupported =>
    case SupportedOff => ScanField(1, 4, tail, 2);
    case Crc =>
      assert Hex(2, 4) + ":" + Hex(crc, 8) + tail == Hex(2, 4) + ":" + (Hex(crc, 8) + tail);
      ScanField(2, 4, Hex(crc, 8) + tail, 2);
      ScanLast(crc, 8, tail, 1);
  }

  lemma KeptSumsRead(lib: Libraries, mode: Servers.Integrity, flags: nat, value: Bytes, z: Bytes, tail: string)
    requires Tail(tail) && Compressed(flags)
    ensures var crc := CrcExtra(lib, z, flags);
            var uncrc := if Crc(lib, value) == 0 then crc else Crc(lib, value);
            HeaderSums(mode, flags, Some(KeptSums(lib, mode, flags, value, z) + tail))
            == if !mode.Crc? then Sums(0, 0, 0) else if crc == 0 then Unusable else Sums(crc, uncrc, 0)
  {
    hide Bit, Hex, ScanSums, Crc;
    var crc := CrcExtra(lib, z, flags);
    var uncrc := if Crc(lib, value) == 0 then crc else Crc(lib, value);
    Metadata();
    if mode.SupportedOff? {
      ScanField(1, 4, tail, 3);
    } else if mode.Crc? && crc == 0 {
      assert Hex(2, 4) + ":" + Hex(uncrc, 8) + tail == Hex(2, 4) + ":" + (Hex(uncrc, 8) + tail);
      ScanField(2, 4, Hex(uncrc, 8) + tail, 3);
      ScanLast(uncrc, 8, tail, 2);
    } else if mode.Crc? {
      var rest := Hex(crc, 8) + ":" + (Hex(uncrc, 8) + tail);
      assert Hex(2, 4) + ":" + Hex(crc, 8) + ":" + Hex(uncrc, 8) + tail == Hex(2, 4) + ":" + rest;
      ScanField(2, 4, rest, 3);
      ScanField(crc, 8, Hex(uncrc, 8) + tail, 2);
      ScanLast(uncrc, 8, tail, 1);
    }
  }

  /** Whether a reader gets a stored value back: in CRC mode a compressed value needs two checksums other than zero,
      and a value that zlib or LZO shrank must not have shrunk to less than one part in 2^15. */
  predicate Survives(lib: Libraries, mode: Servers.Integrity, value: Bytes, sent: Sent) {
    Compressed(sent.flags) ==>
      && (mode.Crc? ==> CrcExtra(lib, sent.body, sent.flags) != 0 && Crc(lib, value) != 0)
      && (Decompressing(sent.flags).Bzip2? || |value| <= 32768 * |sent.body|)
  }

  /** What the reader sees as checksums of what was sent. */
  function Echoed(mode: Servers.Integrity, sent: Sent, tail: string): Option<string> {
    if mode.Unsupported? then None else Some(sent.sums + tail)
  }

  /** What was sent is decoded to the original bytes exactly when it survives, and never to other bytes. */
  lemma DecodesBack(lib: Libraries, settings: Settings, mode: Servers.Integrity, appending: bool,
    flags: nat, value: Bytes, sent: Sent, tail: string)
    requires Lossless(lib) && !Bit(flags, CHKSUM) && Tail(tail)
    requires Stored(lib, settings, mode, appending, flags, value) == Some(sent)
    ensures var d := Decode(lib, settings.lzo, mode, sent.flags, Echoed(mode, sent, tail), sent.body);
            d == Value(value) <==> Survives(lib, mode, value, sent)
    ensures var d := Decode(lib, settings.lzo, mode, sent.flags, Echoed(mode, sent, tail), sent.body);
            d.Value? ==> d.data == value
  {
    hide Bit, HeaderSums, Inflating, Crc, Wanted, Plain, PlainSums, KeptSums, Doubled;
    var f := Wanted(settings, appending, flags, |value|);
    WantedFlags(settings, appending, flags, |value|);
    PlainIsNotCompressed(f);
    if Compressed(sent.flags) {
      InflatesBack(lib, Decompressing(f), value, 1);
      KeptSumsRead(lib, mode, f, value, sent.body, tail);
      UnsupportedSums(f, Some(sent.sums + tail));
    } else {
      PlainSumsRead(lib, mode, sent.flags, value, tail);
      UnsupportedSums(sent.flags, Some(sent.sums + tail));
    }
  }

  lemma UnsupportedSums(flags: nat, sums: Option<string>)
    ensures HeaderSums(Servers.Unsupported, flags, sums) == Sums(0, 0, 0)
    ensures HeaderSums(Servers.Unsupported, flags, None) == Sums(0, 0, 0)
  {
  }

  /** A value that was stored, and sent back in a VALUE header with or without a cas value, is read back with its key
      and its flags; the bytes are the original ones exactly when they survive, and never other ones. */
  lemma RoundTrip(lib: Libraries, settings: Settings, mode: Servers.Integrity, appending: bool,
    flags: nat, value: Bytes, sent: Sent, key: string, cas: Option<nat>, more: Bytes)
    requires Lossless(lib) && !Bit(flags, CHKSUM) && Tokenizer.IsWord(key)
    requires Stored(lib, settings, mode, appending, flags, value) == Some(sent)
    ensures var sums := if mode.Unsupported? then None else Some(sent.sums);
            var line := HeaderLine(key, sent.flags, |sent.body|, sums, cas);
            var reply := ReplyOf(lib, settings.lzo, mode, cas.Some?, line, sent.body + CRLF + more);
            && reply.Read? && reply.header.key == key && reply.header.flags == sent.flags
            && reply.header.length == |sent.body|
            && reply.header.cas == (if cas.Some? then Some(cas.value) else None)
            && (appending ==> reply.header.flags == 0)
            && (!appending ==> forall j: nat :: j != 1 && j != 2 && j != 4 ==>
                                 Bit(reply.header.flags, j) == Bit(flags, j))
            && (reply.decoded == Value(value) <==> Survives(lib, mode, value, sent))
            && (reply.decoded.Value? ==> reply.decoded.data == value)
  {
    FlagsComeBack(lib, settings, mode, appending, flags, value, sent);
    hide Bit, Decode, Stored, Survives, ParseHeader, HeaderLine, ReplyOf;
    var sums := if mode.Unsupported? then None else Some(sent.sums);
    SumsHaveNoBlank(lib, settings, mode, appending, flags, value, sent);
    HeaderReadsBack(key, sent.flags, |sent.body|, sums, cas);
    HeaderIsNoEnd(key, sent.flags, |sent.body|, sums, cas);
    DecodesBack(lib, settings, mode, appending, flags, value, sent, CasEnding(cas));
    assert (sent.body + CRLF + more)[..|sent.body|] == sent.body;
    ReplyIs(lib, settings.lzo, mode, cas.Some?, HeaderLine(key, sent.flags, |sent.body|, sums, cas),
            sent.body + CRLF + more);
  }

  lemma ReplyIs(lib: Libraries, lzo: bool, mode: Servers.Integrity, withCas: bool, line: string, stream: Bytes)
    requires !("END" <= line)
    ensures match ParseHeader(line, !mode.Unsupported?, withCas)
            case Malformed => true
            case Parsed(h) => |stream| >= h.length + 2 ==>
                ReplyOf(lib, lzo, mode, withCas, line, stream)
                == Read(h, Decode(lib, lzo, mode, h.flags, h.sums, stream[..h.length]))
  {
    hide Decode, ParseHeader;
  }

  lemma FlagsComeBack(lib: Libraries, settings: Settings, mode: Servers.Integrity, appending: bool,
    flags: nat, value: Bytes, sent: Sent)
    requires Stored(lib, settings, mode, appending, flags, value) == Some(sent)
    ensures appending ==> sent.flags == 0
    ensures !appending ==> forall j: nat :: j != 1 && j != 2 && j != 4 ==> Bit(sent.flags, j) == Bit(flags, j)
  {
    StoredIsSentFor(lib, settings, mode, appending, flags, value, sent);
  }

  lemma HeaderIsNoEnd(key: string, flags: nat, length: nat, sums: Option<string>, cas: Option<nat>)
    ensures !("END" <= HeaderLine(key, flags, length, sums, cas))
  {
    assert HeaderLine(key, flags, length, sums, cas)[0] == 'V';
  }

  lemma SumsHaveNoBlank(lib: Libraries, settings: Settings, mode: Servers.Integrity, appending: bool,
    flags: nat, value: Bytes, sent: Sent)
    requires Stored(lib, settings, mode, appending, flags, value) == Some(sent)
    ensures ' ' !in sent.sums
  {
    hide Bit, Hex, Crc, Wanted, Plain;
    forall n: nat, width: nat ensures ' ' !in Hex(n, width) {
      HexIsDigits(n, width);
    }
  }

  /** Libraries as little constrained as the model allows: they shrink one value to a single byte, and their checksum
      of anything is zero. */
  function ShrinkOnly(v: Bytes): Libraries {
    Libraries(
      (codec: Codec, s: Bytes) => if s == v then Some([0]) else None,
      (codec: Codec, z: Bytes, size: nat) => if codec.Bzip2? || |v| <= size then Done(v) else TooSmall,
      (crc: Word, b: Byte) => Ring.MODULUS - 1)
  }

  /** Neither half of `Survives` follows from what is assumed of the libraries: not that the checksums of a compressed
      value are other than zero, nor that a value is at most 2^15 times as long as what it is compressed to. Nothing is
      said here about what zlib, LZO or CRC-32 can produce. */
  lemma NeitherHalfIsImplied(long: bool)
    ensures var value: Bytes := seq(if long then 0x1_0000 else 2, _ => 0);
            var mode := if long then Servers.Unsupported else Servers.Crc;
            var settings := Settings(0, 1, true, 0.0);
            exists sent ::
              && Lossless(ShrinkOnly(value))
              && Stored(ShrinkOnly(value), settings, mode, false, 2, value) == Some(sent)
              && !Decode(ShrinkOnly(value), true, mode, sent.flags, Echoed(mode, sent, "\r\n"), sent.body).Value?
  {
    var value: Bytes := seq(if long then 0x1_0000 else 2, _ => 0);
    var mode := if long then Servers.Unsupported else Servers.Crc;
    var lib, settings := ShrinkOnly(value), Settings(0, 1, true, 0.0);
    assert Bit(2, COMPRESSED) && !Bit(2, CHKSUM) && Decompressing(2) == Zlib;
    var sent := Stored(lib, settings, mode, false, 2, value).value;
    assert Doubled(1, 15) == 0x8000;
    assert Crc(lib, value) == 0;
    assert !Survives(lib, mode, value, sent);
    DecodesBack(lib, settings, mode, false, 2, value, sent, "\r\n");
  }

  // Integrity

  lemma {:induction false} ScanFewer(s: string, m: nat, n: nat)
    requires m <= n
    ensures ScanSums(s, m) == ScanSums(s, n)[..if m <= |ScanSums(s, n)| then m else |ScanSums(s, n)|]
    decreases m
  {
    if m > 0 && ScanHex(s).Number? {
      var rest := ScanHex(s).rest;
      if rest != "" && rest[0] == ':' {
        ScanFewer(rest[1..], m - 1, n - 1);
      }
    }
  }

  /** The header's numbers: its metadata, and checksums that agree, unless they are zero, with what was received
      and with what it decompressed to. */
  ghost predicate Vouched(lib: Libraries, numbers: seq<int>, flags: nat, data: Bytes, d: Bytes) {
    && |numbers| >= (if Compressed(flags) then 3 else 2)
    && Bit(Scanned32(numbers[0]), 1) && !Downstream(Scanned32(numbers[0]))
    && (Scanned32(numbers[1]) != 0 ==> Scanned32(numbers[1]) == CrcExtra(lib, data, flags))
    && (Compressed(flags) && Scanned32(numbers[2]) != 0 ==> Scanned32(numbers[2]) == Crc(lib, d))
  }

  /** In CRC mode, when the header does not switch checksums off and the value is not of the old style, a value is
      read exactly when the header can be taken apart, the body is complete and every checksum agrees. */
  lemma IntegrityIsSound(lib: Libraries, lzo: bool, withCas: bool, line: string, stream: Bytes, h: Header, d: Bytes)
    requires !Bit(h.flags, CHKSUM) && h.sums.Some?
    requires var numbers := ScanSums(h.sums.value, 3); numbers == [] || !Bit(Scanned32(numbers[0]), 0)
    ensures ReplyOf(lib, lzo, Servers.Crc, withCas, line, stream) == Read(h, Value(d)) <==>
              && !("END" <= line) && ParseHeader(line, true, withCas) == Parsed(h) && |stream| >= h.length + 2
              && var body := stream[..h.length];
                 && (lzo || !Bit(h.flags, COMPRESSED_LZO) || body == [])
                 && Vouched(lib, ScanSums(h.sums.value, 3), h.flags, body, d)
                 && if Compressed(h.flags) then Inflating(lib, Decompressing(h.flags), body, 1) == Some(d)
                    else d == body
  {
    hide Bit, Inflating, Crc, Downstream, ScanSums, Scanned32, ParseHeader;
    ScanFewer(h.sums.value, 2, 3);
    HeaderSumsSkip(Servers.Crc, h.flags, h.sums);
    if |stream| >= h.length + 2 {
      var body := stream[..h.length];
      assert body[0..] == body;
    }
  }

  /** What the checksums of a stored value look like to a reader with any flags. */
  lemma SentSumsRead(lib: Libraries, settings: Settings, appending: bool, flags: nat, value: Bytes,
    sent: Sent, tail: string, flags': nat)
    requires Stored(lib, settings, Servers.Crc, appending, flags, value) == Some(sent) && Tail(tail)
    requires CrcExtra(lib, sent.body, sent.flags) != 0 && Crc(lib, value) != 0
    ensures var crc := CrcExtra(lib, sent.body, sent.flags);
            HeaderSums(Servers.Crc, flags', Some(sent.sums + tail))
            == if !Compressed(flags') then Sums(0, crc, 0)
               else if Compressed(sent.flags) then Sums(crc, Crc(lib, value), 0)
               else Unusable
  {
    hide Bit, Hex, Crc, Wanted, Plain, ScanSums, Compressing;
    var crc, uncrc := CrcExtra(lib, sent.body, sent.flags), Crc(lib, value);
    Metadata();
    PlainIsNotCompressed(Wanted(settings, appending, flags, |value|));
    var wanted := if Compressed(flags') then 3 else 2;
    if Compressed(sent.flags) {
      var rest := Hex(crc, 8) + ":" + (Hex(uncrc, 8) + tail);
      assert sent.sums + tail == Hex(2, 4) + ":" + rest;
      ScanField(2, 4, rest, wanted);
      ScanField(crc, 8, Hex(uncrc, 8) + tail, wanted - 1);
      if wanted == 3 {
        ScanLast(uncrc, 8, tail, 1);
      }
    } else {
      assert sent.sums + tail == Hex(2, 4) + ":" + (Hex(crc, 8) + tail);
      ScanField(2, 4, Hex(crc, 8) + tail, wanted);
      ScanLast(crc, 8, tail, wanted - 1);
    }
  }

  /** Whatever flags and bytes come back with the checksums of a stored value: unless the flags say that the value
      carries checksums of its own, they are read as a value only if their checksum is the stored one, and a value that
      had to be decompressed has the checksum of the original. */
  lemma ChangesAreDetected(lib: Libraries, settings: Settings, appending: bool, flags: nat, value: Bytes,
    sent: Sent, tail: string, flags': nat, body': Bytes, d: Bytes)
    requires Stored(lib, settings, Servers.Crc, appending, flags, value) == Some(sent) && Tail(tail)
    requires CrcExtra(lib, sent.body, sent.flags) != 0 && Crc(lib, value) != 0
    requires Decode(lib, settings.lzo, Servers.Crc, flags', Some(sent.sums + tail), body') == Value(d)
    ensures Bit(flags', CHKSUM) || CrcExtra(lib, body', flags') == CrcExtra(lib, sent.body, sent.flags)
    ensures Bit(flags', CHKSUM) || (Compressed(flags') ==> Compressed(sent.flags) && Crc(lib, d) == Crc(lib, value))
  {
    hide Bit, Inflating, Crc, Stored, HeaderSums, OldSums, CrcExtra;
    SentSumsRead(lib, settings, appending, flags, value, sent, tail, flags');
    assert body'[0..] == body';
  }

  /** The exception is real: with the bit of the old style in the flags, the checksums in the header are not looked at,
      and none in front of the value means that none is checked. */
  lemma OldStyleIsOnItsOwn(lib: Libraries, lzo: bool, mode: Servers.Integrity, sums: Option<string>, d: Bytes)
    requires d != []
    ensures Decode(lib, lzo, mode, 8, sums, [CR] + [LF] + d) == Value(d)
  {
    assert Bit(8, CHKSUM) && !Compressed(8);
    var data := [CR] + [LF] + d;
    assert FieldLength(data, 0) == 0 && AsText(data[..0]) == "" && Strtol("") == 0;
    assert data[1..] == [LF] + d && data[2..] == d;
  }
}
