/**
  The header probe of `audio_header.rs`: the chunk walk of a WAV file and the STREAMINFO block of a
  FLAC file (section 8.2 of RFC 9639). Lengths in frames are kept as integers.
*/
module AudioHeader {
  import opened Common

  datatype Format = Wav | Flac

  datatype Metrics = Metrics(format: Format, rate: nat, channels: nat, bits: nat, frames: nat)

  const MAX_CHUNKS := 4096

  // ---------------------------------------------------------------- reading bytes

  predicate Is(f: seq<Byte>, i: nat, a: char, b: char, c: char, d: char) {
    i + 4 <= |f| && f[i] == a as int && f[i + 1] == b as int && f[i + 2] == c as int && f[i + 3] == d as int
  }

  function Le16(f: seq<Byte>, i: nat): (n: nat)
    requires i + 2 <= |f|
    ensures n < 0x1_0000
  {
    var low: nat, high: nat := f[i], f[i + 1];
    low + 256 * high
  }

  function Le32(f: seq<Byte>, i: nat): (n: nat)
    requires i + 4 <= |f|
    ensures n < 0x1_0000_0000
  {
    Le16(f, i) + 0x1_0000 * Le16(f, i + 2)
  }

  function Be16(f: seq<Byte>, i: nat): (n: nat)
    requires i + 2 <= |f|
    ensures n < 0x1_0000
  {
    var high: nat, low: nat := f[i], f[i + 1];
    256 * high + low
  }

  function Be64(f: seq<Byte>, i: nat): (n: nat)
    requires i + 8 <= |f|
    ensures n < 0x1_0000_0000_0000_0000
  {
    0x1_0000_0000_0000 * Be16(f, i) + 0x1_0000_0000 * Be16(f, i + 2) + 0x1_0000 * Be16(f, i + 4) + Be16(f, i + 6)
  }

  /** No length without frames or without a rate. */
  function Measured(m: Metrics): Option<Metrics> {
    if m.frames == 0 || m.rate == 0 then None else Some(m)
  }

  // ---------------------------------------------------------------- FLAC

  /** The fields of the packed 64 bits: 20 of sample rate, 3 of channels, 5 of depth, 36 of length. */
  function Unpack(packed: nat): Metrics {
    Metrics(Flac, packed / 0x1000_0000_0000, packed / 0x200_0000_0000 % 8 + 1, packed / 0x10_0000_0000 % 32 + 1,
            packed % 0x10_0000_0000)
  }

  function Pack(m: Metrics): nat
    requires m.channels >= 1 && m.bits >= 1
  {
    m.rate * 0x1000_0000_0000 + (m.channels - 1) * 0x200_0000_0000 + (m.bits - 1) * 0x10_0000_0000 + m.frames
  }

  predicate StreamInfo(m: Metrics) {
    && m.format == Flac && m.rate < 0x10_0000 && 1 <= m.channels <= 8 && 1 <= m.bits <= 32
    && m.frames < 0x10_0000_0000
  }

  /** The packing loses nothing and uses every value of the 64 bits. */
  lemma {:induction false} UnpackPack(m: Metrics)
    requires StreamInfo(m)
    ensures Pack(m) < 0x1_0000_0000_0000_0000 && Unpack(Pack(m)) == m
  {
    var p := Pack(m);
    var low := (m.channels - 1) * 0x200_0000_0000 + (m.bits - 1) * 0x10_0000_0000 + m.frames;
    assert low < 0x1000_0000_0000;
    assert p == m.rate * 0x1000_0000_0000 + low;
    assert p / 0x1000_0000_0000 == m.rate;
    assert p / 0x200_0000_0000 == m.rate * 8 + (m.channels - 1);
    assert p / 0x10_0000_0000 == (m.rate * 8 + (m.channels - 1)) * 32 + (m.bits - 1);
  }

  lemma {:induction false} PackUnpack(packed: nat)
    requires packed < 0x1_0000_0000_0000_0000
    ensures StreamInfo(Unpack(packed)) && Pack(Unpack(packed)) == packed
  {
    var a, b, c := packed / 0x10_0000_0000, packed / 0x200_0000_0000, packed / 0x1000_0000_0000;
    assert packed == a * 0x10_0000_0000 + packed % 0x10_0000_0000;
    assert b == a / 32 && c == b / 8;
    assert a == b * 32 + a % 32 && b == c * 8 + b % 8;
  }

  function ProbeFlac(f: seq<Byte>): Option<Metrics> {
    if |f| < 42 then None
    else if f[4] % 128 != 0 || f[5] != 0 || f[6] != 0 || f[7] != 34 then None
    else
      var minBlock, maxBlock := Be16(f, 8), Be16(f, 10);
      if minBlock < 16 || maxBlock < minBlock then None
      else
        var m := Unpack(Be64(f, 18));
        if m.bits < 4 then None else Measured(m)
  }

  // ---------------------------------------------------------------- WAV

  datatype Fmt = Fmt(channels: nat, rate: nat, bits: nat, alignment: nat)

  function ChunkSize(f: seq<Byte>, p: nat): nat
    requires p + 8 <= |f|
  {
    Le32(f, p + 4)
  }

  /** Where the next chunk starts: chunks are padded to an even length. */
  function AfterChunk(f: seq<Byte>, p: nat): (q: nat)
    requires p + 8 <= |f|
    ensures q >= p + 8
  {
    p + 8 + ChunkSize(f, p) + ChunkSize(f, p) % 2
  }

  predicate IsFmt(f: seq<Byte>, p: nat) { Is(f, p, 'f', 'm', 't', ' ') }

  predicate IsData(f: seq<Byte>, p: nat) { Is(f, p, 'd', 'a', 't', 'a') }

  /** A format chunk this probe understands. */
  function ReadFmt(f: seq<Byte>, p: nat): (r: Option<Fmt>)
    requires p + 8 <= |f|
    ensures r.Some? ==>
              && r.value.channels > 0 && r.value.bits in {8, 16, 24}
              && r.value.alignment == r.value.channels * (r.value.bits / 8) > 0
  {
    var size, body := ChunkSize(f, p), p + 8;
    if (size != 16 && size != 18) || body + size > |f| then None
    else if Le16(f, body) != 1 then None
    else
      var channels, rate, byteRate := Le16(f, body + 2), Le32(f, body + 4), Le32(f, body + 8);
      var alignment, bits := Le16(f, body + 12), Le16(f, body + 14);
      if channels == 0 || (bits != 8 && bits != 16 && bits != 24)
         || alignment != channels * (bits / 8) || byteRate != rate * alignment
      then None
      else Some(Fmt(channels, rate, bits, alignment))
  }

  /** A final data chunk after a format chunk. */
  function ReadData(f: seq<Byte>, p: nat, format: Option<Fmt>): Option<Metrics>
    requires p + 8 <= |f| && (format.Some? ==> format.value.alignment > 0)
  {
    var size := ChunkSize(f, p);
    if size == 0 || size == 0xFFFF_FFFF || format.None? then None
    else
      var available := Min(size, |f| - (p + 8));
      if AfterChunk(f, p) < |f| || available % format.value.alignment != 0 then None
      else
        Measured(Metrics(Wav, format.value.rate, format.value.channels, format.value.bits,
                         available / format.value.alignment))
  }

  predicate Usable(format: Option<Fmt>) { format.Some? ==> format.value.alignment > 0 }

  /** The walk from a chunk on, with the chunks still allowed. */
  function Walk(f: seq<Byte>, p: nat, format: Option<Fmt>, left: nat): Option<Metrics>
    requires Usable(format)
    decreases left
  {
    if left == 0 || p + 8 > |f| then None
    else if IsFmt(f, p) then
      if ReadFmt(f, p).None? then None else Walk(f, AfterChunk(f, p), ReadFmt(f, p), left - 1)
    else if IsData(f, p) then ReadData(f, p, format)
    else Walk(f, AfterChunk(f, p), format, left - 1)
  }

  function ProbeResult(f: seq<Byte>): Option<Metrics> {
    if |f| < 12 then None
    else if Is(f, 0, 'f', 'L', 'a', 'C') then ProbeFlac(f)
    else if !Is(f, 0, 'R', 'I', 'F', 'F') || !Is(f, 8, 'W', 'A', 'V', 'E') then None
    else Walk(f, 12, None, MAX_CHUNKS)
  }

  /** The probe: a moving position and the last format seen. */
  method Probe(f: seq<Byte>) returns (r: Option<Metrics>)
    ensures r == ProbeResult(f)
  {
    if |f| < 12 {
      return None;
    }
    if Is(f, 0, 'f', 'L', 'a', 'C') {
      return ProbeFlac(f);
    }
    if !Is(f, 0, 'R', 'I', 'F', 'F') || !Is(f, 8, 'W', 'A', 'V', 'E') {
      return None;
    }
    var position := 12;
    var format: Option<Fmt> := None;
    var chunk := 0;
    while chunk < MAX_CHUNKS
      invariant 0 <= chunk <= MAX_CHUNKS && Usable(format)
      invariant position >= 12 + 8 * chunk
      invariant ProbeResult(f) == Walk(f, position, format, MAX_CHUNKS - chunk)
    {
      hide ReadFmt, ReadData, AfterChunk;
      if position + 8 > |f| {
        return None;
      }
      if IsFmt(f, position) {
        format := ReadFmt(f, position);
        if format.None? {
          return None;
        }
      } else if IsData(f, position) {
        return ReadData(f, position, format);
      }
      position := AfterChunk(f, position);
      chunk := chunk + 1;
    }
    r := None;
  }

  // ---------------------------------------------------------------- the chain behind an answer

  function NextFormat(f: seq<Byte>, p: nat, format: Option<Fmt>): Option<Fmt>
    requires p + 8 <= |f|
  {
    if IsFmt(f, p) then ReadFmt(f, p) else format
  }

  /** Consecutive chunks at `ps`: readable ones that are not data, then a data chunk that gives `m` in
      the format in force. */
  predicate Tiles(f: seq<Byte>, ps: seq<nat>, format: Option<Fmt>, m: Metrics)
    requires Usable(format)
    decreases |ps|
  {
    && ps != [] && ps[0] + 8 <= |f|
    && if |ps| == 1 then !IsFmt(f, ps[0]) && IsData(f, ps[0]) && ReadData(f, ps[0], format) == Some(m)
       else
         && (IsFmt(f, ps[0]) || !IsData(f, ps[0])) && (IsFmt(f, ps[0]) ==> ReadFmt(f, ps[0]).Some?)
         && ps[1] == AfterChunk(f, ps[0])
         && Tiles(f, ps[1..], NextFormat(f, ps[0], format), m)
  }

  lemma {:induction false} WalkTiles(f: seq<Byte>, p: nat, format: Option<Fmt>, left: nat, m: Metrics)
    returns (ps: seq<nat>)
    requires Usable(format) && Walk(f, p, format, left) == Some(m)
    ensures Tiles(f, ps, format, m) && ps[0] == p && |ps| <= left
    decreases left
  {
    hide ReadFmt, ReadData, AfterChunk, IsFmt, IsData;
    if !IsFmt(f, p) && IsData(f, p) {
      ps := [p];
    } else {
      var more := WalkTiles(f, AfterChunk(f, p), NextFormat(f, p, format), left - 1, m);
      ps := [p] + more;
      assert ps[1..] == more;
    }
  }

  lemma {:induction false} TilesWalk(f: seq<Byte>, ps: seq<nat>, format: Option<Fmt>, left: nat, m: Metrics)
    requires Usable(format) && Tiles(f, ps, format, m) && |ps| <= left
    ensures Walk(f, ps[0], format, left) == Some(m)
    decreases |ps|
  {
    hide ReadFmt, ReadData, AfterChunk, IsFmt, IsData;
    if |ps| > 1 {
      TilesWalk(f, ps[1..], NextFormat(f, ps[0], format), left - 1, m);
    }
  }

  predicate WavFile(f: seq<Byte>) {
    |f| >= 12 && Is(f, 0, 'R', 'I', 'F', 'F') && Is(f, 8, 'W', 'A', 'V', 'E')
  }

  /** A WAV file is answered exactly when a chain of at most 4096 chunks from byte 12 on gives that
      answer. */
  lemma {:induction false} AnsweredExactlyWhen(f: seq<Byte>, m: Metrics)
    requires WavFile(f)
    ensures ProbeResult(f) == Some(m)
       <==> exists ps: seq<nat> :: 0 < |ps| <= MAX_CHUNKS && ps[0] == 12 && Tiles(f, ps, None, m)
  {
    hide Tiles, Walk;
    if Walk(f, 12, None, MAX_CHUNKS) == Some(m) {
      var ps := WalkTiles(f, 12, None, MAX_CHUNKS, m);
      SomeTiles(f, ps, m);
    }
    if ps: seq<nat> :| 0 < |ps| <= MAX_CHUNKS && ps[0] == 12 && Tiles(f, ps, None, m) {
      TilesWalk(f, ps, None, MAX_CHUNKS, m);
    }
  }

  lemma {:induction false} SomeTiles(f: seq<Byte>, ps: seq<nat>, m: Metrics)
    requires Tiles(f, ps, None, m)
    ensures |ps| > 0
  {
  }

  /** What such a chain is: consecutive chunks, positions strictly growing, the last one the only data
      chunk read, reaching the end of the file, and a valid format chunk before it. */
  lemma {:induction false} ChainFacts(f: seq<Byte>, ps: seq<nat>, format: Option<Fmt>, m: Metrics)
    requires Usable(format) && Tiles(f, ps, format, m)
    ensures forall i :: 0 <= i < |ps| ==> ps[i] + 8 <= |f|
    ensures forall i :: 0 <= i < |ps| - 1 ==> ps[i + 1] == AfterChunk(f, ps[i]) && ps[i] + 8 <= ps[i + 1]
    ensures forall i :: 0 <= i < |ps| - 1 ==> IsFmt(f, ps[i]) || !IsData(f, ps[i])
    ensures (var last := ps[|ps| - 1]; IsData(f, last) && AfterChunk(f, last) >= |f| && ChunkSize(f, last) > 0)
    ensures m.format == Wav && m.frames > 0 && m.rate > 0
    ensures format.Some? || exists i :: 0 <= i < |ps| - 1 && IsFmt(f, ps[i]) && ReadFmt(f, ps[i]).Some?
    decreases |ps|
  {
    hide ReadFmt, IsFmt, IsData;
    if |ps| > 1 {
      var rest := ps[1..];
      ChainFacts(f, rest, NextFormat(f, ps[0], format), m);
      hide Tiles, ReadData;
      forall i | 0 <= i < |ps| - 1
        ensures ps[i + 1] == AfterChunk(f, ps[i]) && ps[i] + 8 <= ps[i + 1] && (IsFmt(f, ps[i]) || !IsData(f, ps[i]))
      {
        if i > 0 {
          assert rest[i - 1] == ps[i] && (i < |rest| ==> rest[i] == ps[i + 1]);
        }
      }
      if i :| 0 <= i < |rest| - 1 && IsFmt(f, rest[i]) && ReadFmt(f, rest[i]).Some? {
        assert rest[i] == ps[i + 1];
      }
    }
  }

  // ---------------------------------------------------------------- bytes that stand in a file

  /** The bytes stand in the file at position `p`. */
  predicate At(f: seq<Byte>, p: nat, s: seq<Byte>) { p + |s| <= |f| && f[p..p + |s|] == s }

  lemma {:induction false} Apart(f: seq<Byte>, p: nat, a: seq<Byte>, b: seq<Byte>)
    requires At(f, p, a + b)
    ensures At(f, p, a) && At(f, p + |a|, b)
  {
    var s := f[p..p + |a + b|];
    assert f[p..p + |a|] == s[..|a|] == a;
    assert f[p + |a|..p + |a| + |b|] == s[|a|..] == b;
  }

  lemma {:induction false} AtIndex(f: seq<Byte>, p: nat, s: seq<Byte>, k: nat)
    requires At(f, p, s) && k < |s|
    ensures f[p + k] == s[k]
  {
    assert f[p..p + |s|][k] == s[k];
  }

  function Ascii(a: char, b: char, c: char, d: char): (s: seq<Byte>)
    requires a < '\U{80}' && b < '\U{80}' && c < '\U{80}' && d < '\U{80}'
    ensures |s| == 4
  {
    [a as int, b as int, c as int, d as int]
  }

  lemma {:induction false} ReadAscii(f: seq<Byte>, i: nat, s: seq<Byte>, a: char, b: char, c: char, d: char)
    requires a < '\U{80}' && b < '\U{80}' && c < '\U{80}' && d < '\U{80}'
    requires At(f, i, s) && |s| == 4
    ensures Is(f, i, a, b, c, d) <==> s == Ascii(a, b, c, d)
  {
    AtIndex(f, i, s, 0);
    AtIndex(f, i, s, 1);
    AtIndex(f, i, s, 2);
    AtIndex(f, i, s, 3);
  }

  function Bytes16le(n: nat): (s: seq<Byte>)
    requires n < 0x1_0000
    ensures |s| == 2
  {
    [n % 256, n / 256]
  }

  function Bytes32le(n: nat): (s: seq<Byte>)
    requires n < 0x1_0000_0000
    ensures |s| == 4
  {
    Bytes16le(n % 0x1_0000) + Bytes16le(n / 0x1_0000)
  }

  function Bytes16be(n: nat): (s: seq<Byte>)
    requires n < 0x1_0000
    ensures |s| == 2
  {
    [n / 256, n % 256]
  }

  function Bytes64be(n: nat): (s: seq<Byte>)
    requires n < 0x1_0000_0000_0000_0000
    ensures |s| == 8
  {
    Bytes16be(n / 0x1_0000_0000_0000)
    + (Bytes16be(n / 0x1_0000_0000 % 0x1_0000)
       + (Bytes16be(n / 0x1_0000 % 0x1_0000) + Bytes16be(n % 0x1_0000)))
  }

  lemma {:induction false} Read16le(f: seq<Byte>, i: nat, n: nat)
    requires n < 0x1_0000 && At(f, i, Bytes16le(n))
    ensures Le16(f, i) == n
  {
    AtIndex(f, i, Bytes16le(n), 0);
    AtIndex(f, i, Bytes16le(n), 1);
  }

  lemma {:induction false} Read32le(f: seq<Byte>, i: nat, n: nat)
    requires n < 0x1_0000_0000 && At(f, i, Bytes32le(n))
    ensures Le32(f, i) == n
  {
    hide Bytes16le, Le16;
    Apart(f, i, Bytes16le(n % 0x1_0000), Bytes16le(n / 0x1_0000));
    Read16le(f, i, n % 0x1_0000);
    Read16le(f, i + 2, n / 0x1_0000);
  }

  lemma {:induction false} Read16be(f: seq<Byte>, i: nat, n: nat)
    requires n < 0x1_0000 && At(f, i, Bytes16be(n))
    ensures Be16(f, i) == n
  {
    AtIndex(f, i, Bytes16be(n), 0);
    AtIndex(f, i, Bytes16be(n), 1);
  }

  lemma {:induction false} FourWords(n: nat)
    requires n < 0x1_0000_0000_0000_0000
    ensures n / 0x1_0000_0000_0000 < 0x1_0000
    ensures n == 0x1_0000_0000_0000 * (n / 0x1_0000_0000_0000) + 0x1_0000_0000 * (n / 0x1_0000_0000 % 0x1_0000)
                 + 0x1_0000 * (n / 0x1_0000 % 0x1_0000) + n % 0x1_0000
  {
    var a, b := n / 0x1_0000, n / 0x1_0000_0000;
    assert b == a / 0x1_0000 && n / 0x1_0000_0000_0000 == b / 0x1_0000;
  }

  lemma {:induction false} Read64be(f: seq<Byte>, i: nat, n: nat)
    requires n < 0x1_0000_0000_0000_0000 && At(f, i, Bytes64be(n))
    ensures Be64(f, i) == n
  {
    hide Bytes16be, Be16, At;
    FourWords(n);
    var a, b, c, d := n / 0x1_0000_0000_0000, n / 0x1_0000_0000 % 0x1_0000, n / 0x1_0000 % 0x1_0000, n % 0x1_0000;
    Apart(f, i, Bytes16be(a), Bytes16be(b) + (Bytes16be(c) + Bytes16be(d)));
    Apart(f, i + 2, Bytes16be(b), Bytes16be(c) + Bytes16be(d));
    Apart(f, i + 4, Bytes16be(c), Bytes16be(d));
    Read16be(f, i, a);
    Read16be(f, i + 2, b);
    Read16be(f, i + 4, c);
    Read16be(f, i + 6, d);
  }

  // ---------------------------------------------------------------- written FLAC headers

  /** A FLAC file: the head of its first metadata block, block sizes, the frame-size range `middle`, the
      packed fields, and everything after. */
  function FlacFile(m: Metrics, block: seq<Byte>, minBlock: nat, maxBlock: nat, middle: seq<Byte>,
                    rest: seq<Byte>): seq<Byte>
    requires StreamInfo(m) && |block| == 4 && minBlock < 0x1_0000 && maxBlock < 0x1_0000 && |middle| == 6
  {
    UnpackPack(m);
    Ascii('f', 'L', 'a', 'C')
    + (block + (Bytes16be(minBlock) + (Bytes16be(maxBlock) + (middle + (Bytes64be(Pack(m)) + rest)))))
  }

  /** A STREAMINFO block of 34 bytes comes first, last or not. */
  predicate StreamInfoHead(block: seq<Byte>) {
    |block| == 4 && block[0] in {0, 128} && block[1] == 0 && block[2] == 0 && block[3] == 34
  }

  /** Probing any written FLAC header gives back its rate, channels, depth and length exactly when
      STREAMINFO comes first and whole, its block sizes are in order, its depth is one FLAC has, and
      there is a length to report. */
  lemma {:induction false} FlacRoundTrip(m: Metrics, block: seq<Byte>, minBlock: nat, maxBlock: nat,
                                         middle: seq<Byte>, rest: seq<Byte>)
    requires StreamInfo(m) && |block| == 4 && minBlock < 0x1_0000 && maxBlock < 0x1_0000 && |middle| == 6
    ensures ProbeResult(FlacFile(m, block, minBlock, maxBlock, middle, rest))
         == if && StreamInfoHead(block) && 16 <= minBlock <= maxBlock && |rest| >= 16
               && m.bits >= 4 && m.rate > 0 && m.frames > 0
            then Some(m) else None
  {
    UnpackPack(m);
    hide Pack, Unpack, Bytes64be, Be16, Be64, Is, FlacFile, StreamInfo, StreamInfoHead, ProbeFlac, Walk;
    FlacFields(m, block, minBlock, maxBlock, middle, rest);
    FlacAnswer(FlacFile(m, block, minBlock, maxBlock, middle, rest), m, block, minBlock, maxBlock);
  }

  lemma {:induction false} FlacAnswer(f: seq<Byte>, m: Metrics, block: seq<Byte>, minBlock: nat, maxBlock: nat)
    requires |f| >= 26 && |block| == 4 && f[4] == block[0] && f[5] == block[1] && f[6] == block[2] && f[7] == block[3]
    requires Be16(f, 8) == minBlock && Be16(f, 10) == maxBlock && Unpack(Be64(f, 18)) == m
    ensures ProbeFlac(f)
         == if && StreamInfoHead(block) && 16 <= minBlock <= maxBlock && |f| >= 42
               && m.bits >= 4 && m.rate > 0 && m.frames > 0
            then Some(m) else None
  {
    hide Unpack, Be16, Be64;
    LastOrNot(f[4]);
  }

  lemma {:induction false} LastOrNot(b: Byte)
    ensures b % 128 == 0 <==> b in {0, 128}
  {
  }

  lemma {:induction false} FlacLayout(m: Metrics, block: seq<Byte>, minBlock: nat, maxBlock: nat,
                                      middle: seq<Byte>, rest: seq<Byte>)
    requires StreamInfo(m) && |block| == 4 && minBlock < 0x1_0000 && maxBlock < 0x1_0000 && |middle| == 6
    ensures Pack(m) < 0x1_0000_0000_0000_0000
    ensures (var f := FlacFile(m, block, minBlock, maxBlock, middle, rest);
             && |f| == 26 + |rest| && At(f, 0, Ascii('f', 'L', 'a', 'C')) && At(f, 4, block)
             && At(f, 8, Bytes16be(minBlock)) && At(f, 10, Bytes16be(maxBlock)) && At(f, 18, Bytes64be(Pack(m))))
  {
    UnpackPack(m);
    hide Pack, Bytes16be, Bytes64be, Ascii, At;
    var f := FlacFile(m, block, minBlock, maxBlock, middle, rest);
    var packed := Bytes64be(Pack(m));
    Whole(f);
    var r5 := packed + rest;
    var r4 := middle + r5;
    var r3 := Bytes16be(maxBlock) + r4;
    var r2 := Bytes16be(minBlock) + r3;
    Apart(f, 0, Ascii('f', 'L', 'a', 'C'), block + r2);
    Apart(f, 4, block, r2);
    Apart(f, 8, Bytes16be(minBlock), r3);
    Apart(f, 10, Bytes16be(maxBlock), r4);
    Apart(f, 12, middle, r5);
    Apart(f, 18, packed, rest);
  }

  lemma {:induction false} FlacFields(m: Metrics, block: seq<Byte>, minBlock: nat, maxBlock: nat,
                                      middle: seq<Byte>, rest: seq<Byte>)
    requires StreamInfo(m) && |block| == 4 && minBlock < 0x1_0000 && maxBlock < 0x1_0000 && |middle| == 6
    ensures Pack(m) < 0x1_0000_0000_0000_0000
    ensures (var f := FlacFile(m, block, minBlock, maxBlock, middle, rest);
             && |f| == 26 + |rest| && Is(f, 0, 'f', 'L', 'a', 'C')
             && f[4] == block[0] && f[5] == block[1] && f[6] == block[2] && f[7] == block[3]
             && Be16(f, 8) == minBlock && Be16(f, 10) == maxBlock && Be64(f, 18) == Pack(m))
  {
    hide Pack, FlacFile, Bytes16be, Bytes64be, Be16, Be64, Is, Ascii;
    FlacLayout(m, block, minBlock, maxBlock, middle, rest);
    var f := FlacFile(m, block, minBlock, maxBlock, middle, rest);
    hide At;
    ReadAscii(f, 0, Ascii('f', 'L', 'a', 'C'), 'f', 'L', 'a', 'C');
    Read16be(f, 8, minBlock);
    Read16be(f, 10, maxBlock);
    Read64be(f, 18, Pack(m));
    AtIndex(f, 4, block, 0);
    AtIndex(f, 4, block, 1);
    AtIndex(f, 4, block, 2);
    AtIndex(f, 4, block, 3);
  }

  lemma {:induction false} Whole(f: seq<Byte>)
    ensures At(f, 0, f)
  {
  }

  // ---------------------------------------------------------------- written WAV files

  /** The fields of a format chunk as written, right or wrong. */
  datatype Fields = Fields(code: nat, channels: nat, rate: nat, byteRate: nat, alignment: nat, bits: nat)

  predicate Writable(x: Fields) {
    && x.code < 0x1_0000 && x.channels < 0x1_0000 && x.rate < 0x1_0000_0000 && x.byteRate < 0x1_0000_0000
    && x.alignment < 0x1_0000 && x.bits < 0x1_0000
  }

  /** PCM of whole bytes whose derived fields are right. */
  predicate PlainPcm(x: Fields) {
    && x.code == 1 && x.channels > 0 && x.bits in {8, 16, 24}
    && x.alignment == x.channels * (x.bits / 8) && x.byteRate == x.rate * x.alignment
  }

  function FieldBytes(x: Fields): (s: seq<Byte>)
    requires Writable(x)
    ensures |s| == 16
  {
    Bytes16le(x.code)
    + (Bytes16le(x.channels)
       + (Bytes32le(x.rate) + (Bytes32le(x.byteRate) + (Bytes16le(x.alignment) + Bytes16le(x.bits)))))
  }

  lemma {:induction false} FieldsRead(f: seq<Byte>, p: nat, x: Fields)
    requires Writable(x) && At(f, p, FieldBytes(x))
    ensures p + 16 <= |f|
    ensures Le16(f, p) == x.code && Le16(f, p + 2) == x.channels && Le32(f, p + 4) == x.rate
    ensures Le32(f, p + 8) == x.byteRate && Le16(f, p + 12) == x.alignment && Le16(f, p + 14) == x.bits
  {
    hide Bytes16le, Bytes32le, Le16, Le32;
    assert p + 16 <= |f|;
    hide At;
    var t4 := Bytes16le(x.alignment) + Bytes16le(x.bits);
    var t3 := Bytes32le(x.byteRate) + t4;
    var t2 := Bytes32le(x.rate) + t3;
    Apart(f, p, Bytes16le(x.code), Bytes16le(x.channels) + t2);
    Apart(f, p + 2, Bytes16le(x.channels), t2);
    Apart(f, p + 4, Bytes32le(x.rate), t3);
    Apart(f, p + 8, Bytes32le(x.byteRate), t4);
    Apart(f, p + 12, Bytes16le(x.alignment), Bytes16le(x.bits));
    Read16le(f, p, x.code);
    Read16le(f, p + 2, x.channels);
    Read32le(f, p + 4, x.rate);
    Read32le(f, p + 8, x.byteRate);
    Read16le(f, p + 12, x.alignment);
    Read16le(f, p + 14, x.bits);
  }

  datatype Chunk = Chunk(name: seq<Byte>, body: seq<Byte>)

  predicate Sized(c: Chunk) { |c.name| == 4 && |c.body| < 0x1_0000_0000 }

  /** Neither format nor data. */
  predicate Other(c: Chunk) {
    Sized(c) && c.name != Ascii('f', 'm', 't', ' ') && c.name != Ascii('d', 'a', 't', 'a')
  }

  function EvenPad(n: nat): (s: seq<Byte>)
    ensures |s| == n % 2
  {
    if n % 2 == 1 then [0] else []
  }

  function ChunkBytes(c: Chunk): (s: seq<Byte>)
    requires Sized(c)
    ensures |s| == 8 + |c.body| + |c.body| % 2
  {
    c.name + (Bytes32le(|c.body|) + (c.body + EvenPad(|c.body|)))
  }

  predicate AllOther(cs: seq<Chunk>) { forall k :: 0 <= k < |cs| ==> Other(cs[k]) }

  function ChunksBytes(cs: seq<Chunk>): seq<Byte>
    requires AllOther(cs)
  {
    if cs == [] then [] else ChunkBytes(cs[0]) + ChunksBytes(cs[1..])
  }

  lemma {:induction false} ChunkRead(f: seq<Byte>, p: nat, c: Chunk)
    requires Sized(c) && At(f, p, ChunkBytes(c))
    ensures p + |ChunkBytes(c)| <= |f|
    ensures ChunkSize(f, p) == |c.body| && AfterChunk(f, p) == p + |ChunkBytes(c)| && At(f, p + 8, c.body)
    ensures IsFmt(f, p) <==> c.name == Ascii('f', 'm', 't', ' ')
    ensures IsData(f, p) <==> c.name == Ascii('d', 'a', 't', 'a')
  {
    hide Bytes32le, Le32, Ascii, Is;
    assert p + |ChunkBytes(c)| <= |f|;
    hide At;
    var t := c.body + EvenPad(|c.body|);
    Apart(f, p, c.name, Bytes32le(|c.body|) + t);
    Apart(f, p + 4, Bytes32le(|c.body|), t);
    Apart(f, p + 8, c.body, EvenPad(|c.body|));
    Read32le(f, p + 4, |c.body|);
    ReadAscii(f, p, c.name, 'f', 'm', 't', ' ');
    ReadAscii(f, p, c.name, 'd', 'a', 't', 'a');
  }

  /** Chunks of other names are walked over. */
  lemma {:induction false} WalkedOver(f: seq<Byte>, p: nat, cs: seq<Chunk>, format: Option<Fmt>, left: nat)
    requires AllOther(cs) && Usable(format) && At(f, p, ChunksBytes(cs))
    ensures Walk(f, p, format, left)
         == if left < |cs| then None else Walk(f, p + |ChunksBytes(cs)|, format, left - |cs|)
    decreases |cs|
  {
    hide AfterChunk, IsFmt, IsData, ChunkBytes, At, ReadFmt, ReadData;
    if cs != [] && left > 0 {
      Apart(f, p, ChunkBytes(cs[0]), ChunksBytes(cs[1..]));
      ChunkRead(f, p, cs[0]);
      WalkedOver(f, p + |ChunkBytes(cs[0])|, cs[1..], format, left - 1);
    }
  }

  /** A format chunk with the fields and `ext` behind them is understood exactly when it is plain PCM
      and `ext` is nothing or two bytes. */
  lemma {:induction false} FormatRead(f: seq<Byte>, p: nat, x: Fields, ext: seq<Byte>)
    requires Writable(x) && |ext| < 0x1000_0000
    requires At(f, p, ChunkBytes(Chunk(Ascii('f', 'm', 't', ' '), FieldBytes(x) + ext)))
    ensures p + 8 <= |f| && IsFmt(f, p)
    ensures ReadFmt(f, p) == if PlainPcm(x) && |ext| in {0, 2} then Some(Fmt(x.channels, x.rate, x.bits, x.alignment))
                             else None
    ensures AfterChunk(f, p) == p + 24 + |ext| + |ext| % 2
  {
    hide Bytes16le, Bytes32le, Le16, Le32, At, Ascii, FieldBytes, IsFmt, IsData;
    ChunkRead(f, p, Chunk(Ascii('f', 'm', 't', ' '), FieldBytes(x) + ext));
    hide ChunkBytes;
    Apart(f, p + 8, FieldBytes(x), ext);
    FieldsRead(f, p + 8, x);
  }

  /** A WAV file: other chunks, a format chunk, other chunks, the head of a data chunk of any declared
      size, and whatever bytes follow it. */
  function WavBytes(x: Fields, riffSize: nat, before: seq<Chunk>, ext: seq<Byte>, between: seq<Chunk>,
                    size: nat, rest: seq<Byte>): seq<Byte>
    requires Writable(x) && riffSize < 0x1_0000_0000 && size < 0x1_0000_0000 && |ext| < 0x1000_0000
    requires AllOther(before) && AllOther(between)
  {
    Ascii('R', 'I', 'F', 'F')
    + (Bytes32le(riffSize)
       + (Ascii('W', 'A', 'V', 'E')
          + (ChunksBytes(before)
             + (ChunkBytes(Chunk(Ascii('f', 'm', 't', ' '), FieldBytes(x) + ext))
                + (ChunksBytes(between)
                   + (Ascii('d', 'a', 't', 'a') + (Bytes32le(size) + rest)))))))
  }

  /** The data chunk is the last one, its declared size is usable, and what is there of it is a whole
      number of frames, at least one. */
  predicate DataUsable(x: Fields, size: nat, length: nat)
    requires x.alignment > 0
  {
    && 0 < size < 0xFFFF_FFFF && length <= size + size % 2
    && 0 < Min(size, length) && Min(size, length) % x.alignment == 0
  }

  lemma {:induction false} DataRead(f: seq<Byte>, p: nat, x: Fields, size: nat, rest: seq<Byte>)
    requires Writable(x) && PlainPcm(x) && size < 0x1_0000_0000
    requires At(f, p, Ascii('d', 'a', 't', 'a') + (Bytes32le(size) + rest)) && |f| == p + 8 + |rest|
    ensures x.alignment > 0 && IsData(f, p) && !IsFmt(f, p)
    ensures ReadData(f, p, Some(Fmt(x.channels, x.rate, x.bits, x.alignment)))
         == if DataUsable(x, size, |rest|) && x.rate > 0
            then Some(Metrics(Wav, x.rate, x.channels, x.bits, Min(size, |rest|) / x.alignment)) else None
  {
    hide Bytes32le, Le32, At, Is;
    var data := Ascii('d', 'a', 't', 'a');
    assert data[0] == 100 && Ascii('f', 'm', 't', ' ')[0] == 102;
    hide Ascii;
    Apart(f, p, data, Bytes32le(size) + rest);
    Apart(f, p + 4, Bytes32le(size), rest);
    ReadAscii(f, p, data, 'd', 'a', 't', 'a');
    ReadAscii(f, p, data, 'f', 'm', 't', ' ');
    Read32le(f, p + 4, size);
    Quotient(Min(size, |rest|), x.alignment);
  }

  lemma {:induction false} Quotient(n: nat, d: nat)
    requires d > 0
    ensures if n < d then n % d == n && n / d == 0 else n / d > 0
  {
  }

  /** Probing any such file gives back the rate, channels, depth and number of frames exactly when the
      format chunk is understood, the data chunk is usable, the rate is not zero, and there are no more
      than 4096 chunks. Chunks of other names make no difference; data cut short is measured as it is. */
  lemma {:induction false} WavRoundTrip(x: Fields, riffSize: nat, before: seq<Chunk>, ext: seq<Byte>,
                                        between: seq<Chunk>, size: nat, rest: seq<Byte>)
    requires Writable(x) && riffSize < 0x1_0000_0000 && size < 0x1_0000_0000 && |ext| < 0x1000_0000
    requires AllOther(before) && AllOther(between)
    ensures PlainPcm(x) ==> x.alignment > 0
    ensures ProbeResult(WavBytes(x, riffSize, before, ext, between, size, rest))
         == if && PlainPcm(x) && |ext| in {0, 2} && DataUsable(x, size, |rest|) && x.rate > 0
               && |before| + |between| + 2 <= 4096
            then Some(Metrics(Wav, x.rate, x.channels, x.bits, Min(size, |rest|) / x.alignment)) else None
  {
    hide Bytes32le, FieldBytes, ChunkBytes, ChunksBytes, At, Ascii, Is, PlainPcm, DataUsable, Walk;
    assert PlainPcm(x) ==> x.alignment > 0 by { AlignmentPositive(x); }
    var f := WavBytes(x, riffSize, before, ext, between, size, rest);
    var p := HeadRead(f, x, riffSize, before, ext, between, size, rest);
    WalkedOver(f, 12, before, None, MAX_CHUNKS);
    if |before| < MAX_CHUNKS {
      FromFormat(f, p, x, ext, between, size, rest, MAX_CHUNKS - |before|);
    } else if |before| == MAX_CHUNKS {
      NoneLeft(f, p, None);
    }
  }

  lemma {:induction false} NoneLeft(f: seq<Byte>, p: nat, format: Option<Fmt>)
    requires Usable(format)
    ensures Walk(f, p, format, 0) == None
  {
  }

  lemma {:induction false} AlignmentPositive(x: Fields)
    ensures PlainPcm(x) ==> x.alignment > 0
  {
  }

  /** The bytes from the format chunk on. */
  function FormatOn(x: Fields, ext: seq<Byte>, between: seq<Chunk>, size: nat, rest: seq<Byte>): seq<Byte>
    requires Writable(x) && size < 0x1_0000_0000 && |ext| < 0x1000_0000 && AllOther(between)
  {
    ChunkBytes(Chunk(Ascii('f', 'm', 't', ' '), FieldBytes(x) + ext))
    + (ChunksBytes(between) + (Ascii('d', 'a', 't', 'a') + (Bytes32le(size) + rest)))
  }

  lemma {:induction false} HeadRead(f: seq<Byte>, x: Fields, riffSize: nat, before: seq<Chunk>, ext: seq<Byte>,
                                    between: seq<Chunk>, size: nat, rest: seq<Byte>) returns (p: nat)
    requires Writable(x) && riffSize < 0x1_0000_0000 && size < 0x1_0000_0000 && |ext| < 0x1000_0000
    requires AllOther(before) && AllOther(between)
    requires f == WavBytes(x, riffSize, before, ext, between, size, rest)
    ensures WavFile(f) && !Is(f, 0, 'f', 'L', 'a', 'C')
    ensures At(f, 12, ChunksBytes(before)) && p == 12 + |ChunksBytes(before)|
    ensures At(f, p, FormatOn(x, ext, between, size, rest))
    ensures |f| == p + |FormatOn(x, ext, between, size, rest)|
  {
    assert Ascii('R', 'I', 'F', 'F')[0] == 82 && Ascii('f', 'L', 'a', 'C')[0] == 102;
    hide Bytes32le, FieldBytes, ChunkBytes, ChunksBytes, At, Ascii, Is;
    Whole(f);
    var format := FormatOn(x, ext, between, size, rest);
    var chunks := ChunksBytes(before) + format;
    var wave := Ascii('W', 'A', 'V', 'E') + chunks;
    Apart(f, 0, Ascii('R', 'I', 'F', 'F'), Bytes32le(riffSize) + wave);
    Apart(f, 4, Bytes32le(riffSize), wave);
    Apart(f, 8, Ascii('W', 'A', 'V', 'E'), chunks);
    Apart(f, 12, ChunksBytes(before), format);
    ReadAscii(f, 0, Ascii('R', 'I', 'F', 'F'), 'R', 'I', 'F', 'F');
    ReadAscii(f, 0, Ascii('R', 'I', 'F', 'F'), 'f', 'L', 'a', 'C');
    ReadAscii(f, 8, Ascii('W', 'A', 'V', 'E'), 'W', 'A', 'V', 'E');
    p := 12 + |ChunksBytes(before)|;
  }

  lemma {:induction false} FromFormat(f: seq<Byte>, p: nat, x: Fields, ext: seq<Byte>, between: seq<Chunk>,
                                      size: nat, rest: seq<Byte>, left: nat)
    requires Writable(x) && size < 0x1_0000_0000 && |ext| < 0x1000_0000 && AllOther(between)
    requires At(f, p, FormatOn(x, ext, between, size, rest)) && |f| == p + |FormatOn(x, ext, between, size, rest)|
    requires left > 0
    ensures PlainPcm(x) ==> x.alignment > 0
    ensures Walk(f, p, None, left)
         == if && PlainPcm(x) && |ext| in {0, 2} && DataUsable(x, size, |rest|) && x.rate > 0
               && |between| + 2 <= left
            then Some(Metrics(Wav, x.rate, x.channels, x.bits, Min(size, |rest|) / x.alignment)) else None
  {
    hide Bytes32le, FieldBytes, ChunksBytes, At, Ascii, Is, PlainPcm, DataUsable, ReadFmt, AfterChunk, IsFmt, IsData;
    AlignmentPositive(x);
    var data := Ascii('d', 'a', 't', 'a') + (Bytes32le(size) + rest);
    var chunk := ChunkBytes(Chunk(Ascii('f', 'm', 't', ' '), FieldBytes(x) + ext));
    Apart(f, p, chunk, ChunksBytes(between) + data);
    FormatRead(f, p, x, ext);
    if PlainPcm(x) && |ext| in {0, 2} {
      var format, q := Some(Fmt(x.channels, x.rate, x.bits, x.alignment)), p + |chunk|;
      assert Walk(f, p, None, left) == Walk(f, q, format, left - 1);
      hide Walk;
      Apart(f, q, ChunksBytes(between), data);
      WalkedOver(f, q, between, format, left - 1);
      if |between| < left - 1 {
        FromData(f, q + |ChunksBytes(between)|, x, size, rest, left - 1 - |between|);
      } else if |between| == left - 1 {
        NoneLeft(f, q + |ChunksBytes(between)|, format);
      }
    }
  }

  lemma {:induction false} FromData(f: seq<Byte>, p: nat, x: Fields, size: nat, rest: seq<Byte>, left: nat)
    requires Writable(x) && PlainPcm(x) && size < 0x1_0000_0000 && left > 0
    requires At(f, p, Ascii('d', 'a', 't', 'a') + (Bytes32le(size) + rest)) && |f| == p + 8 + |rest|
    ensures x.alignment > 0
    ensures Walk(f, p, Some(Fmt(x.channels, x.rate, x.bits, x.alignment)), left)
         == if DataUsable(x, size, |rest|) && x.rate > 0
            then Some(Metrics(Wav, x.rate, x.channels, x.bits, Min(size, |rest|) / x.alignment)) else None
  {
    hide Bytes32le, At, Ascii, Is, DataUsable, ReadData, IsFmt, IsData;
    DataRead(f, p, x, size, rest);
  }
}
