/** The frame codec and the segment reader of the agent's spool.

    A segment file is a run of frames. A frame is a 4-byte length, a 4-byte checksum and a payload;
    the payload is an 8-byte sequence number followed by the encoded round. All integers are
    little-endian. The checksum is a parameter: every result holds for every checksum function. */
module Frames {

  type byte = x: int | 0 <= x < 0x100
  type u32 = x: int | 0 <= x < 0x1_0000_0000
  type int64 = x: int | -0x8000_0000_0000_0000 <= x < 0x8000_0000_0000_0000
  type Checksum = seq<byte> -> u32

  const FRAME_HEADER := 8
  const SEGMENT_MAX_BYTES := 0x400_0000 // 64 << 20

  datatype Record = Record(seqNo: int64, body: seq<byte>)

  /** Why a read stopped. */
  datatype Stop = CleanEof | ShortFrame | BadFrame

  datatype Decoded = Frame(rec: Record, size: nat) | Undecoded(why: Stop)

  /** What reading a whole segment yields. */
  datatype Segment = Segment(recs: seq<Record>, consumed: nat, stop: Stop)

  // ---- little-endian integers ----

  function LittleEndian(x: nat, width: nat): (b: seq<byte>)
    ensures |b| == width
  {
    if width == 0 then [] else [x % 0x100] + LittleEndian(x / 0x100, width - 1)
  }

  function FromLittleEndian(b: seq<byte>): nat {
    if b == [] then 0 else b[0] + 0x100 * FromLittleEndian(b[1..])
  }

  function Pow256(n: nat): nat {
    if n == 0 then 1 else 0x100 * Pow256(n - 1)
  }

  lemma {:induction false} LittleEndianRoundTrip(x: nat, width: nat)
    requires x < Pow256(width)
    ensures FromLittleEndian(LittleEndian(x, width)) == x
  {
    if width > 0 {
      LittleEndianRoundTrip(x / 0x100, width - 1);
      assert LittleEndian(x, width)[1..] == LittleEndian(x / 0x100, width - 1);
    }
  }

  // ---- one frame ----

  /** uint64(seq): two's complement. */
  function ToU64(x: int64): nat { x % 0x1_0000_0000_0000_0000 }

  /** int64(u): the inverse cast, wrapping. */
  function FromU64(u: nat): int64 {
    var w := u % 0x1_0000_0000_0000_0000;
    if w < 0x8000_0000_0000_0000 then w else w - 0x1_0000_0000_0000_0000
  }

  function Payload(r: Record): (p: seq<byte>) { LittleEndian(ToU64(r.seqNo), 8) + r.body }

  function EncodeFrame(crc: Checksum, r: Record): (f: seq<byte>)
    ensures |f| == FRAME_HEADER + 8 + |r.body|
  {
    var p := Payload(r);
    LittleEndian(|p| % 0x1_0000_0000, 4) + LittleEndian(crc(p), 4) + p
  }

  function DecodeFrame(crc: Checksum, src: seq<byte>): (d: Decoded)
    ensures d.Frame? ==> FRAME_HEADER + 8 <= d.size <= |src| && d.size == FRAME_HEADER + 8 + |d.rec.body|
    ensures d.Undecoded? ==> d.why != CleanEof
  {
    if |src| < FRAME_HEADER then Undecoded(ShortFrame)
    else
      var payloadLen := FromLittleEndian(src[0..4]);
      if payloadLen < 8 then Undecoded(BadFrame)
      else if payloadLen > SEGMENT_MAX_BYTES then Undecoded(BadFrame)
      else
        var sum := FromLittleEndian(src[4..8]);
        if |src| < FRAME_HEADER + payloadLen then Undecoded(ShortFrame)
        else
          var payload := src[FRAME_HEADER..FRAME_HEADER + payloadLen];
          if crc(payload) != sum then Undecoded(BadFrame)
          else Frame(Record(FromU64(FromLittleEndian(payload[0..8])), payload[8..]), FRAME_HEADER + payloadLen)
  }

  /** The reader rejects a longer payload as corruption; the writer does not check. */
  predicate Fits(r: Record) { 8 + |r.body| <= SEGMENT_MAX_BYTES }

  lemma Powers()
    ensures Pow256(4) == 0x1_0000_0000 && Pow256(8) == 0x1_0000_0000_0000_0000
  {
    assert Pow256(1) == 0x100 && Pow256(2) == 0x1_0000 && Pow256(3) == 0x100_0000;
    assert Pow256(5) == 0x100_0000_0000 && Pow256(6) == 0x1_0000_0000_0000 && Pow256(7) == 0x100_0000_0000_0000;
  }

  lemma CastRoundTrip(x: int64)
    ensures FromU64(ToU64(x)) == x && ToU64(x) < 0x1_0000_0000_0000_0000
  {}

  lemma U64RoundTrip(x: int64)
    ensures FromU64(FromLittleEndian(LittleEndian(ToU64(x), 8))) == x
  {
    hide *;
    Powers();
    CastRoundTrip(x);
    LittleEndianRoundTrip(ToU64(x), 8);
  }

  lemma U32RoundTrip(x: u32)
    ensures FromLittleEndian(LittleEndian(x, 4)) == x
  {
    hide *;
    Powers();
    LittleEndianRoundTrip(x, 4);
  }

  /** Where the parts of a frame lie. */
  lemma FrameLayout(crc: Checksum, r: Record, rest: seq<byte>)
    requires Fits(r)
    ensures var p, src := Payload(r), EncodeFrame(crc, r) + rest;
            && src[0..4] == LittleEndian(|p|, 4)
            && src[4..8] == LittleEndian(crc(p), 4)
            && src[FRAME_HEADER..FRAME_HEADER + |p|] == p
            && p[0..8] == LittleEndian(ToU64(r.seqNo), 8)
            && p[8..] == r.body
  {
    hide LittleEndian, ToU64;
  }

  /** Decoding undoes encoding, whatever follows the frame. */
  lemma DecodeEncode(crc: Checksum, r: Record, rest: seq<byte>)
    requires Fits(r)
    ensures DecodeFrame(crc, EncodeFrame(crc, r) + rest) == Frame(r, |EncodeFrame(crc, r)|)
  {
    hide LittleEndian, FromLittleEndian, EncodeFrame, ToU64, FromU64;
    FrameLayout(crc, r, rest);
    U32RoundTrip(|Payload(r)|);
    U32RoundTrip(crc(Payload(r)));
    U64RoundTrip(r.seqNo);
  }

  /** A complete frame decodes the same however the bytes after it are cut; a cut inside it is a
      short frame, never a bad checksum. */
  lemma DecodePrefix(crc: Checksum, src: seq<byte>, n: nat)
    requires n <= |src|
    ensures DecodeFrame(crc, src).Frame? ==>
              DecodeFrame(crc, src[..n]) ==
              if DecodeFrame(crc, src).size <= n then DecodeFrame(crc, src) else Undecoded(ShortFrame)
    ensures DecodeFrame(crc, src) == Undecoded(ShortFrame) ==> DecodeFrame(crc, src[..n]) == Undecoded(ShortFrame)
  {
    var cut := src[..n];
    if n >= FRAME_HEADER {
      assert cut[0..4] == src[0..4] && cut[4..8] == src[4..8];
      var payloadLen := FromLittleEndian(src[0..4]);
      if FRAME_HEADER + payloadLen <= n {
        assert cut[FRAME_HEADER..FRAME_HEADER + payloadLen] == src[FRAME_HEADER..FRAME_HEADER + payloadLen];
      }
    }
  }

  // ---- a whole segment ----

  /** What the segment reader yields, frame by frame from the front. */
  function Scan(crc: Checksum, data: seq<byte>): (s: Segment)
    ensures s.consumed <= |data|
    ensures s.consumed == FramesLen(s.recs)
    ensures s.stop == CleanEof <==> s.consumed == |data|
    decreases |data|
  {
    if data == [] then Segment([], 0, CleanEof)
    else
      match DecodeFrame(crc, data)
      case Undecoded(why) => Segment([], 0, why)
      case Frame(rec, size) =>
        var rest := Scan(crc, data[size..]);
        Segment([rec] + rest.recs, size + rest.consumed, rest.stop)
  }

  /** The number of bytes the frames of these records take. */
  function FramesLen(recs: seq<Record>): nat {
    if recs == [] then 0 else FRAME_HEADER + 8 + |recs[0].body| + FramesLen(recs[1..])
  }

  function EncodeAll(crc: Checksum, recs: seq<Record>): (b: seq<byte>)
    ensures |b| == FramesLen(recs)
  {
    if recs == [] then [] else EncodeFrame(crc, recs[0]) + EncodeAll(crc, recs[1..])
  }

  /** The reader looks at a header, then at a payload of the announced length, and only then decodes
      the frame; this is what decoding the rest of the segment in one go would say. */
  lemma ReadInTwoSteps(crc: Checksum, src: seq<byte>)
    ensures |src| < FRAME_HEADER ==> DecodeFrame(crc, src) == Undecoded(ShortFrame)
    ensures |src| >= FRAME_HEADER ==>
              var payloadLen := FromLittleEndian(src[0..4]);
              if payloadLen < 8 || payloadLen > SEGMENT_MAX_BYTES then DecodeFrame(crc, src) == Undecoded(BadFrame)
              else if |src| < FRAME_HEADER + payloadLen then DecodeFrame(crc, src) == Undecoded(ShortFrame)
              else DecodeFrame(crc, src) == DecodeFrame(crc, src[..FRAME_HEADER + payloadLen])
  {
    if |src| >= FRAME_HEADER {
      var payloadLen := FromLittleEndian(src[0..4]);
      if |src| >= FRAME_HEADER + payloadLen {
        var buf := src[..FRAME_HEADER + payloadLen];
        assert payloadLen >= 0;
        assert buf[0..4] == src[0..4] && buf[4..8] == src[4..8];
        assert buf[FRAME_HEADER..FRAME_HEADER + payloadLen] == src[FRAME_HEADER..FRAME_HEADER + payloadLen];
      }
    }
  }

  /** Reading a segment: one frame after another into a growing list. */
  method ReadSegment(crc: Checksum, data: seq<byte>) returns (recs: seq<Record>, consumed: nat, stop: Stop)
    ensures Segment(recs, consumed, stop) == Scan(crc, data)
  {
    hide DecodeFrame, Scan, FramesLen, FromLittleEndian;
    ScanEmpty(crc);
    recs, consumed, stop := [], 0, CleanEof;
    assert data[0..] == data;
    while consumed < |data|
      invariant consumed <= |data|
      invariant stop == CleanEof
      invariant var rest := Scan(crc, data[consumed..]);
                Scan(crc, data) == Segment(recs + rest.recs, consumed + rest.consumed, rest.stop)
    {
      var src := data[consumed..];
      ReadInTwoSteps(crc, src);
      ScanStep(crc, src);
      if |src| < FRAME_HEADER {
        return recs, consumed, ShortFrame; // torn header
      }
      var payloadLen := FromLittleEndian(src[0..4]);
      if payloadLen < 8 || payloadLen > SEGMENT_MAX_BYTES {
        return recs, consumed, BadFrame;
      }
      var total := FRAME_HEADER + payloadLen;
      if |src| < total {
        return recs, consumed, ShortFrame; // torn payload
      }
      match DecodeFrame(crc, src[..total]) {
        case Undecoded(why) =>
          return recs, consumed, why;
        case Frame(rec, size) =>
          assert src[size..] == data[consumed + size..];
          recs, consumed := recs + [rec], consumed + size;
      }
    }
  }

  lemma ScanEmpty(crc: Checksum)
    ensures Scan(crc, []) == Segment([], 0, CleanEof)
  {}

  /** One step of the reader. */
  lemma ScanStep(crc: Checksum, data: seq<byte>)
    requires data != []
    ensures DecodeFrame(crc, data).Undecoded? ==> Scan(crc, data) == Segment([], 0, DecodeFrame(crc, data).why)
    ensures DecodeFrame(crc, data).Frame? ==>
              var f := DecodeFrame(crc, data);
              var rest := Scan(crc, data[f.size..]);
              Scan(crc, data) == Segment([f.rec] + rest.recs, f.size + rest.consumed, rest.stop)
  {
    hide DecodeFrame, FramesLen;
  }

  /** Reading a clean run of frames and then more bytes reads both. */
  lemma {:induction false} ScanConcat(crc: Checksum, a: seq<byte>, b: seq<byte>)
    requires Scan(crc, a).stop == CleanEof
    ensures var s, t := Scan(crc, a), Scan(crc, b);
            Scan(crc, a + b) == Segment(s.recs + t.recs, |a| + t.consumed, t.stop)
    decreases |a|
  {
    hide *;
    if a == [] {
      assert a + b == b;
      ScanEmpty(crc);
    } else {
      ScanStep(crc, a);
      ScanStep(crc, a + b);
      DecodeExtend(crc, a, b);
      var size := DecodeFrame(crc, a).size;
      assert (a + b)[size..] == a[size..] + b;
      ScanConcat(crc, a[size..], b);
    }
  }

  lemma DecodeExtend(crc: Checksum, a: seq<byte>, b: seq<byte>)
    requires DecodeFrame(crc, a).Frame?
    ensures DecodeFrame(crc, a + b) == DecodeFrame(crc, a)
  {
    assert (a + b)[0..4] == a[0..4] && (a + b)[4..8] == a[4..8];
    var payloadLen := FromLittleEndian(a[0..4]);
    assert (a + b)[FRAME_HEADER..FRAME_HEADER + payloadLen] == a[FRAME_HEADER..FRAME_HEADER + payloadLen];
  }

  /** Cutting a segment that holds no corruption: the reader yields the records wholly before the
      cut, all of them, and never reports a bad frame. */
  lemma {:induction false} ScanCut(crc: Checksum, data: seq<byte>, n: nat)
    requires n <= |data|
    requires Scan(crc, data).stop != BadFrame
    ensures var s, c := Scan(crc, data), Scan(crc, data[..n]);
            && c.stop != BadFrame
            && c.recs <= s.recs
            && (|c.recs| < |s.recs| ==> n < FramesLen(s.recs[..|c.recs| + 1]))
    decreases |data|
  {
    if data != [] {
      hide DecodeFrame, Scan;
      ScanStep(crc, data);
      DecodePrefix(crc, data, n);
      if n == 0 {
        CutNothing(crc, data);
      } else {
        ScanStep(crc, data[..n]);
        if DecodeFrame(crc, data).Frame? {
          ScanCutFrame(crc, data, n);
        }
      }
    }
  }

  lemma CutNothing(crc: Checksum, data: seq<byte>)
    requires Scan(crc, data).stop != BadFrame
    ensures Scan(crc, data[..0]) == Segment([], 0, CleanEof)
    ensures Scan(crc, data).recs != [] ==> 0 < FramesLen(Scan(crc, data).recs[..1])
  {
    hide DecodeFrame;
  }

  lemma {:induction false} ScanCutFrame(crc: Checksum, data: seq<byte>, n: nat)
    requires 0 < n <= |data|
    requires Scan(crc, data).stop != BadFrame && DecodeFrame(crc, data).Frame?
    ensures var s, c := Scan(crc, data), Scan(crc, data[..n]);
            && c.stop != BadFrame
            && c.recs <= s.recs
            && (|c.recs| < |s.recs| ==> n < FramesLen(s.recs[..|c.recs| + 1]))
    decreases |data|, 0
  {
    hide *;
    ScanStep(crc, data);
    ScanStep(crc, data[..n]);
    DecodePrefix(crc, data, n);
    var f := DecodeFrame(crc, data);
    var s, c := Scan(crc, data), Scan(crc, data[..n]);
    var rest := Scan(crc, data[f.size..]);
    if f.size <= n {
      assert data[..n][f.size..] == data[f.size..][..n - f.size];
      ScanCut(crc, data[f.size..], n - f.size);
      var k := |Scan(crc, data[f.size..][..n - f.size]).recs|;
      if k < |rest.recs| {
        FramesLenCons(f.rec, rest.recs[..k + 1]);
        assert s.recs[..k + 2] == [f.rec] + rest.recs[..k + 1];
      }
    } else {
      FramesLenCons(f.rec, []);
      assert s.recs[..1] == [f.rec] + [];
    }
  }

  lemma FramesLenCons(r: Record, recs: seq<Record>)
    ensures FramesLen([r] + recs) == FRAME_HEADER + 8 + |r.body| + FramesLen(recs)
  {
    assert ([r] + recs)[1..] == recs;
  }

  lemma {:induction false} ScanEncodeAll(crc: Checksum, recs: seq<Record>)
    requires forall r :: r in recs ==> Fits(r)
    ensures Scan(crc, EncodeAll(crc, recs)) == Segment(recs, FramesLen(recs), CleanEof)
    decreases |recs|
  {
    if recs != [] {
      ScanEncodeAll(crc, recs[1..]);
      ScanOne(crc, recs[0]);
      ScanConcat(crc, EncodeFrame(crc, recs[0]), EncodeAll(crc, recs[1..]));
      assert [recs[0]] + recs[1..] == recs;
    }
  }

  lemma ScanOne(crc: Checksum, r: Record)
    requires Fits(r)
    ensures Scan(crc, EncodeFrame(crc, r)) == Segment([r], |EncodeFrame(crc, r)|, CleanEof)
  {
    DecodeEncode(crc, r, []);
    var f := EncodeFrame(crc, r);
    assert f + [] == f;
    assert f[|f|..] == [];
  }

  lemma {:induction false} FramesLenMono(recs: seq<Record>, i: nat, j: nat)
    requires i < j <= |recs|
    ensures FramesLen(recs[..i]) < FramesLen(recs[..j])
    decreases i
  {
    assert recs[..j][0] == recs[0];
    if i > 0 {
      assert recs[..i][1..] == recs[1..][..i - 1] && recs[..j][1..] == recs[1..][..j - 1];
      FramesLenMono(recs[1..], i - 1, j - 1);
    }
  }

  lemma SameCount(recs: seq<Record>, cut: nat, k: nat, m: nat)
    requires k <= |recs| && m <= |recs|
    requires FramesLen(recs[..k]) <= cut && (k < |recs| ==> cut < FramesLen(recs[..k + 1]))
    requires FramesLen(recs[..m]) <= cut && (m < |recs| ==> cut < FramesLen(recs[..m + 1]))
    ensures k == m
  {
    hide *;
    if m < k {
      if m + 1 < k { FramesLenMono(recs, m + 1, k); }
    } else if k < m {
      if k + 1 < m { FramesLenMono(recs, k + 1, m); }
    }
  }

  /** k is the number of records that lie wholly before the cut. */
  predicate WhollyBefore(recs: seq<Record>, cut: nat, k: nat) {
    k <= |recs| && FramesLen(recs[..k]) <= cut && (k < |recs| ==> cut < FramesLen(recs[..k + 1]))
  }

  lemma WhollyBeforeUnique(recs: seq<Record>, cut: nat, k: nat, m: nat)
    requires WhollyBefore(recs, cut, k) && WhollyBefore(recs, cut, m)
    ensures k == m
  {
    hide FramesLen;
    SameCount(recs, cut, k, m);
  }

  /** The torn-write theorem. Take the frames of any records and cut the bytes anywhere. There is exactly
      one number k of records wholly before the cut; the reader yields just those, it consumed exactly
      their bytes, it reports a clean end iff the cut is on a frame boundary, and otherwise a short
      frame. */
  lemma TornWriteTheorem(crc: Checksum, recs: seq<Record>, cut: nat) returns (k: nat)
    requires forall r :: r in recs ==> Fits(r)
    requires cut <= FramesLen(recs)
    ensures WhollyBefore(recs, cut, k) && forall m: nat :: WhollyBefore(recs, cut, m) ==> m == k
    ensures Scan(crc, EncodeAll(crc, recs)[..cut]) ==
            Segment(recs[..k], FramesLen(recs[..k]), if cut == FramesLen(recs[..k]) then CleanEof else ShortFrame)
  {
    hide *;
    ScanEncodeAll(crc, recs);
    ScanCut(crc, EncodeAll(crc, recs), cut);
    var c := Scan(crc, EncodeAll(crc, recs)[..cut]);
    k := |c.recs|;
    assert c.recs == recs[..k];
    IsWhollyBefore(recs, cut, k);
    forall m: nat | WhollyBefore(recs, cut, m)
      ensures m == k
    {
      WhollyBeforeUnique(recs, cut, m, k);
    }
  }

  lemma IsWhollyBefore(recs: seq<Record>, cut: nat, k: nat)
    requires k <= |recs| && FramesLen(recs[..k]) <= cut && (k < |recs| ==> cut < FramesLen(recs[..k + 1]))
    ensures WhollyBefore(recs, cut, k)
  {}

  // ---- the reader accepts only what the writer writes ----

  lemma {:induction false} LittleEndianInverse(b: seq<byte>)
    ensures FromLittleEndian(b) < Pow256(|b|) && LittleEndian(FromLittleEndian(b), |b|) == b
    decreases |b|
  {
    if b != [] {
      LittleEndianInverse(b[1..]);
      assert b == [b[0]] + b[1..];
    }
  }

  /** The number in four bytes, lowest first. */
  function Word(a: byte, b: byte, c: byte, d: byte): nat {
    a as nat + 0x100 * b as nat + 0x1_0000 * c as nat + 0x100_0000 * d as nat
  }

  lemma FourBytes(b: seq<byte>)
    requires |b| == 4
    ensures FromLittleEndian(b) == Word(b[0], b[1], b[2], b[3])
  {
    assert b[1..][1..] == b[2..] && b[2..][1..] == b[3..] && b[3..][1..] == [];
    assert FromLittleEndian(b[3..]) == b[3] as nat;
    assert FromLittleEndian(b[2..]) == b[2] as nat + 0x100 * FromLittleEndian(b[3..]);
    assert FromLittleEndian(b[1..]) == b[1] as nat + 0x100 * FromLittleEndian(b[2..]);
  }

  lemma CastInverse(u: nat)
    requires u < 0x1_0000_0000_0000_0000
    ensures ToU64(FromU64(u)) == u
  {}

  /** A decoded frame is, byte for byte, the encoding of its record: its first four bytes give the length of
      the payload, the next four the payload's checksum. A frame with any other length or checksum is not
      decoded. */
  lemma DecodedIsEncoded(crc: Checksum, src: seq<byte>)
    requires DecodeFrame(crc, src).Frame?
    ensures var d := DecodeFrame(crc, src);
            && 16 <= d.size <= |src| && d.size == 8 + Word(src[0], src[1], src[2], src[3])
            && crc(src[8..d.size]) == Word(src[4], src[5], src[6], src[7])
            && Fits(d.rec) && src[..d.size] == EncodeFrame(crc, d.rec)
  {
    hide LittleEndian, FromLittleEndian, ToU64, FromU64, Pow256, Word;
    var d := DecodeFrame(crc, src);
    var payload := src[8..d.size];
    FourBytes(src[0..4]);
    FourBytes(src[4..8]);
    LittleEndianInverse(src[0..4]);
    LittleEndianInverse(src[4..8]);
    LittleEndianInverse(payload[0..8]);
    Powers();
    CastInverse(FromLittleEndian(payload[0..8]));
    assert Payload(d.rec) == payload[0..8] + payload[8..] == payload;
    assert src[..d.size] == src[0..4] + src[4..8] + payload;
  }

  /** The frames of the records read are the bytes consumed. */
  lemma {:induction false} ScannedIsEncoded(crc: Checksum, data: seq<byte>)
    ensures var s := Scan(crc, data); data[..s.consumed] == EncodeAll(crc, s.recs)
    decreases |data|
  {
    hide DecodeFrame, EncodeFrame;
    if data != [] && DecodeFrame(crc, data).Frame? {
      var d, s := DecodeFrame(crc, data), Scan(crc, data);
      DecodedIsEncoded(crc, data);
      ScanStep(crc, data);
      ScannedIsEncoded(crc, data[d.size..]);
      var rest := Scan(crc, data[d.size..]);
      assert s.recs[1..] == rest.recs;
      assert data[..s.consumed] == data[..d.size] + data[d.size..][..rest.consumed];
    }
  }
}
