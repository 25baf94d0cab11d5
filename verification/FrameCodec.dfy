/** The speaker-asset frames of USB (63 octets, zero padded) and Wi-Fi (exact length), and the 640-octet plan. */
module FrameCodec {
  import opened Options
  import opened Bytes
  import opened FlashStorage
  import opened BankFormat
  import opened Crc32

  const FRAME_MAGIC: seq<byte> := [0x45, 0x49, 0x41]
  const VERSION: byte := 1
  const FRAME_HEADER: nat := 24
  const USB_BYTES: nat := 63
  const USB_BODY: nat := 39
  const WIFI_MAX: nat := 125
  const WIFI_BODY: nat := 101
  const FLAG_RESPONSE: byte := 0x01
  const FLAG_ERROR: byte := 0x02
  const FLAG_ACK: byte := 0x04
  const KNOWN_FLAGS: byte := 0x3F

  datatype CodecError =
    | InvalidLength | InvalidMagic | UnsupportedVersion | InvalidFlags | InvalidRequestId | InvalidBodyLength
    | NonZeroPadding | CrcMismatch | InvalidPlan

  datatype Result<+T> = Ok(value: T) | Err(error: CodecError)

  datatype Frame = Frame(opcode: byte, flags: byte, requestId: bv32, cookie: bv32, offset: bv32, body: seq<byte>)

  predicate FlagsAreValid(flags: byte) {
    && flags & !KNOWN_FLAGS == 0
    && (flags & FLAG_ERROR != 0 ==> flags & FLAG_RESPONSE != 0)
    && (flags & FLAG_RESPONSE != 0 ==> flags & FLAG_ACK == 0)
  }

  function Refusal(f: Frame, maxBody: nat): Option<CodecError> {
    if f.requestId == 0 then Some(InvalidRequestId)
    else if |f.body| > maxBody then Some(InvalidBodyLength)
    else if !FlagsAreValid(f.flags) then Some(InvalidFlags)
    else None
  }

  /** The twenty octets before the checksum. */
  function Head(f: Frame): (r: seq<byte>)
    ensures |r| == 20
  {
    FRAME_MAGIC + [VERSION, f.opcode, f.flags] + LE(|f.body|, 2) + WordBytes(f.requestId) + WordBytes(f.cookie) + WordBytes(f.offset)
  }

  /** The checksum is taken over the whole frame with its own field zero. */
  function FrameCrc(head: seq<byte>, body: seq<byte>): bv32 {
    Crc(head + Fill(4, 0) + body)
  }

  function Exact(f: Frame): (r: seq<byte>)
    ensures |r| == FRAME_HEADER + |f.body|
  {
    Head(f) + WordBytes(FrameCrc(Head(f), f.body)) + f.body
  }

  function EncodeWifi(f: Frame): Result<seq<byte>> {
    match Refusal(f, WIFI_BODY)
    case Some(e) => Err(e)
    case None => Ok(Exact(f))
  }

  function EncodeUsb(f: Frame): (r: Result<seq<byte>>)
    ensures r.Ok? ==> |r.value| == USB_BYTES
  {
    match Refusal(f, USB_BODY)
    case Some(e) => Err(e)
    case None => Ok(Exact(f) + Fill(USB_BODY - |f.body|, 0))
  }

  /** The checks of decode_frame_prefix, in its order. */
  function Decode(s: seq<byte>, maxBody: nat, padded: bool): Result<Frame> {
    if |s| < FRAME_HEADER then Err(InvalidLength)
    else if s[..3] != FRAME_MAGIC then Err(InvalidMagic)
    else if s[3] != VERSION then Err(UnsupportedVersion)
    else if !FlagsAreValid(s[5]) then Err(InvalidFlags)
    else
      var n := FromLE(s[6..8]);
      if n > maxBody then Err(InvalidBodyLength)
      else if (!padded && |s| != FRAME_HEADER + n) || (padded && |s| < FRAME_HEADER + n) then Err(InvalidLength)
      else if padded && !All(s[FRAME_HEADER + n..], 0) then Err(NonZeroPadding)
      else if BytesWord(s[8..12]) == 0 then Err(InvalidRequestId)
      else
        var body := s[FRAME_HEADER..FRAME_HEADER + n];
        if FrameCrc(s[..20], body) != BytesWord(s[20..24]) then Err(CrcMismatch)
        else Ok(Frame(s[4], s[5], BytesWord(s[8..12]), BytesWord(s[12..16]), BytesWord(s[16..20]), body))
  }

  function DecodeWifi(s: seq<byte>): Result<Frame> {
    if |s| > WIFI_MAX then Err(InvalidLength) else Decode(s, WIFI_BODY, false)
  }

  function DecodeUsb(s: seq<byte>): Result<Frame> {
    if |s| != USB_BYTES then Err(InvalidLength) else Decode(s, USB_BODY, true)
  }

  // ---- round trips ----

  lemma HeadSlices(f: Frame)
    requires |f.body| <= WIFI_BODY
    ensures var h := Head(f);
            && h[..3] == FRAME_MAGIC && h[3] == VERSION && h[4] == f.opcode && h[5] == f.flags && FromLE(h[6..8]) == |f.body|
            && BytesWord(h[8..12]) == f.requestId && BytesWord(h[12..16]) == f.cookie && BytesWord(h[16..20]) == f.offset
  {
    hide LE, FromLE, WordBytes, BytesWord;
    var h := Head(f);
    Pow256Values();
    DecodeEncodeLE(|f.body|, 2);
    DecodeEncodeWord(f.requestId);
    DecodeEncodeWord(f.cookie);
    DecodeEncodeWord(f.offset);
    assert h[6..8] == LE(|f.body|, 2) && h[8..12] == WordBytes(f.requestId);
    assert h[12..16] == WordBytes(f.cookie);
    assert |h| == 20 && h[16..] == h[16..20] == WordBytes(f.offset);
  }

  lemma DecodeExact(f: Frame, maxBody: nat, pad: nat, padded: bool)
    requires maxBody <= WIFI_BODY && Refusal(f, maxBody).None? && (padded || pad == 0)
    ensures Decode(Exact(f) + Fill(pad, 0), maxBody, padded) == Ok(f)
  {
    hide LE, FromLE, WordBytes, BytesWord, FrameCrc, FlagsAreValid, Head;
    var s, h := Exact(f) + Fill(pad, 0), Head(f);
    HeadSlices(f);
    DecodeEncodeWord(FrameCrc(h, f.body));
    assert s[..20] == h && forall i, j :: 0 <= i <= j <= 20 ==> s[i..j] == h[i..j];
    assert s[..3] == h[..3] && s[3] == h[3] && s[4] == h[4] && s[5] == h[5];
    assert s[20..24] == WordBytes(FrameCrc(h, f.body)) && s[24..24 + |f.body|] == f.body;
    assert s[24 + |f.body|..] == Fill(pad, 0);
  }

  /** What one side encodes the other decodes, unchanged, over either transport. */
  lemma DecodeEncode(f: Frame)
    ensures EncodeWifi(f).Ok? ==> DecodeWifi(EncodeWifi(f).value) == Ok(f)
    ensures EncodeUsb(f).Ok? ==> DecodeUsb(EncodeUsb(f).value) == Ok(f)
  {
    hide Decode, Exact;
    if EncodeWifi(f).Ok? {
      DecodeExact(f, WIFI_BODY, 0, false);
      assert Exact(f) + Fill(0, 0) == Exact(f);
    }
    if EncodeUsb(f).Ok? { DecodeExact(f, USB_BODY, USB_BODY - |f.body|, true); }
  }

  lemma AcceptedIsExact(s: seq<byte>, maxBody: nat, padded: bool)
    requires Decode(s, maxBody, padded).Ok?
    ensures var f := Decode(s, maxBody, padded).value;
            && |f.body| == FromLE(s[6..8]) && FRAME_HEADER + |f.body| <= |s| && Refusal(f, maxBody).None?
            && s[..FRAME_HEADER + |f.body|] == Exact(f) && (!padded ==> |s| == FRAME_HEADER + |f.body|)
            && (padded ==> All(s[FRAME_HEADER + |f.body|..], 0))
  {
    hide LE, FromLE, WordBytes, BytesWord, FrameCrc, FlagsAreValid;
    var f := Decode(s, maxBody, padded).value;
    var n := |f.body|;
    EncodeDecodeLE(s[6..8]);
    EncodeDecodeWord(s[8..12]);
    EncodeDecodeWord(s[12..16]);
    EncodeDecodeWord(s[16..20]);
    EncodeDecodeWord(s[20..24]);
    assert s[..20] == s[..3] + [s[3], s[4], s[5]] + s[6..8] + s[8..12] + s[12..16] + s[16..20];
    assert s[..20] == Head(f);
    assert s[..FRAME_HEADER + n] == s[..20] + s[20..24] + s[24..FRAME_HEADER + n];
  }

  /** The encoding is canonical: no two octet strings decode to the same frame. */
  lemma EncodeDecode(s: seq<byte>)
    ensures DecodeWifi(s).Ok? ==> EncodeWifi(DecodeWifi(s).value) == Ok(s)
    ensures DecodeUsb(s).Ok? ==> EncodeUsb(DecodeUsb(s).value) == Ok(s)
  {
    hide Decode, Exact;
    if DecodeWifi(s).Ok? {
      AcceptedIsExact(s, WIFI_BODY, false);
      assert s[..|s|] == s;
    }
    if DecodeUsb(s).Ok? {
      AcceptedIsExact(s, USB_BODY, true);
      var n := FRAME_HEADER + |DecodeUsb(s).value.body|;
      assert s[n..] == Fill(|s| - n, 0);
      assert s == s[..n] + s[n..];
    }
  }

  // ---- damage ----

  /** Damage to one octet outside the length field cannot survive the checks, wherever it falls. */
  lemma DamageIsRejected(s: seq<byte>, i: nat, b: byte, maxBody: nat, padded: bool)
    requires Decode(s, maxBody, padded).Ok? && i < |s| && b != s[i] && i != 6 && i != 7
    ensures Decode(s[i := b], maxBody, padded).Err?
  {
    var t, n := s[i := b], FromLE(s[6..8]);
    assert t[6..8] == s[6..8];
    if i >= FRAME_HEADER + n {
      assert t[FRAME_HEADER + n..][i - FRAME_HEADER - n] == b && s[FRAME_HEADER + n..][i - FRAME_HEADER - n] == s[i];
    }
    if Decode(t, maxBody, padded).Ok? {
      if 20 <= i < 24 {
        ChecksumDamage(s, t, n, i);
      } else if i < FRAME_HEADER + n {
        ContentDamage(s, t, n, i);
      }
    }
  }

  lemma ChecksumDamage(s: seq<byte>, t: seq<byte>, n: nat, i: nat)
    requires |s| == |t| >= FRAME_HEADER + n && 20 <= i < 24 && t == s[i := t[i]] && t[i] != s[i]
    requires FrameCrc(s[..20], s[24..24 + n]) == BytesWord(s[20..24])
    ensures FrameCrc(t[..20], t[24..24 + n]) != BytesWord(t[20..24])
  {
    hide FrameCrc, BytesWord, WordBytes;
    assert t[..20] == s[..20] && t[24..24 + n] == s[24..24 + n];
    EncodeDecodeWord(s[20..24]);
    EncodeDecodeWord(t[20..24]);
    assert s[20..24][i - 20] != t[20..24][i - 20];
  }

  lemma ContentDamage(s: seq<byte>, t: seq<byte>, n: nat, i: nat)
    requires |s| == |t| >= FRAME_HEADER + n && (i < 20 || 24 <= i < FRAME_HEADER + n) && t == s[i := t[i]] && t[i] != s[i]
    requires FrameCrc(s[..20], s[24..24 + n]) == BytesWord(s[20..24])
    ensures FrameCrc(t[..20], t[24..24 + n]) != BytesWord(t[20..24])
  {
    hide Crc, BytesWord;
    var x, y := s[..20] + Fill(4, 0) + s[24..24 + n], t[..20] + Fill(4, 0) + t[24..24 + n];
    assert y == x[i := t[i]] && x[i] == s[i];
    assert t[20..24] == s[20..24];
    OneOctetChangeIsDetected(x, i, t[i]);
  }

  /** A Wi-Fi frame says its own length twice, so there even the length field is covered. */
  lemma WifiDamageIsRejected(s: seq<byte>, i: nat, b: byte)
    requires DecodeWifi(s).Ok? && i < |s| && b != s[i]
    ensures DecodeWifi(s[i := b]).Err?
  {
    hide FrameCrc, FlagsAreValid, BytesWord, FromLE, LE;
    if i == 6 || i == 7 {
      var t := s[i := b];
      EncodeDecodeLE(s[6..8]);
      EncodeDecodeLE(t[6..8]);
      assert s[6..8][i - 6] != t[6..8][i - 6];
    } else {
      DamageIsRejected(s, i, b, WIFI_BODY, false);
    }
  }

  /** A padded USB frame leaves a changed length to the checksum: it survives exactly if padding, bound and checksum happen to fit. */
  lemma UsbDamage(s: seq<byte>, i: nat, b: byte)
    requires DecodeUsb(s).Ok? && i < |s| && b != s[i]
    ensures i != 6 && i != 7 ==> DecodeUsb(s[i := b]).Err?
    ensures i == 6 || i == 7 ==>
      var t, n := s[i := b], FromLE(s[i := b][6..8]);
      DecodeUsb(t).Ok? <==> n <= USB_BODY && All(t[FRAME_HEADER + n..], 0)
                            && FrameCrc(t[..20], t[FRAME_HEADER..FRAME_HEADER + n]) == BytesWord(s[20..24])
  {
    if i == 6 || i == 7 {
      var t := s[i := b];
      assert t[..3] == s[..3] && t[8..12] == s[8..12] && t[20..24] == s[20..24];
    } else {
      DamageIsRejected(s, i, b, USB_BODY, true);
    }
  }

  // ---- the length field of a padded frame is the checksum's business alone ----

  lemma ByteStepIs(s: bv32, b: byte, r: bv32)
    requires BitStep(BitStep(BitStep(BitStep(BitStep(BitStep(BitStep(BitStep(s ^ (b as bv32))))))))) == r
    ensures ByteStep(s, b) == r
  {
    var x := s ^ (b as bv32);
    hide BitStep;
    assert BitSteps(x, 1) == BitStep(x);
    assert BitSteps(x, 2) == BitStep(BitStep(x));
    assert BitSteps(x, 3) == BitStep(BitSteps(x, 2));
    assert BitSteps(x, 4) == BitStep(BitSteps(x, 3));
    assert BitSteps(x, 5) == BitStep(BitSteps(x, 4));
    assert BitSteps(x, 6) == BitStep(BitSteps(x, 5));
    assert BitSteps(x, 7) == BitStep(BitSteps(x, 6));
    assert BitSteps(x, 8) == BitStep(BitSteps(x, 7));
  }

  lemma Absorbed(d: seq<byte>, i: nat, s: bv32, r: bv32)
    requires i < |d| && Absorb(0xFFFF_FFFF, d[..i]) == s && ByteStep(s, d[i]) == r
    ensures Absorb(0xFFFF_FFFF, d[..i + 1]) == r
  {
    hide ByteStep;
    assert d[..i + 1][..i] == d[..i];
  }

  /** An acknowledged BEGIN without a body, and the frame that one flipped bit of its length field turns it into. */
  const SHORT_FRAME := Frame(0x02, FLAG_ACK, 1, 0xE221_7AA6, 0, [])
  const LONG_FRAME := SHORT_FRAME.(body := [0])
  const SHORT_INPUT: seq<byte> := [0x45, 0x49, 0x41, 1, 0x02, 0x04, 0, 0, 1, 0, 0, 0, 0xA6, 0x7A, 0x21, 0xE2, 0, 0, 0, 0, 0, 0, 0, 0]
  const LONG_INPUT: seq<byte> := [0x45, 0x49, 0x41, 1, 0x02, 0x04, 1, 0, 1, 0, 0, 0, 0xA6, 0x7A, 0x21, 0xE2, 0, 0, 0, 0, 0, 0, 0, 0, 0]

  /** The register over what the two inputs have in common at either end. */
  lemma SharedSteps()
    ensures ByteStep(0xFFFFFFFF, 0x45) == 0x2B4BA56D
    ensures ByteStep(0x2B4BA56D, 0x49) == 0x3C28AF74
    ensures ByteStep(0x3C28AF74, 0x41) == 0x568FEC8C
    ensures ByteStep(0x568FEC8C, 0x01) == 0x935F7071
    ensures ByteStep(0x935F7071, 0x02) == 0xC99F7FF6
    ensures ByteStep(0xC99F7FF6, 0x04) == 0x537A0C4F
    ensures ByteStep(0x997FEC3D, 0x00) == 0x58F133FD
    ensures ByteStep(0x58F133FD, 0x00) == 0xC3547F92
    ensures ByteStep(0xC3547F92, 0x00) == 0x1EC2A617
    ensures ByteStep(0x1EC2A617, 0x00) == 0x83CD4761
    ensures ByteStep(0x83CD4761, 0x00) == 0x3A369C89
    ensures ByteStep(0x3A369C89, 0x00) == 0x945E0D18
    ensures ByteStep(0x945E0D18, 0x00) == 0x13F8C65B
    ensures ByteStep(0x13F8C65B, 0x00) == 0xFCAA70BA
  {
    ByteStepIs(0xFFFFFFFF, 0x45, 0x2B4BA56D);
    ByteStepIs(0x2B4BA56D, 0x49, 0x3C28AF74);
    ByteStepIs(0x3C28AF74, 0x41, 0x568FEC8C);
    ByteStepIs(0x568FEC8C, 0x01, 0x935F7071);
    ByteStepIs(0x935F7071, 0x02, 0xC99F7FF6);
    ByteStepIs(0xC99F7FF6, 0x04, 0x537A0C4F);
    ByteStepIs(0x997FEC3D, 0x00, 0x58F133FD);
    ByteStepIs(0x58F133FD, 0x00, 0xC3547F92);
    ByteStepIs(0xC3547F92, 0x00, 0x1EC2A617);
    ByteStepIs(0x1EC2A617, 0x00, 0x83CD4761);
    ByteStepIs(0x83CD4761, 0x00, 0x3A369C89);
    ByteStepIs(0x3A369C89, 0x00, 0x945E0D18);
    ByteStepIs(0x945E0D18, 0x00, 0x13F8C65B);
    ByteStepIs(0x13F8C65B, 0x00, 0xFCAA70BA);
  }

  lemma ShortSteps()
    ensures ByteStep(0x537A0C4F, 0x00) == 0xE630260D
    ensures ByteStep(0xE630260D, 0x00) == 0x7E574C9B
    ensures ByteStep(0x7E574C9B, 0x01) == 0x10A42D16
    ensures ByteStep(0x10A42D16, 0x00) == 0xF4C4117C
    ensures ByteStep(0xF4C4117C, 0x00) == 0x5947F906
    ensures ByteStep(0x5947F906, 0x00) == 0xE93AE2CC
    ensures ByteStep(0xE93AE2CC, 0xA6) == 0xAD8EB2A4
    ensures ByteStep(0xAD8EB2A4, 0x7A) == 0x61C67161
    ensures ByteStep(0x61C67161, 0x21) == 0x76BD87E1
    ensures ByteStep(0x76BD87E1, 0xE2) == 0x997FEC3D
  {
    ByteStepIs(0x537A0C4F, 0x00, 0xE630260D);
    ByteStepIs(0xE630260D, 0x00, 0x7E574C9B);
    ByteStepIs(0x7E574C9B, 0x01, 0x10A42D16);
    ByteStepIs(0x10A42D16, 0x00, 0xF4C4117C);
    ByteStepIs(0xF4C4117C, 0x00, 0x5947F906);
    ByteStepIs(0x5947F906, 0x00, 0xE93AE2CC);
    ByteStepIs(0xE93AE2CC, 0xA6, 0xAD8EB2A4);
    ByteStepIs(0xAD8EB2A4, 0x7A, 0x61C67161);
    ByteStepIs(0x61C67161, 0x21, 0x76BD87E1);
    ByteStepIs(0x76BD87E1, 0xE2, 0x997FEC3D);
  }

  lemma ShortInputCrc()
    ensures Crc(SHORT_INPUT) == 0x03558F45
  {
    hide Absorb, ByteStep;
    SharedSteps();
    ShortSteps();
    AbsorbNothing(0xFFFF_FFFF);
    assert SHORT_INPUT[..0] == [];
    Absorbed(SHORT_INPUT, 0, 0xFFFFFFFF, 0x2B4BA56D);
    Absorbed(SHORT_INPUT, 1, 0x2B4BA56D, 0x3C28AF74);
    Absorbed(SHORT_INPUT, 2, 0x3C28AF74, 0x568FEC8C);
    Absorbed(SHORT_INPUT, 3, 0x568FEC8C, 0x935F7071);
    Absorbed(SHORT_INPUT, 4, 0x935F7071, 0xC99F7FF6);
    Absorbed(SHORT_INPUT, 5, 0xC99F7FF6, 0x537A0C4F);
    Absorbed(SHORT_INPUT, 6, 0x537A0C4F, 0xE630260D);
    Absorbed(SHORT_INPUT, 7, 0xE630260D, 0x7E574C9B);
    Absorbed(SHORT_INPUT, 8, 0x7E574C9B, 0x10A42D16);
    Absorbed(SHORT_INPUT, 9, 0x10A42D16, 0xF4C4117C);
    Absorbed(SHORT_INPUT, 10, 0xF4C4117C, 0x5947F906);
    Absorbed(SHORT_INPUT, 11, 0x5947F906, 0xE93AE2CC);
    Absorbed(SHORT_INPUT, 12, 0xE93AE2CC, 0xAD8EB2A4);
    Absorbed(SHORT_INPUT, 13, 0xAD8EB2A4, 0x61C67161);
    Absorbed(SHORT_INPUT, 14, 0x61C67161, 0x76BD87E1);
    Absorbed(SHORT_INPUT, 15, 0x76BD87E1, 0x997FEC3D);
    Absorbed(SHORT_INPUT, 16, 0x997FEC3D, 0x58F133FD);
    Absorbed(SHORT_INPUT, 17, 0x58F133FD, 0xC3547F92);
    Absorbed(SHORT_INPUT, 18, 0xC3547F92, 0x1EC2A617);
    Absorbed(SHORT_INPUT, 19, 0x1EC2A617, 0x83CD4761);
    Absorbed(SHORT_INPUT, 20, 0x83CD4761, 0x3A369C89);
    Absorbed(SHORT_INPUT, 21, 0x3A369C89, 0x945E0D18);
    Absorbed(SHORT_INPUT, 22, 0x945E0D18, 0x13F8C65B);
    Absorbed(SHORT_INPUT, 23, 0x13F8C65B, 0xFCAA70BA);
    assert SHORT_INPUT[..24] == SHORT_INPUT;
  }

  lemma LongSteps()
    ensures ByteStep(0x537A0C4F, 0x01) == 0x9137169B
    ensures ByteStep(0x9137169B, 0x00) == 0x674C7DDA
    ensures ByteStep(0x674C7DDA, 0x01) == 0x11664721
    ensures ByteStep(0x11664721, 0x00) == 0x4C787619
    ensures ByteStep(0x4C787619, 0x00) == 0x6427D0B6
    ensures ByteStep(0x6427D0B6, 0x00) == 0x22663169
    ensures ByteStep(0x22663169, 0xA6) == 0x0BF9B910
    ensures ByteStep(0x0BF9B910, 0x7A) == 0xAD6C71FF
    ensures ByteStep(0xAD6C71FF, 0x21) == 0x61C693A2
    ensures ByteStep(0x61C693A2, 0xE2) == 0x76BD8703
    ensures ByteStep(0x76BD8703, 0x00) == 0x997FEC3D
  {
    ByteStepIs(0x537A0C4F, 0x01, 0x9137169B);
    ByteStepIs(0x9137169B, 0x00, 0x674C7DDA);
    ByteStepIs(0x674C7DDA, 0x01, 0x11664721);
    ByteStepIs(0x11664721, 0x00, 0x4C787619);
    ByteStepIs(0x4C787619, 0x00, 0x6427D0B6);
    ByteStepIs(0x6427D0B6, 0x00, 0x22663169);
    ByteStepIs(0x22663169, 0xA6, 0x0BF9B910);
    ByteStepIs(0x0BF9B910, 0x7A, 0xAD6C71FF);
    ByteStepIs(0xAD6C71FF, 0x21, 0x61C693A2);
    ByteStepIs(0x61C693A2, 0xE2, 0x76BD8703);
    ByteStepIs(0x76BD8703, 0x00, 0x997FEC3D);
  }

  lemma LongInputCrc()
    ensures Crc(LONG_INPUT) == 0x03558F45
  {
    hide Absorb, ByteStep;
    SharedSteps();
    LongSteps();
    AbsorbNothing(0xFFFF_FFFF);
    assert LONG_INPUT[..0] == [];
    Absorbed(LONG_INPUT, 0, 0xFFFFFFFF, 0x2B4BA56D);
    Absorbed(LONG_INPUT, 1, 0x2B4BA56D, 0x3C28AF74);
    Absorbed(LONG_INPUT, 2, 0x3C28AF74, 0x568FEC8C);
    Absorbed(LONG_INPUT, 3, 0x568FEC8C, 0x935F7071);
    Absorbed(LONG_INPUT, 4, 0x935F7071, 0xC99F7FF6);
    Absorbed(LONG_INPUT, 5, 0xC99F7FF6, 0x537A0C4F);
    Absorbed(LONG_INPUT, 6, 0x537A0C4F, 0x9137169B);
    Absorbed(LONG_INPUT, 7, 0x9137169B, 0x674C7DDA);
    Absorbed(LONG_INPUT, 8, 0x674C7DDA, 0x11664721);
    Absorbed(LONG_INPUT, 9, 0x11664721, 0x4C787619);
    Absorbed(LONG_INPUT, 10, 0x4C787619, 0x6427D0B6);
    Absorbed(LONG_INPUT, 11, 0x6427D0B6, 0x22663169);
    Absorbed(LONG_INPUT, 12, 0x22663169, 0x0BF9B910);
    Absorbed(LONG_INPUT, 13, 0x0BF9B910, 0xAD6C71FF);
    Absorbed(LONG_INPUT, 14, 0xAD6C71FF, 0x61C693A2);
    Absorbed(LONG_INPUT, 15, 0x61C693A2, 0x76BD8703);
    Absorbed(LONG_INPUT, 16, 0x76BD8703, 0x997FEC3D);
    Absorbed(LONG_INPUT, 17, 0x997FEC3D, 0x58F133FD);
    Absorbed(LONG_INPUT, 18, 0x58F133FD, 0xC3547F92);
    Absorbed(LONG_INPUT, 19, 0xC3547F92, 0x1EC2A617);
    Absorbed(LONG_INPUT, 20, 0x1EC2A617, 0x83CD4761);
    Absorbed(LONG_INPUT, 21, 0x83CD4761, 0x3A369C89);
    Absorbed(LONG_INPUT, 22, 0x3A369C89, 0x945E0D18);
    Absorbed(LONG_INPUT, 23, 0x945E0D18, 0x13F8C65B);
    Absorbed(LONG_INPUT, 24, 0x13F8C65B, 0xFCAA70BA);
    assert LONG_INPUT[..25] == LONG_INPUT;
  }

  lemma FixedWords()
    ensures WordBytes(1) == [1, 0, 0, 0] && WordBytes(0xE221_7AA6) == [0xA6, 0x7A, 0x21, 0xE2] && WordBytes(0) == [0, 0, 0, 0]
  {
  }

  lemma FixedLengths()
    ensures LE(0, 2) == [0, 0] && LE(1, 2) == [1, 0]
  {
    hide Octet, Value;
    SmallOctets();
    assert LE(0, 1) == [Octet(0)] + LE(0, 0);
    assert LE(0, 2) == [Octet(0)] + LE(0, 1);
    assert LE(1, 2) == [Octet(1)] + LE(0, 1);
  }

  lemma SmallOctets()
    ensures Octet(0) == 0 && Octet(1) == 1
  {
    assert Octet(1) == Octet(0) + 1;
  }

  lemma FlippedInputs()
    ensures Head(SHORT_FRAME) + Fill(4, 0) + [] == SHORT_INPUT && Head(LONG_FRAME) + Fill(4, 0) + [0] == LONG_INPUT
    ensures Head(SHORT_FRAME)[6 := 1] == Head(LONG_FRAME)
  {
    FixedHeads();
    hide Head, LE, WordBytes;
    assert Fill(4, 0) == [0, 0, 0, 0];
  }

  lemma FixedHeads()
    ensures Head(SHORT_FRAME) == SHORT_INPUT[..20] && Head(LONG_FRAME) == LONG_INPUT[..20]
  {
    hide LE, WordBytes;
    FixedWords();
    FixedLengths();
  }

  /** So one flipped bit of the length field can turn an accepted USB frame into another accepted one. */
  lemma LengthFlipCanSurvive()
    ensures EncodeUsb(SHORT_FRAME).Ok? && EncodeUsb(LONG_FRAME).Ok?
    ensures EncodeUsb(SHORT_FRAME).value[6 := 1] == EncodeUsb(LONG_FRAME).value
    ensures DecodeUsb(EncodeUsb(SHORT_FRAME).value[6 := 1]) == Ok(LONG_FRAME)
  {
    hide Head, WordBytes, Crc, DecodeUsb;
    ShortInputCrc();
    LongInputCrc();
    FlippedInputs();
    DecodeEncode(LONG_FRAME);
  }

  // ---- the plan that begins an update ----

  const PLAN_MAGIC: seq<byte> := [0x45, 0x49, 0x42, 0x50]
  const PLAN_BYTES: nat := 640

  function PlanBody(p: Plan): (r: seq<byte>)
    ensures |r| == 636
  {
    (PLAN_MAGIC + LE(1, 2) + LE(PLAN_BYTES, 2) + LE(p.baseGeneration, 8)) + p.baseBundle
    + (LE(p.manifestBytes, 4) + LE(p.payloadBytes, 4) + WordBytes(p.manifestCrc)) + p.manifestSha + p.bundleSha
    + WordsBytes(p.blockCrcs)
  }

  function EncodePlan(p: Plan): (r: Result<seq<byte>>)
    ensures r.Ok? ==> |r.value| == PLAN_BYTES
  {
    if !PlanIsValid(p) then Err(InvalidPlan) else Ok(PlanBody(p) + WordBytes(Crc(PlanBody(p))))
  }

  function PlanFieldsOf(s: seq<byte>): Plan
    requires |s| == PLAN_BYTES
  {
    Plan(U64(s[8..16]), s[16..48], U32(s[48..52]), U32(s[52..56]), BytesWord(s[56..60]), s[60..92], s[92..124], BytesWords(s[124..636]))
  }

  function DecodePlan(s: seq<byte>): (r: Result<Plan>)
    ensures r.Ok? ==> PlanIsValid(r.value)
  {
    if |s| != PLAN_BYTES then Err(InvalidLength)
    else if s[..4] != PLAN_MAGIC then Err(InvalidMagic)
    else if FromLE(s[4..6]) != 1 then Err(UnsupportedVersion)
    else if FromLE(s[6..8]) != PLAN_BYTES then Err(InvalidLength)
    else if Crc(s[..636]) != BytesWord(s[636..640]) then Err(CrcMismatch)
    else
      var p := PlanFieldsOf(s);
      if !PlanIsValid(p) then Err(InvalidPlan) else Ok(p)
  }

  lemma PlanSlices(p: Plan)
    ensures var b := PlanBody(p);
            && b[0..4] == PLAN_MAGIC && b[4..6] == LE(1, 2) && b[6..8] == LE(PLAN_BYTES, 2) && b[8..16] == LE(p.baseGeneration, 8)
            && b[16..48] == p.baseBundle && b[48..52] == LE(p.manifestBytes, 4) && b[52..56] == LE(p.payloadBytes, 4)
            && b[56..60] == WordBytes(p.manifestCrc) && b[60..92] == p.manifestSha && b[92..124] == p.bundleSha
            && b[124..636] == WordsBytes(p.blockCrcs)
  {
    hide LE, WordBytes, WordsBytes;
    var b := PlanBody(p);
    var x := PLAN_MAGIC + LE(1, 2) + LE(PLAN_BYTES, 2) + LE(p.baseGeneration, 8);
    var y := LE(p.manifestBytes, 4) + LE(p.payloadBytes, 4) + WordBytes(p.manifestCrc);
    var w := WordsBytes(p.blockCrcs);
    assert |w| == 512;
    assert b == x + p.baseBundle + y + p.manifestSha + p.bundleSha + w;
    assert b[0..16] == x && b[48..60] == y && b[124..636] == w;
    assert b[0..4] == x[0..4] && b[4..6] == x[4..6] && b[6..8] == x[6..8] && b[8..16] == x[8..16];
    assert b[48..52] == y[0..4] && b[52..56] == y[4..8] && b[56..60] == y[8..12];
  }

  lemma DecodeEncodePlan(p: Plan)
    requires PlanIsValid(p)
    ensures EncodePlan(p).Ok? && DecodePlan(EncodePlan(p).value) == Ok(p)
  {
    hide LE, FromLE, WordBytes, BytesWord, WordsBytes, BytesWords, Crc, PlanBody, Pow256, PlanIsValid;
    var b := PlanBody(p);
    var s := EncodePlan(p).value;
    Pow256Values();
    PlanSlices(p);
    DecodeEncodeLE(1, 2);
    DecodeEncodeLE(PLAN_BYTES, 2);
    DecodeEncodeLE(p.baseGeneration, 8);
    DecodeEncodeLE(p.manifestBytes, 4);
    DecodeEncodeLE(p.payloadBytes, 4);
    DecodeEncodeWord(p.manifestCrc);
    DecodeEncodeWord(Crc(b));
    DecodeEncodeWords(p.blockCrcs);
    assert s[..636] == b && s[636..640] == WordBytes(Crc(b));
    assert forall i, j :: 0 <= i <= j <= 636 ==> s[i..j] == b[i..j];
    assert s[..4] == b[0..4];
  }

  lemma {:induction false} EncodeDecodeWords(s: seq<byte>)
    requires |s| % 4 == 0
    ensures WordsBytes(BytesWords(s)) == s
  {
    hide WordBytes, BytesWord;
    if s != [] {
      EncodeDecodeWord(s[..4]);
      EncodeDecodeWords(s[4..]);
    }
  }

  /** Every accepted plan is the one encoding of what it decodes to. */
  lemma EncodeDecodePlan(s: seq<byte>)
    requires DecodePlan(s).Ok?
    ensures EncodePlan(DecodePlan(s).value) == Ok(s)
  {
    hide LE, FromLE, WordBytes, BytesWord, WordsBytes, BytesWords, Crc, Pow256, PlanIsValid;
    var p := DecodePlan(s).value;
    EncodeDecodeLE(s[4..6]);
    EncodeDecodeLE(s[6..8]);
    EncodeDecodeLE(s[8..16]);
    EncodeDecodeLE(s[48..52]);
    EncodeDecodeLE(s[52..56]);
    EncodeDecodeWord(s[56..60]);
    EncodeDecodeWord(s[636..640]);
    EncodeDecodeWords(s[124..636]);
    assert s[..16] == s[..4] + s[4..6] + s[6..8] + s[8..16];
    assert s[48..60] == s[48..52] + s[52..56] + s[56..60];
    assert s[..636] == s[..16] + s[16..48] + s[48..60] + s[60..92] + s[92..124] + s[124..636];
    assert s[..636] == PlanBody(p);
    assert s == s[..636] + s[636..640];
  }

  lemma PlanDamageIsRejected(s: seq<byte>, i: nat, b: byte)
    requires DecodePlan(s).Ok? && i < |s| && b != s[i]
    ensures DecodePlan(s[i := b]).Err?
  {
    hide Crc, BytesWord, WordBytes, PlanIsValid, PlanFieldsOf, FromLE;
    var t := s[i := b];
    if i < 636 {
      assert t[..636] == s[..636][i := b] && t[636..640] == s[636..640];
      OneOctetChangeIsDetected(s[..636], i, b);
    } else {
      assert t[..636] == s[..636] && s[636..640][i - 636] != t[636..640][i - 636];
      EncodeDecodeWord(s[636..640]);
      EncodeDecodeWord(t[636..640]);
    }
  }
}
