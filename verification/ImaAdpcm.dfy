/** EIAD audio: 4-bit ADPCM in frames of up to 480 samples, decoded at once or streamed one frame at a time. */
module ImaAdpcm {
  import opened Bytes

  const ASSET_HEADER: nat := 20
  const FRAME_HEADER: nat := 6
  const FRAME_SAMPLES: nat := 480
  const SAMPLE_RATE: nat := 48000
  const STEP_COUNT: nat := 89
  const MAX_STREAM_BYTES: nat := 4 * 1024 * 1024
  const MAX_STREAM_SAMPLES: nat := SAMPLE_RATE * 150
  const ASSET_MAGIC: seq<byte> := [0x45, 0x49, 0x41, 0x44]

  const STEPS: seq<int> :=
    [7, 8, 9, 10, 11, 12, 13, 14, 16, 17, 19, 21, 23, 25, 28, 31, 34, 37, 41, 45, 50, 55, 60, 66, 73, 80, 88, 97, 107, 118, 130,
     143, 157, 173, 190, 209, 230, 253, 279, 307, 337, 371, 408, 449, 494, 544, 598, 658, 724, 796, 876, 963, 1060, 1166, 1282,
     1411, 1552, 1707, 1878, 2066, 2272, 2499, 2749, 3024, 3327, 3660, 4026, 4428, 4871, 5358, 5894, 6484, 7132, 7845, 8630, 9493,
     10442, 11487, 12635, 13899, 15289, 16818, 18500, 20350, 22385, 24623, 27086, 29794, 32767]

  function IndexDelta(code: nat): int {
    var low := code % 8;
    if low < 4 then -1 else 2 * (low - 3)
  }

  // ---- one nibble, one frame ----

  datatype Coder = Coder(predictor: int, index: int) {
    predicate InRange() {
      -32768 <= predictor <= 32767 && 0 <= index < STEP_COUNT
    }
  }

  function Clamp(v: int, lo: int, hi: int): int {
    if v < lo then lo else if v > hi then hi else v
  }

  function DecodeNibble(code: nat, c: Coder): (r: Coder)
    requires code < 16 && c.InRange()
    ensures r.InRange()
  {
    var step := STEPS[c.index];
    var difference := step / 8 + (if code % 2 == 1 then step / 4 else 0) + (if code / 2 % 2 == 1 then step / 2 else 0)
                      + (if code / 4 % 2 == 1 then step else 0);
    Coder(Clamp(if code / 8 == 1 then c.predictor - difference else c.predictor + difference, -32768, 32767),
          Clamp(c.index + IndexDelta(code), 0, STEP_COUNT - 1))
  }

  /** Low nibble first. */
  function Nibble(payload: seq<byte>, k: nat): (code: nat)
    requires k / 2 < |payload|
    ensures code < 16
  {
    if k % 2 == 0 then Value(payload[k / 2]) % 16 else Value(payload[k / 2]) / 16
  }

  function CoderAfter(payload: seq<byte>, k: nat, start: Coder): (c: Coder)
    requires start.InRange() && (k + 1) / 2 <= |payload|
    ensures c.InRange()
  {
    if k == 0 then start else DecodeNibble(Nibble(payload, k - 1), CoderAfter(payload, k - 1, start))
  }

  function Signed16(v: nat): int
    requires v < 0x1_0000
  {
    if v < 0x8000 then v else v - 0x1_0000
  }

  function U16At(s: seq<byte>, off: nat): (v: nat)
    requires off + 2 <= |s|
    ensures v < 0x1_0000
  {
    EncodeDecodeLE(s[off..off + 2]);
    Pow256Values();
    FromLE(s[off..off + 2])
  }

  function PayloadBytes(samples: nat): nat {
    samples / 2
  }

  function FrameBytes(samples: nat): nat {
    FRAME_HEADER + PayloadBytes(samples)
  }

  /** A frame of exactly `n` samples lies at `off`: counts, step index, reserved octet and the unused last nibble all fit. */
  predicate FrameAt(s: seq<byte>, off: nat, n: nat) {
    && 0 < n <= FRAME_SAMPLES && off + FrameBytes(n) <= |s|
    && U16At(s, off) == n && Value(s[off + 4]) < STEP_COUNT && s[off + 5] == 0
    && (n % 2 == 0 ==> Value(s[off + FrameBytes(n) - 1]) / 16 == 0)
  }

  function FrameStart(s: seq<byte>, off: nat): (c: Coder)
    requires off + FRAME_HEADER <= |s| && Value(s[off + 4]) < STEP_COUNT
    ensures c.InRange()
  {
    Coder(Signed16(U16At(s, off + 2)), Value(s[off + 4]))
  }

  /** The samples of the frame at `off`. */
  function FramePcm(s: seq<byte>, off: nat, n: nat): (pcm: seq<int>)
    requires FrameAt(s, off, n)
    ensures |pcm| == n
  {
    Samples(s[off + FRAME_HEADER..off + FrameBytes(n)], n, FrameStart(s, off))
  }

  function Samples(payload: seq<byte>, n: nat, start: Coder): (pcm: seq<int>)
    requires start.InRange() && PayloadBytes(n) <= |payload|
    ensures |pcm| == n
  {
    seq(n, i requires 0 <= i < n => CoderAfter(payload, i, start).predictor)
  }

  // ---- whole assets ----

  /** From `off` on there are `frames` frames with `samples` samples in all, every frame but the last full, and nothing after. */
  predicate FramesFrom(s: seq<byte>, off: nat, frames: nat, samples: nat)
    decreases frames
  {
    if frames == 0 then samples == 0 && off == |s|
    else
      var n := Min(samples, FRAME_SAMPLES);
      FrameAt(s, off, n) && FramesFrom(s, off + FrameBytes(n), frames - 1, samples - n)
  }

  function PcmFrom(s: seq<byte>, off: nat, frames: nat, samples: nat): seq<int>
    requires FramesFrom(s, off, frames, samples)
    decreases frames
  {
    if frames == 0 then []
    else
      var n := Min(samples, FRAME_SAMPLES);
      FramePcm(s, off, n) + PcmFrom(s, off + FrameBytes(n), frames - 1, samples - n)
  }

  predicate HeaderOk(s: seq<byte>) {
    && |s| >= ASSET_HEADER && s[..4] == ASSET_MAGIC && s[4] == 1 && s[5] == 1
    && FromLE(s[6..10]) == SAMPLE_RATE && U16At(s, 10) == FRAME_SAMPLES && U16At(s, 18) == ASSET_HEADER
    && U16At(s, 12) != 0 && FromLE(s[14..18]) != 0
  }

  function FrameCountOf(s: seq<byte>): nat
    requires |s| >= ASSET_HEADER
  {
    U16At(s, 12)
  }

  function SampleCountOf(s: seq<byte>): nat
    requires |s| >= ASSET_HEADER
  {
    FromLE(s[14..18])
  }

  predicate AssetOk(s: seq<byte>) {
    HeaderOk(s) && FramesFrom(s, ASSET_HEADER, FrameCountOf(s), SampleCountOf(s))
  }

  /** One-shot decoding. */
  function Pcm(s: seq<byte>): seq<int>
    requires AssetOk(s)
  {
    PcmFrom(s, ASSET_HEADER, FrameCountOf(s), SampleCountOf(s))
  }

  lemma {:induction false} FramesAreJustEnough(s: seq<byte>, off: nat, frames: nat, samples: nat)
    requires FramesFrom(s, off, frames, samples)
    ensures samples <= FRAME_SAMPLES * frames && (frames > 0 ==> samples > FRAME_SAMPLES * (frames - 1))
    decreases frames
  {
    hide FrameAt;
    if frames > 0 {
      var n := Min(samples, FRAME_SAMPLES);
      assert 0 < n by { FrameIsNotEmpty(s, off, n); }
      FramesAreJustEnough(s, off + FrameBytes(n), frames - 1, samples - n);
    }
  }

  lemma FrameIsNotEmpty(s: seq<byte>, off: nat, n: nat)
    requires FrameAt(s, off, n)
    ensures 0 < n
  {
  }

  lemma {:induction false} PcmIsWhole(s: seq<byte>, off: nat, frames: nat, samples: nat)
    requires FramesFrom(s, off, frames, samples)
    ensures |PcmFrom(s, off, frames, samples)| == samples
    ensures forall i :: 0 <= i < samples ==> -32768 <= PcmFrom(s, off, frames, samples)[i] <= 32767
    decreases frames
  {
    hide FrameAt, FramePcm;
    if frames > 0 {
      var n := Min(samples, FRAME_SAMPLES);
      PcmIsWhole(s, off + FrameBytes(n), frames - 1, samples - n);
      InRangePcm(s, off, n);
    }
  }

  lemma InRangePcm(s: seq<byte>, off: nat, n: nat)
    requires FrameAt(s, off, n)
    ensures forall i :: 0 <= i < n ==> -32768 <= FramePcm(s, off, n)[i] <= 32767
  {
    var payload := s[off + FRAME_HEADER..off + FrameBytes(n)];
    forall i | 0 <= i < n ensures -32768 <= FramePcm(s, off, n)[i] <= 32767 {
      assert CoderAfter(payload, i, FrameStart(s, off)).InRange();
    }
  }

  /** An accepted asset decodes to exactly the declared samples, in as many frames as they need. */
  lemma AssetTotals(s: seq<byte>)
    requires AssetOk(s)
    ensures |Pcm(s)| == SampleCountOf(s) && FrameCountOf(s) == 1 + (SampleCountOf(s) - 1) / FRAME_SAMPLES
    ensures forall i :: 0 <= i < |Pcm(s)| ==> -32768 <= Pcm(s)[i] <= 32767
  {
    FramesAreJustEnough(s, ASSET_HEADER, FrameCountOf(s), SampleCountOf(s));
    PcmIsWhole(s, ASSET_HEADER, FrameCountOf(s), SampleCountOf(s));
  }

  /** Decode one frame into the caller's buffer, nibble by nibble. */
  method DecodeFrame(s: seq<byte>, off: nat, n: nat, output: array<int>)
    requires FrameAt(s, off, n) && n <= output.Length
    modifies output
    ensures output[..n] == FramePcm(s, off, n) && output[n..] == old(output[n..])
  {
    DecodeSamples(s[off + FRAME_HEADER..off + FrameBytes(n)], n, FrameStart(s, off), output);
  }

  method DecodeSamples(payload: seq<byte>, n: nat, start: Coder, output: array<int>)
    requires start.InRange() && PayloadBytes(n) <= |payload| && 0 < n <= output.Length
    modifies output
    ensures output[..n] == Samples(payload, n, start) && output[n..] == old(output[n..])
  {
    hide DecodeNibble, Nibble;
    var c := start;
    output[0] := c.predictor;
    for i := 1 to n
      invariant c == CoderAfter(payload, i - 1, start)
      invariant forall j :: 0 <= j < i ==> output[j] == CoderAfter(payload, j, start).predictor
      invariant forall j :: n <= j < output.Length ==> output[j] == old(output[j])
    {
      c := DecodeNibble(Nibble(payload, i - 1), c);
      output[i] := c.predictor;
    }
  }

  // ---- one-shot validation ----

  /** Accepting the next frame as it declares itself changes nothing about whether the rest adds up. */
  lemma NextFrame(s: seq<byte>, off: nat, frames: nat, samples: nat, count: nat)
    requires frames > 0 && FrameAt(s, off, count) && (frames > 1 ==> count == FRAME_SAMPLES)
    ensures FramesFrom(s, off, frames, samples) <==>
            count <= samples && FramesFrom(s, off + FrameBytes(count), frames - 1, samples - count)
  {
    if FramesFrom(s, off, frames, samples) {
      assert U16At(s, off) == Min(samples, FRAME_SAMPLES);
    }
  }

  /** A frame that fails the checks spoils the asset, whatever the totals say. */
  lemma BadFrame(s: seq<byte>, off: nat, frames: nat, samples: nat)
    requires frames > 0
    requires off + 2 > |s| || !FrameAt(s, off, U16At(s, off)) || (frames > 1 && U16At(s, off) != FRAME_SAMPLES)
    ensures !FramesFrom(s, off, frames, samples)
  {
    if FramesFrom(s, off, frames, samples) {
      FramesAreJustEnough(s, off, frames, samples);
    }
  }

  /** The checks on one frame, in the decoder's order. */
  method CheckFrame(s: seq<byte>, off: nat, last: bool) returns (ok: bool, count: nat)
    ensures ok <==> off + 2 <= |s| && FrameAt(s, off, U16At(s, off)) && (!last ==> U16At(s, off) == FRAME_SAMPLES)
    ensures ok ==> count == U16At(s, off)
  {
    ok, count := false, 0;
    if off + FRAME_HEADER > |s| { return; }
    count := U16At(s, off);
    if count == 0 || count > FRAME_SAMPLES || (!last && count != FRAME_SAMPLES) || Value(s[off + 4]) >= STEP_COUNT || s[off + 5] != 0 {
      return;
    }
    if off + FrameBytes(count) > |s| { return; }
    if count % 2 == 0 && PayloadBytes(count) != 0 && Value(s[off + FrameBytes(count) - 1]) / 16 != 0 { return; }
    ok := true;
  }

  /** What is still to be read adds up to what is still owed. */
  predicate AddsUp(s: seq<byte>, off: nat, frames: nat, observed: nat, total: nat) {
    observed <= total && FramesFrom(s, off, frames, total - observed)
  }

  lemma NextAddsUp(s: seq<byte>, off: nat, frames: nat, observed: nat, total: nat, count: nat)
    requires frames > 0 && FrameAt(s, off, count) && (frames > 1 ==> count == FRAME_SAMPLES)
    ensures AddsUp(s, off, frames, observed, total) <==> AddsUp(s, off + FrameBytes(count), frames - 1, observed + count, total)
  {
    hide FrameAt, FramesFrom;
    if observed <= total { NextFrame(s, off, frames, total - observed, count); }
  }

  lemma BadNeverAddsUp(s: seq<byte>, off: nat, frames: nat, observed: nat, total: nat)
    requires frames > 0
    requires off + 2 > |s| || !FrameAt(s, off, U16At(s, off)) || (frames > 1 && U16At(s, off) != FRAME_SAMPLES)
    ensures !AddsUp(s, off, frames, observed, total)
  {
    hide FrameAt, FramesFrom;
    if observed <= total { BadFrame(s, off, frames, total - observed); }
  }

  /** ImaAdpcmDecoder's open: accepts exactly the well-formed assets. */
  method OpenOneShot(s: seq<byte>) returns (ok: bool)
    ensures ok <==> AssetOk(s)
  {
    hide FrameAt, HeaderOk, AssetOk, AddsUp, U16At, FrameCountOf, SampleCountOf;
    AssetStart(s);
    if !HeaderOk(s) { return false; }
    var frames, total := FrameCountOf(s), SampleCountOf(s);
    var off: nat, observed: nat := ASSET_HEADER, 0;
    for i := 0 to frames
      invariant AssetOk(s) <==> AddsUp(s, off, frames - i, observed, total)
    {
      var good, count := CheckFrame(s, off, i + 1 == frames);
      if !good {
        BadNeverAddsUp(s, off, frames - i, observed, total);
        return false;
      }
      NextAddsUp(s, off, frames - i, observed, total, count);
      off, observed := off + FrameBytes(count), observed + count;
    }
    NothingMoreAddsUp(s, off, observed, total);
    ok := off == |s| && observed == total;
  }

  lemma AssetStart(s: seq<byte>)
    ensures AssetOk(s) ==> HeaderOk(s)
    ensures HeaderOk(s) ==> |s| >= ASSET_HEADER && (AssetOk(s) <==> AddsUp(s, ASSET_HEADER, FrameCountOf(s), 0, SampleCountOf(s)))
  {
    hide FramesFrom;
  }

  lemma NothingMoreAddsUp(s: seq<byte>, off: nat, observed: nat, total: nat)
    ensures AddsUp(s, off, 0, observed, total) <==> off == |s| && observed == total
  {
  }

  // ---- streaming ----

  datatype Read = ReadOk | NotYet | Failed

  datatype StreamResult = StreamOk | End | InvalidResource | OutputTooSmall | NotReady | IoError

  function Refused(r: Read): StreamResult {
    if r.NotYet? then NotReady else IoError
  }

  predicate OpensForStreaming(s: seq<byte>) {
    && HeaderOk(s) && |s| <= MAX_STREAM_BYTES && SampleCountOf(s) <= MAX_STREAM_SAMPLES
    && FrameCountOf(s) == 1 + (SampleCountOf(s) - 1) / FRAME_SAMPLES
  }

  lemma StreamingHeader(s: seq<byte>)
    requires OpensForStreaming(s)
    ensures |s| >= ASSET_HEADER && HeaderOk(s)
  {
  }

  class StreamDecoder {
    const s: seq<byte>
    var nextOffset: nat
    var decoded: nat
    var nextFrame: nat

    ghost var emitted: seq<int>

    /** What is still to come decides validity, and what was emitted is the one-shot decoding so far. */
    ghost predicate Inv()
      reads this
    {
      && OpensForStreaming(s) && nextFrame <= FrameCountOf(s) && decoded <= SampleCountOf(s)
      && var (frames, samples) := (FrameCountOf(s) - nextFrame, SampleCountOf(s) - decoded);
         && (AssetOk(s) <==> FramesFrom(s, nextOffset, frames, samples))
         && (AssetOk(s) ==> emitted + PcmFrom(s, nextOffset, frames, samples) == Pcm(s))
    }

    constructor (s: seq<byte>)
      requires OpensForStreaming(s)
      ensures Inv() && this.s == s && emitted == []
    {
      hide FramesFrom, PcmFrom, HeaderOk;
      this.s := s;
      nextOffset, decoded, nextFrame, emitted := ASSET_HEADER, 0, 0, [];
      new;
      StreamingHeader(s);
      if AssetOk(s) { assert [] + Pcm(s) == Pcm(s); }
    }

    method Reset()
      requires Inv()
      modifies this
      ensures Inv() && emitted == [] && decoded == 0 && nextFrame == 0
    {
      hide FramesFrom, PcmFrom, HeaderOk;
      StreamingHeader(s);
      nextOffset, decoded, nextFrame, emitted := ASSET_HEADER, 0, 0, [];
      if AssetOk(s) { assert [] + Pcm(s) == Pcm(s); }
    }

    /** One frame, or no change at all. `header` and `payload` are what the two reads of the source answer. */
    method DecodeNext(output: array<int>, header: Read, payload: Read) returns (r: StreamResult, n: nat)
      requires Inv()
      modifies this, output
      ensures Inv()
      ensures !r.StreamOk? ==> unchanged(this) && n == 0 && output[..] == old(output[..])
      ensures r.StreamOk? ==> n <= output.Length && emitted == old(emitted) + output[..n] && decoded == old(decoded) + n && n > 0
      // The end is reported exactly after the last sample of a well-formed asset.
      ensures r.End? <==> AssetOk(s) && decoded == SampleCountOf(s) && old(nextFrame) == FrameCountOf(s)
      ensures r.End? ==> emitted == Pcm(s)
      // A well-formed asset only ever waits for its source or for room.
      ensures AssetOk(s) && nextFrame < FrameCountOf(s) && output.Length >= FRAME_SAMPLES && header.ReadOk? && payload.ReadOk? ==> r.StreamOk?
      ensures AssetOk(s) ==> !r.InvalidResource?
    {
      hide FrameAt, FramesFrom, PcmFrom, AssetOk, OpensForStreaming, Pcm;
      n := 0;
      Totals();
      assert |s| >= ASSET_HEADER;
      var (frames, samples) := (FrameCountOf(s) - nextFrame, SampleCountOf(s) - decoded);
      NothingLeft(s, nextOffset, samples);
      if frames == 0 { return if samples == 0 && nextOffset == |s| then End else InvalidResource, 0; }
      Unfolded(s, nextOffset, frames, samples);
      if output.Length < FRAME_SAMPLES { return OutputTooSmall, 0; }
      if samples == 0 || nextOffset + FRAME_HEADER > |s| { return InvalidResource, 0; }
      if !header.ReadOk? { return Refused(header), 0; }
      var count := Min(samples, FRAME_SAMPLES);
      r := CheckStreamFrame(count, frames == 1, samples, payload);
      if !r.StreamOk? { return; }
      ghost var off := nextOffset;
      if AssetOk(s) { PcmStep(s, off, frames, samples, emitted); }
      DecodeFrame(s, nextOffset, count, output);
      n := count;
      emitted := emitted + output[..n];
      nextOffset, decoded, nextFrame := nextOffset + FrameBytes(n), decoded + n, nextFrame + 1;
    }

    /** The checks on the frame at hand, with the payload read between them. */
    method CheckStreamFrame(count: nat, final: bool, samples: nat, payload: Read) returns (r: StreamResult)
      requires 0 < count <= FRAME_SAMPLES && count <= samples && nextOffset + FRAME_HEADER <= |s|
      ensures r.StreamOk? ==> FrameAt(s, nextOffset, count)
      ensures r.StreamOk? && final ==> nextOffset + FrameBytes(count) == |s| && count == samples
      ensures r.StreamOk? || r.InvalidResource? || (!payload.ReadOk? && r == Refused(payload))
      ensures r.InvalidResource? && FrameAt(s, nextOffset, count) ==>
        if final then nextOffset + FrameBytes(count) != |s| || count != samples
        else nextOffset + FrameBytes(count) >= |s| || count >= samples
    {
      if U16At(s, nextOffset) != count || Value(s[nextOffset + 4]) >= STEP_COUNT || s[nextOffset + 5] != 0
         || nextOffset + FrameBytes(count) > |s| {
        return InvalidResource;
      }
      if PayloadBytes(count) != 0 && !payload.ReadOk? { return Refused(payload); }
      if count % 2 == 0 && Value(s[nextOffset + FrameBytes(count) - 1]) / 16 != 0 { return InvalidResource; }
      var next := nextOffset + FrameBytes(count);
      if (final && (next != |s| || count != samples)) || (!final && (next >= |s| || count >= samples)) { return InvalidResource; }
      r := StreamOk;
    }

    lemma Totals()
      requires Inv()
      ensures |s| >= ASSET_HEADER
    {
    }
  }

  lemma NothingLeft(s: seq<byte>, off: nat, samples: nat)
    ensures FramesFrom(s, off, 0, samples) <==> samples == 0 && off == |s|
    ensures FramesFrom(s, off, 0, samples) ==> PcmFrom(s, off, 0, samples) == []
  {
  }

  /** What the checks on the next frame decide about everything that is left. */
  lemma Unfolded(s: seq<byte>, off: nat, frames: nat, samples: nat)
    requires frames > 0
    ensures var n := Min(samples, FRAME_SAMPLES);
            && (FramesFrom(s, off, frames, samples) <==> FrameAt(s, off, n) && FramesFrom(s, off + FrameBytes(n), frames - 1, samples - n))
            && (FramesFrom(s, off, frames, samples) ==> samples > 0 && off + FRAME_HEADER <= |s|)
            && (FramesFrom(s, off, frames, samples) && frames == 1 ==> off + FrameBytes(n) == |s| && n == samples)
            && (FramesFrom(s, off, frames, samples) && frames > 1 ==> off + FrameBytes(n) < |s| && n < samples)
  {
    if FramesFrom(s, off, frames, samples) { FramesAreJustEnough(s, off, frames, samples); }
  }

  lemma PcmStep(s: seq<byte>, off: nat, frames: nat, samples: nat, emitted: seq<int>)
    requires frames > 0 && FramesFrom(s, off, frames, samples)
    ensures var n := Min(samples, FRAME_SAMPLES);
            && FrameAt(s, off, n) && FramesFrom(s, off + FrameBytes(n), frames - 1, samples - n)
            && emitted + PcmFrom(s, off, frames, samples)
               == emitted + FramePcm(s, off, n) + PcmFrom(s, off + FrameBytes(n), frames - 1, samples - n)
  {
  }

  // ---- the reference asset builder ----

  /** Frames of silence: declared counts, a seeded predictor and step index, and zero nibbles. */
  function BuiltFrames(samples: nat, index: nat, seed: nat): seq<byte>
    decreases samples
  {
    if samples == 0 then []
    else
      var n := Min(samples, FRAME_SAMPLES);
      BuiltFrame(n, index, seed) + BuiltFrames(samples - n, index + 1, seed)
  }

  function BuiltFrame(n: nat, index: nat, seed: nat): (f: seq<byte>)
    requires n <= FRAME_SAMPLES
    ensures |f| == FrameBytes(n)
  {
    LE(n, 2) + LE(seed + index, 2) + [Octet((seed + index) % STEP_COUNT), 0] + Fill(PayloadBytes(n), 0)
  }

  function FrameTotal(samples: nat): nat {
    if samples == 0 then 0 else 1 + (samples - 1) / FRAME_SAMPLES
  }

  function BuiltAsset(samples: nat, seed: nat): seq<byte> {
    ASSET_MAGIC + [1, 1] + LE(SAMPLE_RATE, 4) + LE(FRAME_SAMPLES, 2) + LE(FrameTotal(samples), 2) + LE(samples, 4) + LE(ASSET_HEADER, 2)
    + BuiltFrames(samples, 0, seed)
  }

  /** make_eiad_asset: append frame after frame. */
  method BuildAsset(samples: nat, seed: nat) returns (s: seq<byte>)
    requires samples > 0
    ensures s == BuiltAsset(samples, seed)
  {
    s := ASSET_MAGIC + [1, 1] + LE(SAMPLE_RATE, 4) + LE(FRAME_SAMPLES, 2) + LE(FrameTotal(samples), 2) + LE(samples, 4) + LE(ASSET_HEADER, 2);
    var remaining, index := samples, 0;
    assert BuiltAsset(samples, seed) == s + BuiltFrames(samples, 0, seed);
    while remaining > 0
      invariant BuiltAsset(samples, seed) == s + BuiltFrames(remaining, index, seed)
    {
      hide BuiltAsset, BuiltFrame;
      var n := Min(remaining, FRAME_SAMPLES);
      s, remaining, index := s + BuiltFrame(n, index, seed), remaining - n, index + 1;
    }
  }

  lemma {:induction false} BuiltFramesFit(prefix: seq<byte>, samples: nat, index: nat, seed: nat)
    ensures FramesFrom(prefix + BuiltFrames(samples, index, seed), |prefix|, FrameTotal(samples), samples)
    decreases samples
  {
    hide BuiltFrame, FrameAt, FramesFrom, FrameTotal;
    FrameTotalStep(samples);
    if samples == 0 {
      assert prefix + [] == prefix;
      NothingLeft(prefix, |prefix|, 0);
    } else {
      var n := Min(samples, FRAME_SAMPLES);
      var f, rest := BuiltFrame(n, index, seed), BuiltFrames(samples - n, index + 1, seed);
      BuiltFramesFit(prefix + f, samples - n, index + 1, seed);
      assert prefix + BuiltFrames(samples, index, seed) == prefix + f + rest;
      BuiltFrameFits(prefix, n, index, seed, rest);
      Unfolded(prefix + f + rest, |prefix|, FrameTotal(samples), samples);
    }
  }

  lemma FrameTotalStep(samples: nat)
    ensures samples == 0 ==> FrameTotal(samples) == 0
    ensures samples > 0 ==> FrameTotal(samples) == 1 + FrameTotal(samples - Min(samples, FRAME_SAMPLES))
  {
  }

  lemma BuiltFrameFits(prefix: seq<byte>, n: nat, index: nat, seed: nat, rest: seq<byte>)
    requires 0 < n <= FRAME_SAMPLES
    ensures FrameAt(prefix + BuiltFrame(n, index, seed) + rest, |prefix|, n)
  {
    hide LE, Octet, Value;
    var f := BuiltFrame(n, index, seed);
    var s := prefix + f + rest;
    Pow256Values();
    DecodeEncodeLE(n, 2);
    assert s[|prefix|..|prefix| + 2] == LE(n, 2);
    assert s[|prefix| + 4] == Octet((seed + index) % STEP_COUNT) && s[|prefix| + 5] == 0;
    if n % 2 == 0 {
      assert s[|prefix| + FrameBytes(n) - 1] == 0;
      ZeroValue();
    }
  }

  lemma ZeroValue()
    ensures Value(0) == 0
  {
  }

  /** Every asset it builds is accepted, with exactly the declared totals. */
  lemma BuiltAssetIsOk(samples: nat, seed: nat)
    requires 0 < samples && FrameTotal(samples) < 0x1_0000
    ensures var s := BuiltAsset(samples, seed); AssetOk(s) && SampleCountOf(s) == samples && FrameCountOf(s) == FrameTotal(samples)
  {
    hide LE, FromLE, FramesFrom, BuiltFrames, Pow256;
    var s := BuiltAsset(samples, seed);
    var h := ASSET_MAGIC + [1, 1] + LE(SAMPLE_RATE, 4) + LE(FRAME_SAMPLES, 2) + LE(FrameTotal(samples), 2) + LE(samples, 4) + LE(ASSET_HEADER, 2);
    Pow256Values();
    assert samples <= FRAME_SAMPLES * 0x1_0000;
    DecodeEncodeLE(SAMPLE_RATE, 4);
    DecodeEncodeLE(FRAME_SAMPLES, 2);
    DecodeEncodeLE(FrameTotal(samples), 2);
    DecodeEncodeLE(samples, 4);
    DecodeEncodeLE(ASSET_HEADER, 2);
    assert s == h + BuiltFrames(samples, 0, seed);
    assert s[..4] == ASSET_MAGIC && s[6..10] == LE(SAMPLE_RATE, 4) && s[10..12] == LE(FRAME_SAMPLES, 2);
    assert s[12..14] == LE(FrameTotal(samples), 2) && s[14..18] == LE(samples, 4) && s[18..20] == LE(ASSET_HEADER, 2);
    BuiltFramesFit(h, samples, 0, seed);
  }
}
