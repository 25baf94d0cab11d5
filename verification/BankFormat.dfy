/** Byte layout of one sound bank: staging header, manifest, journal, payload, commit record. */
module BankFormat {
  import opened Options
  import opened Bytes
  import opened FlashStorage
  import opened Crc32

  const HEADER_OFFSET: nat := 0x0000
  const MANIFEST_OFFSET: nat := 0x1000
  const JOURNAL_OFFSET: nat := 0x2000
  const PAYLOAD_OFFSET: nat := 0x3000
  const PAYLOAD_MAX: nat := 0x80000
  const RESERVED_OFFSET: nat := 0x83000
  const COMMIT_OFFSET: nat := 0x8F000
  const BLOCK: nat := 0x1000
  const BLOCK_COUNT: nat := 128
  const HEADER_BYTES: nat := 704
  const BODY_BYTES: nat := 128
  const MARKER_OFFSET: nat := 0x8F080
  const MARKER_BYTES: nat := 16

  type u32 = x: nat | x < 0x1_0000_0000
  type u64 = x: nat | x < 0x1_0000_0000_0000_0000
  const U64_MAX: u64 := 0xFFFF_FFFF_FFFF_FFFF

  type Digest = d: seq<byte> | |d| == 32 witness Fill(32, 0)
  type TxId = d: seq<byte> | |d| == 16 witness Fill(16, 0)
  type BlockCrcs = c: seq<bv32> | |c| == BLOCK_COUNT witness seq(BLOCK_COUNT, _ => 0)

  datatype Plan = Plan(baseGeneration: u64, baseBundle: Digest, manifestBytes: u32, payloadBytes: u32,
                       manifestCrc: bv32, manifestSha: Digest, bundleSha: Digest, blockCrcs: BlockCrcs)

  datatype Header = Header(generation: u64, txid: TxId, plan: Plan)

  datatype Snapshot = Snapshot(bank: BankId, generation: u64, baseGeneration: u64, txid: TxId, manifestBytes: u32,
                               payloadBytes: u32, manifestSha: Digest, bundleSha: Digest)

  /** The hash function and the manifest grammar; every result holds for all of them. */
  datatype Env = Env(sha256: seq<byte> -> Digest, manifestFormat: (seq<byte>, seq<byte>) -> bool)

  function BlockCount(payloadBytes: nat): nat {
    (payloadBytes + BLOCK - 1) / BLOCK
  }

  function BlockLength(payloadBytes: nat, index: nat): nat {
    if index * BLOCK >= payloadBytes then 0 else Min(BLOCK, payloadBytes - index * BLOCK)
  }

  predicate PlanIsValid(p: Plan) {
    && 32 <= p.manifestBytes <= SECTOR
    && p.payloadBytes <= PAYLOAD_MAX
    && !All(p.manifestSha, 0) && !All(p.bundleSha, 0)
    && (forall i :: BlockCount(p.payloadBytes) <= i < BLOCK_COUNT ==> p.blockCrcs[i] == 0)
    && (p.baseGeneration == 0 <==> All(p.baseBundle, 0))
  }

  function BankByte(id: BankId): byte {
    if id.A? then 0 else 1
  }

  // ---- transaction identity ----

  const TRANSACTION_DOMAIN: seq<byte> :=
    [0x45, 0x41, 0x53, 0x59, 0x49, 0x4E, 0x50, 0x55, 0x54, 0x2D, 0x54, 0x58, 0x4E, 0x2D, 0x56, 0x31]

  const BUNDLE_DOMAIN: seq<byte> :=
    [0x45, 0x41, 0x53, 0x59, 0x49, 0x4E, 0x50, 0x55, 0x54, 0x2D, 0x53, 0x4E, 0x44, 0x2D, 0x56, 0x31]

  function TransactionInput(plan: Plan, id: BankId, generation: u64): seq<byte> {
    TRANSACTION_DOMAIN + [BankByte(id)] + LE(generation, 8) + LE(plan.baseGeneration, 8) + plan.baseBundle
    + LE(plan.manifestBytes, 4) + LE(plan.payloadBytes, 4) + plan.manifestSha + plan.bundleSha
  }

  /** Half of a digest over every field that names the transaction; never the all-zero identifier. */
  function DeriveTxId(env: Env, plan: Plan, id: BankId, generation: u64): (t: TxId)
    ensures !All(t, 0)
  {
    var digest := env.sha256(TransactionInput(plan, id, generation));
    if !All(digest[..16], 0) then digest[..16]
    else if !All(digest[16..], 0) then digest[16..]
    else
      var t: TxId := Fill(15, 0) + [1];
      assert t[15] == 1;
      t
  }

  function BundleDigest(env: Env, manifest: seq<byte>, payload: seq<byte>): Digest {
    env.sha256(BUNDLE_DOMAIN + LE(|manifest|, 4) + manifest + LE(|payload|, 4) + payload)
  }

  // ---- staging header ----

  const STAGING_MAGIC: seq<byte> := [0x45, 0x49, 0x53, 0x48]

  function WordsBytes(ws: seq<bv32>): (r: seq<byte>)
    ensures |r| == 4 * |ws|
  {
    if ws == [] then [] else WordBytes(ws[0]) + WordsBytes(ws[1..])
  }

  function BytesWords(s: seq<byte>): (ws: seq<bv32>)
    requires |s| % 4 == 0
    ensures |ws| == |s| / 4
  {
    if s == [] then [] else [BytesWord(s[..4])] + BytesWords(s[4..])
  }

  function HeaderFixed(id: BankId, h: Header): (r: seq<byte>)
    ensures |r| == 72
  {
    (STAGING_MAGIC + LE(1, 2) + LE(HEADER_BYTES, 2) + [BankByte(id)] + Fill(7, 0))
    + (LE(h.generation, 8) + LE(h.plan.baseGeneration, 8) + h.txid)
    + (LE(h.plan.manifestBytes, 4) + LE(h.plan.payloadBytes, 4) + LE(BLOCK, 4) + LE(BlockCount(h.plan.payloadBytes), 2)
       + Fill(2, 0) + WordBytes(h.plan.manifestCrc) + Fill(4, 0))
  }

  function HeaderFields(id: BankId, h: Header): (r: seq<byte>)
    ensures |r| == 700
  {
    HeaderFixed(id, h) + (h.plan.baseBundle + h.plan.manifestSha + h.plan.bundleSha)
    + WordsBytes(h.plan.blockCrcs) + Fill(20, 0)
  }

  function EncodeHeader(id: BankId, h: Header): (r: seq<byte>)
    ensures |r| == HEADER_BYTES
  {
    HeaderFields(id, h) + WordBytes(Crc(HeaderFields(id, h)))
  }

  function PlanFields(s: seq<byte>): Plan
    requires |s| == HEADER_BYTES
  {
    Plan(U64(s[24..32]), s[72..104], U32(s[48..52]), U32(s[52..56]), BytesWord(s[64..68]),
         s[104..136], s[136..168], BytesWords(s[168..680]))
  }

  function U32(s: seq<byte>): (v: u32)
    requires |s| == 4
  {
    EncodeDecodeLE(s);
    Pow256Values();
    FromLE(s)
  }

  function U64(s: seq<byte>): (v: u64)
    requires |s| == 8
  {
    EncodeDecodeLE(s);
    Pow256Values();
    FromLE(s)
  }

  function DecodeHeader(id: BankId, s: seq<byte>): (h: Option<Header>)
    requires |s| == HEADER_BYTES
    ensures h.Some? ==> PlanIsValid(h.value.plan) && !All(h.value.txid, 0)
  {
    if s[..4] != STAGING_MAGIC || FromLE(s[4..6]) != 1 || FromLE(s[6..8]) != HEADER_BYTES || s[8] != BankByte(id)
       || !All(s[9..16], 0) || FromLE(s[56..60]) != BLOCK || FromLE(s[62..64]) != 0 || FromLE(s[68..72]) != 0
       || !All(s[680..700], 0) then None
    else if BytesWord(s[700..704]) != Crc(s[..700]) then None
    else
      var h := Header(U64(s[16..24]), s[32..48], PlanFields(s));
      if h.generation == 0 || All(h.txid, 0) || !PlanIsValid(h.plan)
         || FromLE(s[60..62]) != BlockCount(h.plan.payloadBytes) then None
      else Some(h)
  }

  function HeaderOf(id: BankId, bank: seq<byte>): (h: Option<Header>)
    requires |bank| == BANK_SIZE
    ensures h.Some? ==> PlanIsValid(h.value.plan) && !All(h.value.txid, 0)
  {
    DecodeHeader(id, bank[..HEADER_BYTES])
  }

  predicate SelfAuthenticated(env: Env, id: BankId, h: Header) {
    h.txid == DeriveTxId(env, h.plan, id, h.generation)
  }

  // ---- commit record ----

  const COMMIT_MAGIC: seq<byte> := [0x45, 0x49, 0x53, 0x43]

  function Inverted(s: seq<byte>): (r: seq<byte>)
    ensures |r| == |s|
  {
    seq(|s|, i requires 0 <= i < |s| => s[i] ^ 0xFF)
  }

  function BodyFields(id: BankId, h: Header): (r: seq<byte>)
    ensures |r| == 112
  {
    (LE(1, 2) + LE(BODY_BYTES, 2) + [BankByte(id)] + Fill(3, 0))
    + (LE(h.generation, 8) + LE(h.plan.baseGeneration, 8) + h.txid)
    + (LE(h.plan.manifestBytes, 4) + LE(h.plan.payloadBytes, 4) + h.plan.manifestSha + h.plan.bundleSha)
  }

  function EncodeBody(id: BankId, h: Header): (r: seq<byte>)
    ensures |r| == BODY_BYTES
  {
    BodyFields(id, h) + WordBytes(Crc(BodyFields(id, h))) + Fill(12, 0)
  }

  /** The marker repeats the body checksum and its complement after the magic and its complement. */
  function EncodeMarker(bodyCrc: seq<byte>): (r: seq<byte>)
    requires |bodyCrc| == 4
    ensures |r| == MARKER_BYTES
  {
    COMMIT_MAGIC + Inverted(COMMIT_MAGIC) + bodyCrc + Inverted(bodyCrc)
  }

  predicate SnapshotIsSane(id: BankId, s: Snapshot) {
    && s.bank == id && s.generation > 0 && s.baseGeneration == s.generation - 1
    && 32 <= s.manifestBytes <= SECTOR && s.payloadBytes <= PAYLOAD_MAX
  }

  function DecodeCommit(id: BankId, body: seq<byte>, marker: seq<byte>): (r: Option<Snapshot>)
    requires |body| == BODY_BYTES && |marker| == MARKER_BYTES
    ensures r.Some? ==> SnapshotIsSane(id, r.value)
  {
    if FromLE(body[..2]) != 1 || FromLE(body[2..4]) != BODY_BYTES || body[4] != BankByte(id)
       || !All(body[5..8], 0) || !All(body[116..128], 0) then None
    else if BytesWord(body[112..116]) != Crc(body[..112]) then None
    else if marker != EncodeMarker(body[112..116]) then None
    else
      var s := Snapshot(id, U64(body[8..16]), U64(body[16..24]), body[24..40], U32(body[40..44]), U32(body[44..48]),
                        body[48..80], body[80..112]);
      if s.generation == 0 || s.baseGeneration != s.generation - 1 || All(s.txid, 0) || s.manifestBytes < 32
         || s.manifestBytes > SECTOR || s.payloadBytes > PAYLOAD_MAX || All(s.manifestSha, 0) || All(s.bundleSha, 0)
      then None
      else Some(s)
  }

  function Body(bank: seq<byte>): (body: seq<byte>)
    requires |bank| == BANK_SIZE
    ensures |body| == BODY_BYTES
  {
    bank[COMMIT_OFFSET..COMMIT_OFFSET + BODY_BYTES]
  }

  function Marker(bank: seq<byte>): (marker: seq<byte>)
    requires |bank| == BANK_SIZE
    ensures |marker| == MARKER_BYTES
  {
    bank[MARKER_OFFSET..MARKER_OFFSET + MARKER_BYTES]
  }

  function CommitOf(id: BankId, bank: seq<byte>): (r: Option<Snapshot>)
    requires |bank| == BANK_SIZE
    ensures r.Some? ==> SnapshotIsSane(id, r.value)
  {
    DecodeCommit(id, Body(bank), Marker(bank))
  }

  function SnapshotFor(id: BankId, h: Header): Snapshot {
    Snapshot(id, h.generation, h.plan.baseGeneration, h.txid, h.plan.manifestBytes, h.plan.payloadBytes,
             h.plan.manifestSha, h.plan.bundleSha)
  }

  // ---- whole-bank validity ----

  function Manifest(bank: seq<byte>, n: nat): seq<byte>
    requires |bank| == BANK_SIZE && n <= SECTOR
  {
    bank[MANIFEST_OFFSET..MANIFEST_OFFSET + n]
  }

  function Payload(bank: seq<byte>, n: nat): seq<byte>
    requires |bank| == BANK_SIZE && n <= PAYLOAD_MAX
  {
    bank[PAYLOAD_OFFSET..PAYLOAD_OFFSET + n]
  }

  const MANIFEST_MAGIC: seq<byte> := [0x45, 0x49, 0x53, 0x4D]

  predicate FormatOk(env: Env, manifest: seq<byte>, payload: seq<byte>) {
    |manifest| >= 32 && manifest[..4] == MANIFEST_MAGIC && env.manifestFormat(manifest, payload)
  }

  predicate ContentMatches(env: Env, bank: seq<byte>, m: nat, p: nat, manifestSha: Digest, bundleSha: Digest)
    requires |bank| == BANK_SIZE && m <= SECTOR && p <= PAYLOAD_MAX
  {
    && FormatOk(env, Manifest(bank, m), Payload(bank, p))
    && env.sha256(Manifest(bank, m)) == manifestSha
    && BundleDigest(env, Manifest(bank, m), Payload(bank, p)) == bundleSha
  }

  predicate TailsErased(bank: seq<byte>, m: nat, p: nat)
    requires |bank| == BANK_SIZE && m <= SECTOR && p <= PAYLOAD_MAX
  {
    && All(bank[MANIFEST_OFFSET + m..JOURNAL_OFFSET], 0xFF)
    && All(bank[PAYLOAD_OFFSET + p..RESERVED_OFFSET], 0xFF)
    && All(bank[RESERVED_OFFSET..COMMIT_OFFSET], 0xFF)
    && All(bank[MARKER_OFFSET + MARKER_BYTES..], 0xFF)
  }

  /** What a faultless validate_sound_bank finds in a bank. */
  function Validate(env: Env, id: BankId, bank: seq<byte>): (v: Option<Snapshot>)
    requires |bank| == BANK_SIZE
    ensures v.Some? ==> v == CommitOf(id, bank) && SnapshotIsSane(id, v.value)
  {
    match CommitOf(id, bank)
    case None => None
    case Some(s) =>
      if ContentMatches(env, bank, s.manifestBytes, s.payloadBytes, s.manifestSha, s.bundleSha)
         && TailsErased(bank, s.manifestBytes, s.payloadBytes) then Some(s) else None
  }

  /** The cheaper cold-start test: commit record and manifest digest only. */
  predicate FastReadable(env: Env, id: BankId, bank: seq<byte>)
    requires |bank| == BANK_SIZE
  {
    match CommitOf(id, bank)
    case None => false
    case Some(s) => env.sha256(Manifest(bank, s.manifestBytes)) == s.manifestSha
  }

  // ---- what tearing does to records ----

  lemma HeaderNeedsMagic(id: BankId, bank: seq<byte>)
    requires |bank| == BANK_SIZE
    requires bank[0] == 0xFF || bank[3] == 0xFF
    ensures HeaderOf(id, bank).None?
  {
    assert bank[..HEADER_BYTES][..4][0] == bank[0] && bank[..HEADER_BYTES][..4][3] == bank[3];
  }

  lemma CommitNeedsVersion(id: BankId, bank: seq<byte>)
    requires |bank| == BANK_SIZE && bank[COMMIT_OFFSET] == 0xFF
    ensures CommitOf(id, bank).None?
  {
    assert Body(bank)[..2][0] == bank[COMMIT_OFFSET];
  }

  lemma CommitNeedsMarker(id: BankId, bank: seq<byte>)
    requires |bank| == BANK_SIZE
    ensures CommitOf(id, bank).Some? ==> Marker(bank) == EncodeMarker(Body(bank)[112..116]) && bank[MARKER_OFFSET] != 0xFF
  {
    assert EncodeMarker(Body(bank)[112..116])[0] == 0x45;
    assert Marker(bank)[0] == bank[MARKER_OFFSET];
  }

  ghost predicate Agree(b: seq<byte>, c: seq<byte>, lo: nat, hi: nat)
    requires |b| == |c|
  {
    forall i :: lo <= i < hi && i < |b| ==> b[i] == c[i]
  }

  lemma AgreeSlice(b: seq<byte>, c: seq<byte>, lo: nat, hi: nat)
    requires |b| == |c| && lo <= hi <= |b| && Agree(b, c, lo, hi)
    ensures b[lo..hi] == c[lo..hi]
  {
  }

  /** A commit record depends only on the first 144 octets of its sector. */
  lemma CommitFrame(id: BankId, b: seq<byte>, c: seq<byte>)
    requires |b| == |c| == BANK_SIZE && Agree(b, c, COMMIT_OFFSET, MARKER_OFFSET + MARKER_BYTES)
    ensures CommitOf(id, b) == CommitOf(id, c)
  {
    hide DecodeCommit;
    AgreeSlice(b, c, COMMIT_OFFSET, COMMIT_OFFSET + BODY_BYTES);
    AgreeSlice(b, c, MARKER_OFFSET, MARKER_OFFSET + MARKER_BYTES);
  }

  lemma ContentFrame(b: seq<byte>, c: seq<byte>, m: nat, p: nat)
    requires |b| == |c| == BANK_SIZE && m <= SECTOR && p <= PAYLOAD_MAX
    requires Agree(b, c, MANIFEST_OFFSET, JOURNAL_OFFSET) && Agree(b, c, PAYLOAD_OFFSET, BANK_SIZE)
    ensures Manifest(b, m) == Manifest(c, m) && Payload(b, p) == Payload(c, p)
    ensures TailsErased(b, m, p) == TailsErased(c, m, p)
  {
    hide All;
    AgreeSlice(b, c, MANIFEST_OFFSET, MANIFEST_OFFSET + m);
    AgreeSlice(b, c, PAYLOAD_OFFSET, PAYLOAD_OFFSET + p);
    AgreeSlice(b, c, MANIFEST_OFFSET + m, JOURNAL_OFFSET);
    AgreeSlice(b, c, PAYLOAD_OFFSET + p, RESERVED_OFFSET);
    AgreeSlice(b, c, RESERVED_OFFSET, COMMIT_OFFSET);
    AgreeSlice(b, c, MARKER_OFFSET + MARKER_BYTES, BANK_SIZE);
    assert b[MARKER_OFFSET + MARKER_BYTES..] == b[MARKER_OFFSET + MARKER_BYTES..BANK_SIZE];
    assert c[MARKER_OFFSET + MARKER_BYTES..] == c[MARKER_OFFSET + MARKER_BYTES..BANK_SIZE];
  }

  /** A validity verdict depends on nothing in the staging and journal sectors. */
  lemma ValidateIgnoresStaging(env: Env, id: BankId, b: seq<byte>, c: seq<byte>)
    requires |b| == |c| == BANK_SIZE
    requires Agree(b, c, MANIFEST_OFFSET, JOURNAL_OFFSET) && Agree(b, c, PAYLOAD_OFFSET, BANK_SIZE)
    ensures CommitOf(id, b) == CommitOf(id, c)
    ensures Validate(env, id, b) == Validate(env, id, c)
  {
    hide DecodeCommit, TailsErased, Manifest, Payload, BundleDigest, CommitOf;
    CommitFrame(id, b, c);
    match CommitOf(id, b)
    case None =>
    case Some(s) => ContentFrame(b, c, s.manifestBytes, s.payloadBytes);
  }

  lemma HeaderFrame(id: BankId, b: seq<byte>, c: seq<byte>)
    requires |b| == |c| == BANK_SIZE && Agree(b, c, 0, HEADER_BYTES)
    ensures HeaderOf(id, b) == HeaderOf(id, c)
  {
    hide DecodeHeader;
    AgreeSlice(b, c, 0, HEADER_BYTES);
    assert b[..HEADER_BYTES] == b[0..HEADER_BYTES] && c[..HEADER_BYTES] == c[0..HEADER_BYTES];
  }

  // ---- round trips ----

  lemma LittleEndianConstants()
    ensures FromLE(LE(1, 2)) == 1 && FromLE(LE(HEADER_BYTES, 2)) == HEADER_BYTES
    ensures FromLE(LE(BODY_BYTES, 2)) == BODY_BYTES && FromLE(LE(BLOCK, 4)) == BLOCK
    ensures FromLE(Fill(2, 0)) == 0 && FromLE(Fill(4, 0)) == 0
  {
    Pow256Values();
    DecodeEncodeLE(1, 2);
    DecodeEncodeLE(HEADER_BYTES, 2);
    DecodeEncodeLE(BODY_BYTES, 2);
    DecodeEncodeLE(BLOCK, 4);
    DecodeEncodeLE(0, 2);
    DecodeEncodeLE(0, 4);
    ZeroIsZeros(2);
    ZeroIsZeros(4);
  }

  lemma {:induction false} ZeroIsZeros(n: nat)
    ensures LE(0, n) == Fill(n, 0)
  {
    if n != 0 {
      ZeroIsZeros(n - 1);
      assert Octet(0) == 0;
      assert Fill(n, 0) == [0] + Fill(n - 1, 0);
    }
  }

  lemma FieldRoundTrips(h: Header)
    ensures U64(LE(h.generation, 8)) == h.generation && U64(LE(h.plan.baseGeneration, 8)) == h.plan.baseGeneration
    ensures U32(LE(h.plan.manifestBytes, 4)) == h.plan.manifestBytes
    ensures U32(LE(h.plan.payloadBytes, 4)) == h.plan.payloadBytes
  {
    Pow256Values();
    DecodeEncodeLE(h.generation, 8);
    DecodeEncodeLE(h.plan.baseGeneration, 8);
    DecodeEncodeLE(h.plan.manifestBytes, 4);
    DecodeEncodeLE(h.plan.payloadBytes, 4);
  }

  lemma PlanBounds(p: Plan)
    requires PlanIsValid(p)
    ensures 32 <= p.manifestBytes <= SECTOR && p.payloadBytes <= PAYLOAD_MAX
    ensures !All(p.manifestSha, 0) && !All(p.bundleSha, 0)
  {
  }

  lemma BodySlices(id: BankId, h: Header)
    ensures var f := BodyFields(id, h);
            && f[0..2] == LE(1, 2) && f[2..4] == LE(BODY_BYTES, 2) && f[4] == BankByte(id) && f[5..8] == Fill(3, 0)
            && f[8..16] == LE(h.generation, 8) && f[16..24] == LE(h.plan.baseGeneration, 8) && f[24..40] == h.txid
            && f[40..44] == LE(h.plan.manifestBytes, 4) && f[44..48] == LE(h.plan.payloadBytes, 4)
            && f[48..80] == h.plan.manifestSha && f[80..112] == h.plan.bundleSha
  {
    hide LE, Fill;
    var f := BodyFields(id, h);
    var a := LE(1, 2) + LE(BODY_BYTES, 2) + [BankByte(id)] + Fill(3, 0);
    var b := LE(h.generation, 8) + LE(h.plan.baseGeneration, 8) + h.txid;
    var c := LE(h.plan.manifestBytes, 4) + LE(h.plan.payloadBytes, 4) + h.plan.manifestSha + h.plan.bundleSha;
    assert f == a + b + c;
    assert f[0..2] == a[0..2] && f[2..4] == a[2..4] && f[4] == a[4] && f[5..8] == a[5..8];
    assert f[8..16] == b[0..8] && f[16..24] == b[8..16] && f[24..40] == b[16..32];
    assert f[40..44] == c[0..4] && f[44..48] == c[4..8] && f[48..80] == c[8..40] && f[80..112] == c[40..72];
  }

  /** A body followed by its marker decodes to exactly what was encoded. */
  lemma DecodeEncodeCommit(id: BankId, h: Header)
    requires PlanIsValid(h.plan) && h.generation == h.plan.baseGeneration + 1 && !All(h.txid, 0)
    ensures var body := EncodeBody(id, h);
            DecodeCommit(id, body, EncodeMarker(body[112..116])) == Some(SnapshotFor(id, h))
  {
    hide LE, FromLE, Crc, EncodeMarker, WordBytes, BytesWord, Pow256, PlanIsValid, All;
    var body, f := EncodeBody(id, h), BodyFields(id, h);
    LittleEndianConstants();
    FieldRoundTrips(h);
    DecodeEncodeWord(Crc(f));
    BodySlices(id, h);
    assert body[..112] == f && body[112..116] == WordBytes(Crc(f)) && body[116..128] == Fill(12, 0);
    assert forall i, j :: 0 <= i <= j <= 112 ==> body[i..j] == f[i..j];
    assert body[..2] == f[0..2];
    assert PlanIsValid(h.plan) && All(Fill(3, 0), 0) && All(Fill(12, 0), 0);
    PlanBounds(h.plan);
  }

  lemma {:induction false} DecodeEncodeWords(ws: seq<bv32>)
    ensures BytesWords(WordsBytes(ws)) == ws
  {
    hide WordBytes, BytesWord;
    if ws != [] {
      var s := WordsBytes(ws);
      DecodeEncodeWord(ws[0]);
      DecodeEncodeWords(ws[1..]);
      assert s[..4] == WordBytes(ws[0]) && s[4..] == WordsBytes(ws[1..]);
    }
  }

  lemma HeaderSlices(id: BankId, h: Header)
    ensures var f := HeaderFields(id, h);
            && f[0..4] == STAGING_MAGIC && f[4..6] == LE(1, 2) && f[6..8] == LE(HEADER_BYTES, 2) && f[8] == BankByte(id)
            && f[9..16] == Fill(7, 0) && f[16..24] == LE(h.generation, 8) && f[24..32] == LE(h.plan.baseGeneration, 8)
            && f[32..48] == h.txid && f[48..52] == LE(h.plan.manifestBytes, 4) && f[52..56] == LE(h.plan.payloadBytes, 4)
            && f[56..60] == LE(BLOCK, 4) && f[60..62] == LE(BlockCount(h.plan.payloadBytes), 2) && f[62..64] == Fill(2, 0)
            && f[64..68] == WordBytes(h.plan.manifestCrc) && f[68..72] == Fill(4, 0)
  {
    hide LE, Fill, WordBytes, WordsBytes;
    var f, x := HeaderFields(id, h), HeaderFixed(id, h);
    assert f[0..72] == x;
    var a := STAGING_MAGIC + LE(1, 2) + LE(HEADER_BYTES, 2) + [BankByte(id)] + Fill(7, 0);
    var b := LE(h.generation, 8) + LE(h.plan.baseGeneration, 8) + h.txid;
    var c := LE(h.plan.manifestBytes, 4) + LE(h.plan.payloadBytes, 4) + LE(BLOCK, 4)
             + LE(BlockCount(h.plan.payloadBytes), 2) + Fill(2, 0) + WordBytes(h.plan.manifestCrc) + Fill(4, 0);
    assert x == a + b + c;
    assert forall i, j :: 0 <= i <= j <= 72 ==> f[i..j] == x[i..j];
    assert x[0..4] == a[0..4] && x[4..6] == a[4..6] && x[6..8] == a[6..8] && x[8] == a[8] && x[9..16] == a[9..16];
    assert x[16..24] == b[0..8] && x[24..32] == b[8..16] && x[32..48] == b[16..32];
    assert x[48..52] == c[0..4] && x[52..56] == c[4..8] && x[56..60] == c[8..12] && x[60..62] == c[12..14];
    assert x[62..64] == c[14..16] && x[64..68] == c[16..20] && x[68..72] == c[20..24];
  }

  lemma HeaderTailSlices(id: BankId, h: Header)
    ensures var f := HeaderFields(id, h);
            && f[72..104] == h.plan.baseBundle && f[104..136] == h.plan.manifestSha && f[136..168] == h.plan.bundleSha
            && f[168..680] == WordsBytes(h.plan.blockCrcs) && f[680..700] == Fill(20, 0)
  {
    hide Fill, WordsBytes, HeaderFixed;
  }

  /** The staging header decodes to exactly what was encoded. */
  lemma DecodeEncodeHeader(id: BankId, h: Header)
    requires PlanIsValid(h.plan) && h.generation != 0 && !All(h.txid, 0)
    ensures DecodeHeader(id, EncodeHeader(id, h)) == Some(h)
  {
    hide LE, FromLE, Crc, WordBytes, BytesWord, WordsBytes, BytesWords, Pow256, PlanIsValid, All, HeaderFields;
    var s, f := EncodeHeader(id, h), HeaderFields(id, h);
    LittleEndianConstants();
    FieldRoundTrips(h);
    PlanBounds(h.plan);
    Pow256Values();
    DecodeEncodeLE(BlockCount(h.plan.payloadBytes), 2);
    DecodeEncodeWord(Crc(f));
    DecodeEncodeWord(h.plan.manifestCrc);
    DecodeEncodeWords(h.plan.blockCrcs);
    HeaderSlices(id, h);
    HeaderTailSlices(id, h);
    ZerosAreAllZero(7);
    ZerosAreAllZero(20);
    assert s[..700] == f && s[700..704] == WordBytes(Crc(f));
    assert forall i, j :: 0 <= i <= j <= 700 ==> s[i..j] == f[i..j];
    assert s[..4] == f[0..4];
  }

  lemma ZerosAreAllZero(n: nat)
    ensures All(Fill(n, 0), 0)
  {
  }
}
