/** What is durably true of the two banks between any two flash mutations. */
module StoreInvariants {
  import opened Options
  import opened Bytes
  import opened FlashStorage
  import opened BankFormat
  import opened BankSelection
  import opened Crc32

  predicate MarkerBlank(bank: seq<byte>)
    requires |bank| == BANK_SIZE
  {
    bank[MARKER_OFFSET] == 0xFF
  }

  /** The body area once the first `k` octets of `body` have been written over what was there. */
  function Rewritten(body: seq<byte>, there: seq<byte>, k: nat): (r: seq<byte>)
    requires |body| == |there| && k <= |body|
    ensures |r| == |body|
  {
    body[..k] + there[k..]
  }

  /** With this marker, this body is the update's own, or no commit record at all. */
  predicate Harmless(id: BankId, body: seq<byte>, there: seq<byte>, marker: seq<byte>)
    requires |there| == BODY_BYTES && |marker| == MARKER_BYTES
  {
    there == body || DecodeCommit(id, there, marker).None?
  }

  /**
   * The marker has not been started, or the body cannot be read as anything but the update's own, now or however far the update
   * rewrites it. A whole body is the plain case; a body damaged after its marker was written is the other one.
   */
  predicate CommitStage(id: BankId, h: Header, bank: seq<byte>)
    requires |bank| == BANK_SIZE
  {
    MarkerBlank(bank)
    || forall k: nat :: k <= BODY_BYTES ==> Harmless(id, EncodeBody(id, h), Rewritten(EncodeBody(id, h), Body(bank), k), Marker(bank))
  }

  lemma WholeBodyStage(id: BankId, h: Header, bank: seq<byte>)
    requires |bank| == BANK_SIZE && Body(bank) == EncodeBody(id, h)
    ensures CommitStage(id, h, bank)
  {
    hide EncodeBody, Body, Marker, DecodeCommit;
    forall k: nat | k <= BODY_BYTES ensures Rewritten(EncodeBody(id, h), Body(bank), k) == EncodeBody(id, h) {
      assert EncodeBody(id, h)[..k] + EncodeBody(id, h)[k..] == EncodeBody(id, h);
    }
  }

  /** As it stands, a staged record reads as the update's own or not at all. */
  lemma StagedRecordReads(id: BankId, h: Header, bank: seq<byte>)
    requires |bank| == BANK_SIZE && CommitStage(id, h, bank) && !MarkerBlank(bank)
    ensures Body(bank) == EncodeBody(id, h) || CommitOf(id, bank).None?
  {
    hide EncodeBody, Body, Marker, DecodeCommit;
    assert EncodeBody(id, h)[..0] + Body(bank)[0..] == Body(bank);
    assert Harmless(id, EncodeBody(id, h), Rewritten(EncodeBody(id, h), Body(bank), 0), Marker(bank));
  }

  lemma RewrittenTwice(e: seq<byte>, b: seq<byte>, j: nat, k: nat)
    requires |e| == |b| && j <= |e| && k <= |e|
    ensures Rewritten(e, Rewritten(e, b, j), k) == Rewritten(e, b, if j < k then k else j)
  {
  }

  /** Rewriting part of the body keeps the stage. */
  lemma RewrittenStage(id: BankId, h: Header, t: seq<byte>, t': seq<byte>, j: nat)
    requires |t| == |t'| == BANK_SIZE && CommitStage(id, h, t) && !MarkerBlank(t) && j <= BODY_BYTES
    requires Body(t') == Rewritten(EncodeBody(id, h), Body(t), j) && Marker(t') == Marker(t)
    ensures CommitStage(id, h, t')
  {
    hide EncodeBody, Body, Marker, DecodeCommit;
    var e := EncodeBody(id, h);
    forall k: nat | k <= BODY_BYTES ensures Harmless(id, e, Rewritten(e, Body(t'), k), Marker(t')) {
      var m := if j < k then k else j;
      RewrittenTwice(e, Body(t), j, k);
      assert Harmless(id, e, Rewritten(e, Body(t), m), Marker(t));
    }
  }

  predicate RecordSettled(env: Env, id: BankId, bank: seq<byte>)
    requires |bank| == BANK_SIZE
  {
    match HeaderOf(id, bank)
    case None => true
    case Some(h) => SelfAuthenticated(env, id, h) ==> CommitStage(id, h, bank)
  }

  /** A header left over from a half-erased older generation: its bank is invalid and the other one is at least as new. */
  predicate Superseded(env: Env, id: BankId, bank: seq<byte>, other: seq<byte>)
    requires |bank| == |other| == BANK_SIZE
  {
    && HeaderOf(id, bank).Some? && CommitOf(id, bank).None?
    && Validate(env, id.Other(), other).Some?
    && Validate(env, id.Other(), other).value.generation >= HeaderOf(id, bank).value.generation
  }

  predicate RecordsAgree(env: Env, id: BankId, bank: seq<byte>, other: seq<byte>)
    requires |bank| == |other| == BANK_SIZE
  {
    RecordSettled(env, id, bank) || Superseded(env, id, bank, other)
  }

  /** `t` is the bank in question, `o` the other one. */
  predicate Durable(env: Env, id: BankId, t: seq<byte>, o: seq<byte>)
    requires |t| == |o| == BANK_SIZE
  {
    && RecordsAgree(env, id, t, o) && RecordsAgree(env, id.Other(), o, t)
    && NoSplit(Validate(env, id, t), Validate(env, id.Other(), o))
  }

  /** An update `h` is being staged in bank `id` (contents `t`) on top of what bank `o` holds. */
  predicate Updating(env: Env, id: BankId, h: Header, t: seq<byte>, o: seq<byte>)
    requires |t| == |o| == BANK_SIZE
  {
    && PlanIsValid(h.plan) && h.generation == h.plan.baseGeneration + 1 && SelfAuthenticated(env, id, h)
    && (HeaderOf(id, t).Some? ==> HeaderOf(id, t) == Some(h))
    && CommitStage(id, h, t)
    && RecordSettled(env, id.Other(), o)
    && match Validate(env, id.Other(), o)
       case None => h.plan.baseGeneration == 0
       case Some(s) => s.generation == h.plan.baseGeneration && s.bundleSha == h.plan.baseBundle
  }

  function ActiveOf(env: Env, id: BankId, t: seq<byte>, o: seq<byte>): Option<Snapshot>
    requires |t| == |o| == BANK_SIZE
  {
    var (vt, vo) := (Validate(env, id, t), Validate(env, id.Other(), o));
    (if id.A? then SelectBanks(vt, vo) else SelectBanks(vo, vt)).active
  }

  /** Where the next update must go. */
  function TargetBank(s: Selection): BankId {
    if s.active.Some? then s.active.value.bank.Other() else A
  }

  lemma CommitStageDecodes(id: BankId, h: Header, bank: seq<byte>)
    requires |bank| == BANK_SIZE && CommitStage(id, h, bank)
    requires PlanIsValid(h.plan) && h.generation == h.plan.baseGeneration + 1 && !All(h.txid, 0)
    ensures CommitOf(id, bank).Some? ==> CommitOf(id, bank) == Some(SnapshotFor(id, h))
    ensures CommitOf(id, bank).Some? <==>
            Body(bank) == EncodeBody(id, h) && Marker(bank) == EncodeMarker(EncodeBody(id, h)[112..116])
  {
    hide EncodeBody, EncodeMarker, SnapshotFor, PlanIsValid, Marker, Body;
    hide DecodeCommit, CommitStage;
    CommitNeedsMarker(id, bank);
    DecodeEncodeCommit(id, h);
    MarkerStarts(EncodeBody(id, h)[112..116], bank);
    if !MarkerBlank(bank) { StagedRecordReads(id, h, bank); }
  }

  lemma MarkerStarts(crc: seq<byte>, bank: seq<byte>)
    requires |crc| == 4 && |bank| == BANK_SIZE
    ensures Marker(bank) == EncodeMarker(crc) ==> !MarkerBlank(bank)
  {
    assert EncodeMarker(crc)[0] == 0x45;
    assert Marker(bank)[0] == bank[MARKER_OFFSET];
  }

  /** While an update is staged, the target bank is invalid or holds exactly the new bundle, one generation on. */
  lemma UpdatingIsDurable(env: Env, id: BankId, h: Header, t: seq<byte>, o: seq<byte>)
    requires |t| == |o| == BANK_SIZE && Updating(env, id, h, t, o)
    ensures Durable(env, id, t, o)
    ensures var s := SnapshotFor(id, h);
            && (Validate(env, id, t).None? || Validate(env, id, t) == Some(s))
            && ActiveOf(env, id, t, o) == (if Validate(env, id, t).Some? then Some(s) else Validate(env, id.Other(), o))
  {
    hide HeaderOf, CommitOf, ContentMatches, TailsErased, EncodeBody, PlanIsValid, TransactionInput;
    CommitStageDecodes(id, h, t);
  }

  // ---- one lemma for each kind of flash mutation the store performs ----

  lemma WroteOutside(t: seq<byte>, t': seq<byte>, off: nat, data: seq<byte>, io: IoResult, lo: nat, hi: nat)
    requires WroteUpTo(t, t', off, data, io) && (hi <= off || off + |data| <= lo)
    ensures |t| == |t'| && Agree(t, t', lo, hi)
  {
  }

  lemma WroteAll(t: seq<byte>, t': seq<byte>, off: nat, data: seq<byte>, io: IoResult)
    requires WroteUpTo(t, t', off, data, io) && io.IoOk?
    ensures off + |data| <= |t'| && t'[off..off + |data|] == data
  {
    assert data[..|data|] == data;
    if |data| != 0 {
      assert t' == Overlay(t, off, data);
      assert forall i :: 0 <= i < |data| ==> t'[off..off + |data|][i] == t'[off + i] == data[i];
    }
  }

  /** The target may be reclaimed: it is no newer than the bank that stays. */
  predicate Reclaimable(env: Env, id: BankId, t: seq<byte>, o: seq<byte>)
    requires |t| == |o| == BANK_SIZE
  {
    var vo := Validate(env, id.Other(), o);
    && (HeaderOf(id, t).Some? && SelfAuthenticated(env, id, HeaderOf(id, t).value) ==>
          vo.Some? && HeaderOf(id, t).value.generation <= vo.value.generation)
    && (Validate(env, id, t).Some? ==> vo.Some? && Validate(env, id, t).value.generation < vo.value.generation)
  }

  /** Losing the target's commit record, and perhaps its header, loses nothing that was current. */
  lemma ReclaimStep(env: Env, id: BankId, t: seq<byte>, o: seq<byte>, t': seq<byte>)
    requires |t| == |o| == |t'| == BANK_SIZE
    requires Durable(env, id, t, o) && Reclaimable(env, id, t, o)
    requires t' == t || (CommitOf(id, t').None? && (HeaderOf(id, t').None? || HeaderOf(id, t') == HeaderOf(id, t)))
    ensures Durable(env, id, t', o) && Reclaimable(env, id, t', o)
    ensures RecordSettled(env, id.Other(), o)
    ensures ActiveOf(env, id, t', o) == ActiveOf(env, id, t, o) == Validate(env, id.Other(), o)
  {
    hide HeaderOf, CommitOf, ContentMatches, TailsErased, DeriveTxId, CommitStage;
  }

  lemma ErasedCommitSector(id: BankId, t: seq<byte>, t': seq<byte>, io: IoResult)
    requires |t| == BANK_SIZE && ErasedUpTo(t, t', COMMIT_OFFSET, SECTOR, io)
    ensures |t'| == BANK_SIZE && HeaderOf(id, t') == HeaderOf(id, t)
    ensures t' == t || CommitOf(id, t').None?
    ensures io.IoOk? ==> CommitOf(id, t').None?
  {
    hide HeaderOf, CommitOf;
    WroteOutside(t, t', COMMIT_OFFSET, Fill(SECTOR, 0xFF), io, 0, HEADER_BYTES);
    HeaderFrame(id, t, t');
    if t' != t || io.IoOk? {
      var k: nat :| k <= SECTOR && LaidOver(t, t', COMMIT_OFFSET, Fill(SECTOR, 0xFF), k) && (io.IoOk? ==> k == SECTOR);
      assert t'[COMMIT_OFFSET] == 0xFF;
      CommitNeedsVersion(id, t');
    }
  }

  lemma ErasedFromStart(id: BankId, t: seq<byte>, t': seq<byte>, len: nat, io: IoResult)
    requires |t| == BANK_SIZE && SECTOR <= len <= COMMIT_OFFSET && ErasedUpTo(t, t', 0, len, io)
    ensures |t'| == BANK_SIZE && CommitOf(id, t') == CommitOf(id, t)
    ensures t' == t || HeaderOf(id, t').None?
    ensures io.IoOk? ==> HeaderOf(id, t').None?
  {
    hide HeaderOf, CommitOf;
    WroteOutside(t, t', 0, Fill(len, 0xFF), io, COMMIT_OFFSET, BANK_SIZE);
    CommitFrame(id, t, t');
    if t' != t || io.IoOk? {
      var k: nat :| k <= len && LaidOver(t, t', 0, Fill(len, 0xFF), k) && (io.IoOk? ==> k == len);
      assert t'[0] == 0xFF;
      HeaderNeedsMagic(id, t');
    }
  }

  /** A verified blank bank is ready to stage any update that builds on the other bank. */
  lemma BlankCanStage(env: Env, id: BankId, h: Header, t: seq<byte>, o: seq<byte>)
    requires |t| == |o| == BANK_SIZE && All(t, 0xFF)
    requires PlanIsValid(h.plan) && h.generation == h.plan.baseGeneration + 1 && SelfAuthenticated(env, id, h)
    requires RecordSettled(env, id.Other(), o)
    requires match Validate(env, id.Other(), o)
             case None => h.plan.baseGeneration == 0
             case Some(s) => s.generation == h.plan.baseGeneration && s.bundleSha == h.plan.baseBundle
    ensures Updating(env, id, h, t, o)
  {
    hide HeaderOf;
    HeaderNeedsMagic(id, t);
  }

  /** Everything but the magic goes first, so a torn header is never recognised. */
  lemma StagedHeaderTail(env: Env, id: BankId, h: Header, t: seq<byte>, o: seq<byte>, t': seq<byte>, io: IoResult)
    requires |t| == |o| == BANK_SIZE && Updating(env, id, h, t, o) && All(t[..4], 0xFF)
    requires WroteUpTo(t, t', 4, EncodeHeader(id, h)[4..], io)
    ensures |t'| == BANK_SIZE && Updating(env, id, h, t', o) && All(t'[..4], 0xFF)
    ensures Agree(t, t', HEADER_BYTES, BANK_SIZE)
  {
    hide HeaderOf, EncodeHeader, Validate, SelfAuthenticated, PlanIsValid, RecordSettled;
    var tail := EncodeHeader(id, h)[4..];
    WroteOutside(t, t', 4, tail, io, 0, 4);
    WroteOutside(t, t', 4, tail, io, HEADER_BYTES, BANK_SIZE);
    assert t'[..4] == t[..4] by { AgreeSlice(t, t', 0, 4); assert t'[..4] == t'[0..4] && t[..4] == t[0..4]; }
    assert t'[0] == t'[..4][0];
    HeaderNeedsMagic(id, t');
    CommitStageFrame(id, h, t, t');
  }

  lemma CommitStageFrame(id: BankId, h: Header, t: seq<byte>, t': seq<byte>)
    requires |t| == |t'| == BANK_SIZE && Agree(t, t', COMMIT_OFFSET, MARKER_OFFSET + MARKER_BYTES)
    ensures CommitStage(id, h, t') == CommitStage(id, h, t)
  {
    hide EncodeBody, DecodeCommit;
    AgreeSlice(t, t', COMMIT_OFFSET, COMMIT_OFFSET + BODY_BYTES);
    AgreeSlice(t, t', MARKER_OFFSET, MARKER_OFFSET + MARKER_BYTES);
    assert t[MARKER_OFFSET] == t'[MARKER_OFFSET];
    assert Body(t) == Body(t') && Marker(t) == Marker(t');
  }

  /** The magic completes the header; torn, it is still no header. */
  lemma StagedHeaderMagic(env: Env, id: BankId, h: Header, t: seq<byte>, o: seq<byte>, t': seq<byte>, io: IoResult)
    requires |t| == |o| == BANK_SIZE && Updating(env, id, h, t, o) && All(t[..4], 0xFF)
    requires t[4..HEADER_BYTES] == EncodeHeader(id, h)[4..]
    requires WroteUpTo(t, t', 0, EncodeHeader(id, h)[..4], io)
    ensures |t'| == BANK_SIZE && Updating(env, id, h, t', o)
    ensures io.IoOk? ==> HeaderOf(id, t') == Some(h)
    ensures Agree(t, t', HEADER_BYTES, BANK_SIZE)
  {
    hide EncodeHeader, Validate, PlanIsValid, RecordSettled, HeaderOf, CommitStage, DeriveTxId;
    WroteOutside(t, t', 0, EncodeHeader(id, h)[..4], io, HEADER_BYTES, BANK_SIZE);
    CommitStageFrame(id, h, t, t');
    MagicOrNothing(id, h, t, t', io);
  }

  lemma MagicOrNothing(id: BankId, h: Header, t: seq<byte>, t': seq<byte>, io: IoResult)
    requires |t| == BANK_SIZE && All(t[..4], 0xFF) && PlanIsValid(h.plan) && h.generation != 0 && !All(h.txid, 0)
    requires t[4..HEADER_BYTES] == EncodeHeader(id, h)[4..] && WroteUpTo(t, t', 0, EncodeHeader(id, h)[..4], io)
    ensures HeaderOf(id, t') == Some(h) || (HeaderOf(id, t').None? && !io.IoOk?)
  {
    hide EncodeHeader, PlanIsValid, DecodeHeader;
    var magic := EncodeHeader(id, h)[..4];
    WroteOutside(t, t', 0, magic, io, 4, HEADER_BYTES);
    var k: nat :| k <= 4 && LaidOver(t, t', 0, magic, k) && (io.IoOk? ==> k == 4);
    if k == 4 {
      AgreeSlice(t, t', 4, HEADER_BYTES);
      assert t'[..4] == magic;
      assert t'[..HEADER_BYTES] == t'[..4] + t'[4..HEADER_BYTES] == EncodeHeader(id, h);
      DecodeEncodeHeader(id, h);
    } else {
      assert t'[3] == t[..4][3];
      HeaderNeedsMagic(id, t');
    }
  }

  /** Manifest, journal and payload writes touch neither record. */
  lemma ContentWrite(env: Env, id: BankId, h: Header, t: seq<byte>, o: seq<byte>, t': seq<byte>)
    requires |t| == |o| == |t'| == BANK_SIZE && Updating(env, id, h, t, o)
    requires Agree(t, t', 0, HEADER_BYTES) && Agree(t, t', COMMIT_OFFSET, BANK_SIZE)
    ensures Updating(env, id, h, t', o)
  {
    hide HeaderOf, Validate, SelfAuthenticated, PlanIsValid, RecordSettled;
    HeaderFrame(id, t, t');
    CommitStageFrame(id, h, t, t');
  }

  lemma CommitBodyWrite(env: Env, id: BankId, h: Header, t: seq<byte>, o: seq<byte>, t': seq<byte>, io: IoResult)
    requires |t| == |o| == BANK_SIZE && Updating(env, id, h, t, o)
    requires WroteUpTo(t, t', COMMIT_OFFSET, EncodeBody(id, h), io)
    ensures |t'| == BANK_SIZE && Updating(env, id, h, t', o)
    ensures Agree(t, t', 0, COMMIT_OFFSET) && Agree(t, t', MARKER_OFFSET, BANK_SIZE)
  {
    hide HeaderOf, Validate, SelfAuthenticated, PlanIsValid, RecordSettled, EncodeBody;
    var body := EncodeBody(id, h);
    WroteOutside(t, t', COMMIT_OFFSET, body, io, 0, COMMIT_OFFSET);
    WroteOutside(t, t', COMMIT_OFFSET, body, io, MARKER_OFFSET, BANK_SIZE);
    HeaderFrame(id, t, t');
    BodyRewritten(id, h, t, t', io);
  }

  lemma BodyRewritten(id: BankId, h: Header, t: seq<byte>, t': seq<byte>, io: IoResult)
    requires |t| == |t'| == BANK_SIZE && CommitStage(id, h, t) && WroteUpTo(t, t', COMMIT_OFFSET, EncodeBody(id, h), io)
    ensures CommitStage(id, h, t')
  {
    hide EncodeBody, CommitStage, DecodeCommit;
    var e := EncodeBody(id, h);
    var k: nat :| k <= |e| && LaidOver(t, t', COMMIT_OFFSET, e, k);
    WroteOutside(t, t', COMMIT_OFFSET, e, io, MARKER_OFFSET, BANK_SIZE);
    MarkerFrame(t, t');
    if MarkerBlank(t) {
      BlankMarkerStage(id, h, t');
    } else {
      BodyLaid(t, t', e, k);
      RewrittenStage(id, h, t, t', k);
    }
  }

  lemma BlankMarkerStage(id: BankId, h: Header, bank: seq<byte>)
    requires |bank| == BANK_SIZE && MarkerBlank(bank)
    ensures CommitStage(id, h, bank)
  {
    hide EncodeBody, DecodeCommit;
  }

  lemma BodyLaid(t: seq<byte>, t': seq<byte>, e: seq<byte>, k: nat)
    requires |t| == |t'| == BANK_SIZE && |e| == BODY_BYTES && k <= BODY_BYTES && LaidOver(t, t', COMMIT_OFFSET, e, k)
    ensures Body(t') == Rewritten(e, Body(t), k)
  {
    forall i | 0 <= i < BODY_BYTES ensures Body(t')[i] == Rewritten(e, Body(t), k)[i] {
      assert Body(t')[i] == t'[COMMIT_OFFSET + i] && Body(t)[i] == t[COMMIT_OFFSET + i];
    }
  }

  /** Writing over itself what is already there, torn or not, changes nothing. */
  lemma RewriteIsNothing(t: seq<byte>, t': seq<byte>, off: nat, data: seq<byte>, io: IoResult)
    requires off + |data| <= |t| && t[off..off + |data|] == data && WroteUpTo(t, t', off, data, io)
    ensures t' == t
  {
    var k: nat :| k <= |data| && LaidOver(t, t', off, data, k);
    forall i | 0 <= i < |t| ensures t'[i] == t[i] {
      if off <= i < off + k { assert t[off..off + |data|][i - off] == t[i]; }
    }
  }

  lemma CommitMarkerWrite(env: Env, id: BankId, h: Header, t: seq<byte>, o: seq<byte>, t': seq<byte>, io: IoResult)
    requires |t| == |o| == BANK_SIZE && Updating(env, id, h, t, o) && Body(t) == EncodeBody(id, h)
    requires WroteUpTo(t, t', MARKER_OFFSET, EncodeMarker(EncodeBody(id, h)[112..116]), io)
    ensures |t'| == BANK_SIZE && Updating(env, id, h, t', o) && Body(t') == EncodeBody(id, h)
    ensures Agree(t, t', 0, MARKER_OFFSET) && Agree(t, t', MARKER_OFFSET + MARKER_BYTES, BANK_SIZE)
  {
    hide HeaderOf, Validate, SelfAuthenticated, PlanIsValid, RecordSettled, EncodeBody, EncodeMarker;
    var marker := EncodeMarker(EncodeBody(id, h)[112..116]);
    WroteOutside(t, t', MARKER_OFFSET, marker, io, 0, MARKER_OFFSET);
    WroteOutside(t, t', MARKER_OFFSET, marker, io, MARKER_OFFSET + MARKER_BYTES, BANK_SIZE);
    HeaderFrame(id, t, t');
    AgreeSlice(t, t', COMMIT_OFFSET, COMMIT_OFFSET + BODY_BYTES);
    hide CommitStage;
    WholeBodyStage(id, h, t');
  }

  lemma StagingSectorErased(env: Env, id: BankId, t: seq<byte>, t': seq<byte>, io: IoResult)
    requires |t| == BANK_SIZE && ErasedUpTo(t, t', HEADER_OFFSET, SECTOR, io)
    ensures |t'| == BANK_SIZE && (HeaderOf(id, t').None? || t' == t) && (io.IoOk? ==> HeaderOf(id, t').None?)
    ensures CommitOf(id, t') == CommitOf(id, t) && Validate(env, id, t') == Validate(env, id, t)
    ensures Agree(t, t', SECTOR, BANK_SIZE)
  {
    hide HeaderOf, CommitOf, Validate;
    ErasedFromStart(id, t, t', SECTOR, io);
    WroteOutside(t, t', 0, Fill(SECTOR, 0xFF), io, SECTOR, BANK_SIZE);
    ValidateIgnoresStaging(env, id, t, t');
  }

  /** Dropping a header leaves everything durable in place. */
  lemma HeaderDropped(env: Env, id: BankId, t: seq<byte>, o: seq<byte>, t': seq<byte>)
    requires |t| == |o| == |t'| == BANK_SIZE && Durable(env, id, t, o)
    requires HeaderOf(id, t').None? || HeaderOf(id, t') == HeaderOf(id, t)
    requires HeaderOf(id, t').Some? ==> t' == t
    requires Validate(env, id, t') == Validate(env, id, t)
    ensures Durable(env, id, t', o) && ActiveOf(env, id, t', o) == ActiveOf(env, id, t, o)
  {
    hide HeaderOf, CommitOf, Validate, CommitStage;
  }

  /** Erasing any prefix of a bank leaves its commit record, or none. */
  lemma ErasedRecord(id: BankId, t: seq<byte>, t': seq<byte>, io: IoResult)
    requires |t| == BANK_SIZE && ErasedUpTo(t, t', 0, BANK_SIZE, io)
    ensures |t'| == BANK_SIZE && (CommitOf(id, t').None? || CommitOf(id, t') == CommitOf(id, t))
  {
    hide CommitOf;
    var k: nat :| k <= BANK_SIZE && LaidOver(t, t', 0, Fill(BANK_SIZE, 0xFF), k);
    if k <= COMMIT_OFFSET {
      CommitFrame(id, t, t');
    } else {
      assert t'[COMMIT_OFFSET] == 0xFF;
      CommitNeedsVersion(id, t');
    }
  }

  /** Erasing any prefix of a bank that is already invalid cannot make it valid. */
  lemma ErasedInvalidBank(env: Env, id: BankId, t: seq<byte>, t': seq<byte>, io: IoResult)
    requires |t| == BANK_SIZE && Validate(env, id, t).None? && ErasedUpTo(t, t', 0, BANK_SIZE, io)
    ensures |t'| == BANK_SIZE && Validate(env, id, t').None?
    ensures HeaderOf(id, t').None? || t' == t
  {
    hide HeaderOf, CommitOf, Validate, DecodeCommit;
    var k: nat :| k <= BANK_SIZE && LaidOver(t, t', 0, Fill(BANK_SIZE, 0xFF), k);
    if k > 0 {
      assert t'[0] == 0xFF;
      HeaderNeedsMagic(id, t');
      if k <= MANIFEST_OFFSET {
        ValidateIgnoresStaging(env, id, t, t');
      } else {
        assert t'[MANIFEST_OFFSET] == 0xFF;
        BlankManifestIsInvalid(env, id, t');
      }
    }
  }

  lemma BlankManifestIsInvalid(env: Env, id: BankId, t: seq<byte>)
    requires |t| == BANK_SIZE && t[MANIFEST_OFFSET] == 0xFF
    ensures Validate(env, id, t).None?
  {
    hide CommitOf, TailsErased, BundleDigest;
    if CommitOf(id, t).Some? {
      assert Manifest(t, CommitOf(id, t).value.manifestBytes)[..4][0] == 0xFF;
    }
  }

  /** Neither bank's role is special. */
  lemma Orient(env: Env, id: BankId, t: seq<byte>, o: seq<byte>)
    requires |t| == |o| == BANK_SIZE
    ensures Durable(env, id, t, o) == Durable(env, id.Other(), o, t)
    ensures ActiveOf(env, id, t, o) == ActiveOf(env, id.Other(), o, t)
  {
    hide RecordsAgree, Validate;
  }

  /** A staged record decodes, if at all, to the header's generation. */
  lemma CommittedGeneration(id: BankId, h: Header, bank: seq<byte>)
    requires |bank| == BANK_SIZE && CommitOf(id, bank).Some? && CommitStage(id, h, bank)
    ensures CommitOf(id, bank).value.generation == h.generation
  {
    CommitNeedsMarker(id, bank);
    StagedRecordReads(id, h, bank);
    BodyGeneration(id, h, bank);
  }

  lemma BodyGeneration(id: BankId, h: Header, bank: seq<byte>)
    requires |bank| == BANK_SIZE && CommitOf(id, bank).Some? && Body(bank) == EncodeBody(id, h)
    ensures CommitOf(id, bank).value.generation == h.generation
  {
    hide LE, FromLE, Crc, EncodeMarker, WordBytes, BytesWord, All, BodyFields;
    var body, f := EncodeBody(id, h), BodyFields(id, h);
    BodySlices(id, h);
    assert body[8..16] == f[8..16] && body[16..24] == f[16..24];
    FieldRoundTrips(h);
  }

  // ---- erased tails ----

  predicate TailsAre(bank: seq<byte>, p: Plan)
    requires |bank| == BANK_SIZE
  {
    p.manifestBytes <= SECTOR && p.payloadBytes <= PAYLOAD_MAX && TailsErased(bank, p.manifestBytes, p.payloadBytes)
  }

  /** Whatever a staging header announces, the rest of its bank is erased. */
  predicate TailsClean(id: BankId, bank: seq<byte>)
    requires |bank| == BANK_SIZE
  {
    HeaderOf(id, bank).Some? ==> TailsAre(bank, HeaderOf(id, bank).value.plan)
  }

  ghost predicate ErasedIn(bank: seq<byte>, lo: nat, hi: nat) {
    forall i :: lo <= i < hi && i < |bank| ==> bank[i] == 0xFF
  }

  lemma AllIsErasedIn(bank: seq<byte>, lo: nat, hi: nat)
    requires lo <= hi <= |bank|
    ensures All(bank[lo..hi], 0xFF) == ErasedIn(bank, lo, hi)
  {
    if All(bank[lo..hi], 0xFF) {
      forall i | lo <= i < hi ensures bank[i] == 0xFF { assert bank[lo..hi][i - lo] == bank[i]; }
    }
  }

  lemma TailsByIndex(bank: seq<byte>, p: Plan)
    requires |bank| == BANK_SIZE
    ensures TailsAre(bank, p) <==>
            && p.manifestBytes <= SECTOR && p.payloadBytes <= PAYLOAD_MAX
            && ErasedIn(bank, MANIFEST_OFFSET + p.manifestBytes, JOURNAL_OFFSET)
            && ErasedIn(bank, PAYLOAD_OFFSET + p.payloadBytes, RESERVED_OFFSET)
            && ErasedIn(bank, RESERVED_OFFSET, COMMIT_OFFSET)
            && ErasedIn(bank, MARKER_OFFSET + MARKER_BYTES, BANK_SIZE)
  {
    hide All, ErasedIn;
    if p.manifestBytes <= SECTOR && p.payloadBytes <= PAYLOAD_MAX {
      AllIsErasedIn(bank, MANIFEST_OFFSET + p.manifestBytes, JOURNAL_OFFSET);
      AllIsErasedIn(bank, PAYLOAD_OFFSET + p.payloadBytes, RESERVED_OFFSET);
      AllIsErasedIn(bank, RESERVED_OFFSET, COMMIT_OFFSET);
      AllIsErasedIn(bank, MARKER_OFFSET + MARKER_BYTES, BANK_SIZE);
      assert bank[MARKER_OFFSET + MARKER_BYTES..] == bank[MARKER_OFFSET + MARKER_BYTES..BANK_SIZE];
    }
  }

  lemma EraseKeepsErased(t: seq<byte>, t': seq<byte>, off: nat, len: nat, io: IoResult, lo: nat, hi: nat)
    requires ErasedUpTo(t, t', off, len, io) && ErasedIn(t, lo, hi)
    ensures ErasedIn(t', lo, hi)
  {
  }

  lemma EraseKeepsTails(t: seq<byte>, t': seq<byte>, off: nat, len: nat, io: IoResult, p: Plan)
    requires |t| == BANK_SIZE && ErasedUpTo(t, t', off, len, io) && TailsAre(t, p)
    ensures |t'| == BANK_SIZE && TailsAre(t', p)
  {
    hide TailsAre, ErasedIn, ErasedUpTo;
    assert |t'| == |t| by { assert ErasedUpTo(t, t', off, len, io); EraseKeepsLength(t, t', off, len, io); }
    TailsByIndex(t, p);
    TailsByIndex(t', p);
    EraseKeepsErased(t, t', off, len, io, MANIFEST_OFFSET + p.manifestBytes, JOURNAL_OFFSET);
    EraseKeepsErased(t, t', off, len, io, PAYLOAD_OFFSET + p.payloadBytes, RESERVED_OFFSET);
    EraseKeepsErased(t, t', off, len, io, RESERVED_OFFSET, COMMIT_OFFSET);
    EraseKeepsErased(t, t', off, len, io, MARKER_OFFSET + MARKER_BYTES, BANK_SIZE);
  }

  lemma EraseKeepsLength(t: seq<byte>, t': seq<byte>, off: nat, len: nat, io: IoResult)
    requires ErasedUpTo(t, t', off, len, io)
    ensures |t'| == |t|
  {
  }

  /** The octets an update of plan `p` may program: header, manifest, journal, payload, commit record. */
  predicate InContent(off: nat, len: nat, p: Plan) {
    || off + len <= MANIFEST_OFFSET + p.manifestBytes
    || (JOURNAL_OFFSET <= off && off + len <= PAYLOAD_OFFSET + p.payloadBytes)
    || (COMMIT_OFFSET <= off && off + len <= MARKER_OFFSET + MARKER_BYTES)
  }

  lemma WriteKeepsTails(t: seq<byte>, t': seq<byte>, off: nat, data: seq<byte>, io: IoResult, p: Plan)
    requires |t| == BANK_SIZE && WroteUpTo(t, t', off, data, io) && InContent(off, |data|, p) && TailsAre(t, p)
    ensures |t'| == BANK_SIZE && TailsAre(t', p)
  {
    hide TailsAre;
    TailsByIndex(t, p);
    TailsByIndex(t', p);
    assert forall i :: 0 <= i < |t| && (i < off || off + |data| <= i) ==> t'[i] == t[i];
  }

  lemma BlankTails(t: seq<byte>, p: Plan)
    requires |t| == BANK_SIZE && All(t, 0xFF) && PlanIsValid(p)
    ensures TailsAre(t, p)
  {
  }

  // ---- what has been transferred ----

  predicate ManifestStored(env: Env, bank: seq<byte>, p: Plan)
    requires |bank| == BANK_SIZE
  {
    && p.manifestBytes <= SECTOR
    && Crc(Manifest(bank, p.manifestBytes)) == p.manifestCrc && env.sha256(Manifest(bank, p.manifestBytes)) == p.manifestSha
  }

  function BlockOffset(i: nat): nat {
    PAYLOAD_OFFSET + i * BLOCK
  }

  predicate BlockStored(bank: seq<byte>, p: Plan, i: nat)
    requires |bank| == BANK_SIZE
  {
    && i < BLOCK_COUNT && p.payloadBytes <= PAYLOAD_MAX && 0 < BlockLength(p.payloadBytes, i)
    && Crc(bank[BlockOffset(i)..BlockOffset(i) + BlockLength(p.payloadBytes, i)]) == p.blockCrcs[i]
  }

  /** Progress is only ever claimed for octets that are in flash. */
  predicate ProgressSound(env: Env, bank: seq<byte>, p: Plan, manifestComplete: bool, payloadComplete: seq<bool>)
    requires |bank| == BANK_SIZE
  {
    && (manifestComplete ==> ManifestStored(env, bank, p))
    && (forall i :: 0 <= i < |payloadComplete| && payloadComplete[i] ==> BlockStored(bank, p, i))
  }

  /** Where a transfer may still write: nowhere that is already counted as complete. */
  predicate Unclaimed(off: nat, len: nat, manifestComplete: bool, payloadComplete: seq<bool>, block: nat) {
    || (MANIFEST_OFFSET <= off && off + len <= JOURNAL_OFFSET && !manifestComplete)
    || (JOURNAL_OFFSET <= off && off + len <= PAYLOAD_OFFSET)
    || (block < BLOCK_COUNT && block < |payloadComplete| && !payloadComplete[block]
        && BlockOffset(block) <= off && off + len <= BlockOffset(block) + BLOCK)
  }

  lemma BlockFrame(b: seq<byte>, c: seq<byte>, p: Plan, i: nat)
    requires |b| == |c| == BANK_SIZE && i < BLOCK_COUNT && Agree(b, c, BlockOffset(i), BlockOffset(i) + BLOCK)
    ensures BlockStored(b, p, i) == BlockStored(c, p, i)
  {
    hide Crc;
    AgreeSlice(b, c, BlockOffset(i), BlockOffset(i) + BlockLength(p.payloadBytes, i));
  }

  lemma ManifestFrame(env: Env, b: seq<byte>, c: seq<byte>, p: Plan)
    requires |b| == |c| == BANK_SIZE && Agree(b, c, MANIFEST_OFFSET, JOURNAL_OFFSET)
    ensures ManifestStored(env, b, p) == ManifestStored(env, c, p)
  {
    hide Crc;
    if p.manifestBytes <= SECTOR {
      AgreeSlice(b, c, MANIFEST_OFFSET, MANIFEST_OFFSET + p.manifestBytes);
    }
  }

  /** Octets written where nothing is claimed leave every claim true. */
  lemma ProgressKept(env: Env, t: seq<byte>, t': seq<byte>, off: nat, data: seq<byte>, io: IoResult,
                     p: Plan, mc: bool, pc: seq<bool>, block: nat)
    requires |t| == BANK_SIZE && |pc| == BLOCK_COUNT && WroteUpTo(t, t', off, data, io)
    requires Unclaimed(off, |data|, mc, pc, block) || off + |data| <= MANIFEST_OFFSET || COMMIT_OFFSET <= off
    requires ProgressSound(env, t, p, mc, pc)
    ensures |t'| == BANK_SIZE && ProgressSound(env, t', p, mc, pc)
  {
    hide BlockStored, ManifestStored, WroteUpTo;
    assert |t'| == |t| by { WroteOutside(t, t', off, data, io, off, off); }
    if mc {
      WroteOutside(t, t', off, data, io, MANIFEST_OFFSET, JOURNAL_OFFSET);
      ManifestFrame(env, t, t', p);
    }
    forall i | 0 <= i < |pc| && pc[i] ensures BlockStored(t', p, i) {
      WroteOutside(t, t', off, data, io, BlockOffset(i), BlockOffset(i) + BLOCK);
      BlockFrame(t, t', p, i);
    }
  }

  /** Manifest, journal and payload traffic keeps everything that must hold of a staged bank. */
  lemma ContentStep(env: Env, id: BankId, h: Header, t: seq<byte>, o: seq<byte>, t': seq<byte>, off: nat, data: seq<byte>,
                    io: IoResult, mc: bool, pc: seq<bool>, block: nat)
    requires |t| == |o| == BANK_SIZE && |pc| == BLOCK_COUNT && WroteUpTo(t, t', off, data, io)
    requires Updating(env, id, h, t, o) && ProgressSound(env, t, h.plan, mc, pc)
    requires Unclaimed(off, |data|, mc, pc, block)
    ensures |t'| == BANK_SIZE && Updating(env, id, h, t', o) && ProgressSound(env, t', h.plan, mc, pc)
  {
    hide Updating, ProgressSound, WroteUpTo;
    ProgressKept(env, t, t', off, data, io, h.plan, mc, pc, block);
    WroteOutside(t, t', off, data, io, 0, HEADER_BYTES);
    WroteOutside(t, t', off, data, io, COMMIT_OFFSET, BANK_SIZE);
    ContentWrite(env, id, h, t, o, t');
  }

  lemma UpdatingTails(env: Env, id: BankId, h: Header, t: seq<byte>, o: seq<byte>)
    requires |t| == |o| == BANK_SIZE && Updating(env, id, h, t, o) && TailsAre(t, h.plan)
    ensures TailsClean(id, t)
  {
    hide TailsAre, HeaderOf, CommitStage, Validate;
  }

  /** Over matching content the new bundle is current exactly when its whole marker is in flash, under its whole body. */
  lemma CurrentIffMarked(env: Env, id: BankId, h: Header, t: seq<byte>, o: seq<byte>)
    requires |t| == |o| == BANK_SIZE && Updating(env, id, h, t, o) && TailsAre(t, h.plan)
    requires ContentMatches(env, t, h.plan.manifestBytes, h.plan.payloadBytes, h.plan.manifestSha, h.plan.bundleSha)
    ensures ActiveOf(env, id, t, o) == Some(SnapshotFor(id, h)) <==>
            Body(t) == EncodeBody(id, h) && Marker(t) == EncodeMarker(EncodeBody(id, h)[112..116])
  {
    UpdatingIsDurable(env, id, h, t, o);
    CurrentNeedsValid(env, id, h, t, o);
    hide HeaderOf, CommitOf, ContentMatches, TailsErased, EncodeBody, EncodeMarker, PlanIsValid, TransactionInput, Marker, Body, ActiveOf, CommitStage;
    CommitStageDecodes(id, h, t);
    MarkerStarts(EncodeBody(id, h)[112..116], t);
  }

  lemma CurrentNeedsValid(env: Env, id: BankId, h: Header, t: seq<byte>, o: seq<byte>)
    requires |t| == |o| == BANK_SIZE && Updating(env, id, h, t, o)
    ensures ActiveOf(env, id, t, o) == Some(SnapshotFor(id, h)) <==> Validate(env, id, t).Some?
  {
    hide HeaderOf, CommitOf, CommitStage, SelfAuthenticated, PlanIsValid, RecordSettled, ActiveOf;
    UpdatingIsDurable(env, id, h, t, o);
  }

  lemma ValidNamesItsBank(env: Env, id: BankId, bank: seq<byte>)
    requires |bank| == BANK_SIZE
    ensures Validate(env, id, bank).Some? ==> Validate(env, id, bank).value.bank == id
  {
  }

  lemma AgreeTransitive(b: seq<byte>, c: seq<byte>, d: seq<byte>, lo: nat, hi: nat)
    requires |b| == |c| == |d| && Agree(b, c, lo, hi) && Agree(c, d, lo, hi)
    ensures Agree(b, d, lo, hi)
  {
  }

  /** Two completed erases leave a blank bank. */
  lemma ErasedWhole(t0: seq<byte>, t1: seq<byte>, t2: seq<byte>)
    requires |t0| == BANK_SIZE
    requires ErasedUpTo(t0, t1, COMMIT_OFFSET, SECTOR, IoOk) && ErasedUpTo(t1, t2, 0, COMMIT_OFFSET, IoOk)
    ensures |t2| == BANK_SIZE && All(t2, 0xFF)
  {
    WroteAll(t0, t1, COMMIT_OFFSET, Fill(SECTOR, 0xFF), IoOk);
    WroteAll(t1, t2, 0, Fill(COMMIT_OFFSET, 0xFF), IoOk);
    WroteOutside(t1, t2, 0, Fill(COMMIT_OFFSET, 0xFF), IoOk, COMMIT_OFFSET, BANK_SIZE);
    hide WroteUpTo;
    forall i | 0 <= i < |t2| ensures t2[i] == 0xFF {
      if i < COMMIT_OFFSET { assert t2[0..COMMIT_OFFSET][i] == 0xFF; } else { assert t1[COMMIT_OFFSET..COMMIT_OFFSET + SECTOR][i - COMMIT_OFFSET] == 0xFF; }
    }
  }

  lemma ErasedAtOnce(t: seq<byte>, t': seq<byte>)
    requires |t| == BANK_SIZE && ErasedUpTo(t, t', 0, BANK_SIZE, IoOk)
    ensures |t'| == BANK_SIZE && All(t', 0xFF)
  {
    WroteAll(t, t', 0, Fill(BANK_SIZE, 0xFF), IoOk);
    assert t'[0..BANK_SIZE] == t';
  }

  lemma BlankTakesAnything(t: seq<byte>, off: nat, data: seq<byte>)
    requires off + |data| <= |t| && ErasedIn(t, off, off + |data|)
    ensures CanProgram(t, off, data)
  {
    AllIsErasedIn(t, off, off + |data|);
    ErasedTakesAnything(t, off, data);
  }

  lemma FilledTakes(t: seq<byte>, off: nat, len: nat, data: seq<byte>)
    requires off + len <= |t| && t[off..off + len] == Fill(len, 0xFF) && |data| <= len
    ensures CanProgram(t, off, data)
  {
    forall i | off <= i < off + |data| ensures t[i] == 0xFF { assert t[off..off + len][i - off] == 0xFF; }
    BlankTakesAnything(t, off, data);
  }

  /** Clearing bits is always possible. */
  lemma ClearedTakes(t: seq<byte>, off: nat, b: byte)
    requires off < |t| && t[off] & b == b
    ensures CanProgram(t, off, [b])
  {
  }

  lemma JournalOctetClears(current: byte, i: nat)
    ensures current & JournalOctet(current, i) == JournalOctet(current, i)
  {
    MaskedIsCleared(current, !((1 as bv8) << (i % 8)));
  }

  lemma MaskedIsCleared(current: byte, mask: byte)
    ensures current & (current & mask) == current & mask && current & 0 == 0
  {
  }

  /** The cells of the commit record can take the record of `h`: they are erased, or hold part of it already. */
  predicate TakesRecord(id: BankId, h: Header, bank: seq<byte>)
    requires |bank| == BANK_SIZE
  {
    CanProgram(bank, COMMIT_OFFSET, EncodeBody(id, h)) && CanProgram(bank, MARKER_OFFSET, EncodeMarker(EncodeBody(id, h)[112..116]))
  }

  /** An update whose header is in flash can be committed without erasing anything. */
  predicate RecordTakes(id: BankId, bank: seq<byte>)
    requires |bank| == BANK_SIZE
  {
    HeaderOf(id, bank).Some? ==> TakesRecord(id, HeaderOf(id, bank).value, bank)
  }

  lemma EraseStillTakes(t: seq<byte>, t': seq<byte>, off: nat, len: nat, io: IoResult, off2: nat, data: seq<byte>)
    requires ErasedUpTo(t, t', off, len, io) && off2 + |data| <= |t| && CanProgram(t, off2, data)
    ensures CanProgram(t', off2, data)
  {
    forall i | 0 <= i < |data| ensures t'[off2 + i] & data[i] == data[i] {
      AndFacts(0, data[i]);
      assert t'[off2 + i] == t[off2 + i] || t'[off2 + i] == 0xFF;
    }
  }

  /** The marker is as before or has lost its first octet; no other one can have come into being. */
  predicate NoNewMarker(t: seq<byte>, t': seq<byte>)
    requires |t| == |t'| == BANK_SIZE
  {
    Marker(t') == Marker(t) || MarkerBlank(t')
  }

  lemma NoNewMarkerTransitive(t0: seq<byte>, t1: seq<byte>, t2: seq<byte>)
    requires |t0| == |t1| == |t2| == BANK_SIZE && NoNewMarker(t0, t1) && NoNewMarker(t1, t2)
    ensures NoNewMarker(t0, t2)
  {
    assert Marker(t1)[0] == t1[MARKER_OFFSET] && Marker(t2)[0] == t2[MARKER_OFFSET];
  }

  lemma EraseMakesNoMarker(t: seq<byte>, t': seq<byte>, off: nat, len: nat, io: IoResult)
    requires |t| == |t'| == BANK_SIZE && ErasedUpTo(t, t', off, len, io)
    requires (off == COMMIT_OFFSET && len == SECTOR) || off + len <= COMMIT_OFFSET
    ensures NoNewMarker(t, t')
  {
    if off + len <= COMMIT_OFFSET {
      WroteOutside(t, t', off, Fill(len, 0xFF), io, COMMIT_OFFSET, BANK_SIZE);
      MarkerFrame(t, t') by { assert Agree(t, t', MARKER_OFFSET, BANK_SIZE); }
    } else {
      var k: nat :| k <= len && LaidOver(t, t', off, Fill(len, 0xFF), k);
      if k <= BODY_BYTES {
        assert Agree(t, t', MARKER_OFFSET, BANK_SIZE);
        MarkerFrame(t, t');
      } else {
        assert t'[MARKER_OFFSET] == 0xFF;
      }
    }
  }

  lemma EraseKeepsRecordTakes(id: BankId, t: seq<byte>, t': seq<byte>, off: nat, len: nat, io: IoResult)
    requires |t| == |t'| == BANK_SIZE && ErasedUpTo(t, t', off, len, io) && RecordTakes(id, t)
    requires HeaderOf(id, t').None? || HeaderOf(id, t') == HeaderOf(id, t)
    ensures RecordTakes(id, t')
  {
    hide HeaderOf, EncodeBody, EncodeMarker, ErasedUpTo, CanProgram;
    if HeaderOf(id, t').Some? {
      var body := EncodeBody(id, HeaderOf(id, t).value);
      EraseStillTakes(t, t', off, len, io, COMMIT_OFFSET, body);
      EraseStillTakes(t, t', off, len, io, MARKER_OFFSET, EncodeMarker(body[112..116]));
    }
  }

  lemma BlankTakesRecord(id: BankId, h: Header, bank: seq<byte>)
    requires |bank| == BANK_SIZE && ErasedIn(bank, COMMIT_OFFSET, BANK_SIZE)
    ensures TakesRecord(id, h, bank)
  {
    hide EncodeBody, EncodeMarker, CanProgram;
    var body := EncodeBody(id, h);
    BlankTakesAnything(bank, COMMIT_OFFSET, body);
    BlankTakesAnything(bank, MARKER_OFFSET, EncodeMarker(body[112..116]));
  }

  /** Cells that could take the data still can after part of it was written, or after something was written elsewhere. */
  lemma StillTakes(t: seq<byte>, t': seq<byte>, off: nat, data: seq<byte>, io: IoResult, off2: nat, data2: seq<byte>)
    requires WroteUpTo(t, t', off, data, io) && off2 + |data2| <= |t| && CanProgram(t, off2, data2)
    requires (off2 == off && data2 == data) || off2 + |data2| <= off || off + |data| <= off2
    ensures CanProgram(t', off2, data2)
  {
    if off2 == off && data2 == data {
      var k: nat :| k <= |data| && LaidOver(t, t', off, data, k);
      TornStillTakes(t, off, data, k);
    } else {
      WroteOutside(t, t', off, data, io, off2, off2 + |data2|);
      TakesInAgreement(t, t', off2, data2);
    }
  }

  lemma TakesInAgreement(t: seq<byte>, t': seq<byte>, off: nat, data: seq<byte>)
    requires |t| == |t'| && off + |data| <= |t| && Agree(t, t', off, off + |data|) && CanProgram(t, off, data)
    ensures CanProgram(t', off, data)
  {
  }

  lemma BlankIsErased(t: seq<byte>, lo: nat, hi: nat)
    requires All(t, 0xFF)
    ensures ErasedIn(t, lo, hi)
  {
  }

  lemma BlankBank(t: seq<byte>, h: Header)
    requires |t| == BANK_SIZE && All(t, 0xFF)
    ensures All(t[..4], 0xFF)
    ensures PlanIsValid(h.plan) ==> TailsAre(t, h.plan)
  {
    if PlanIsValid(h.plan) { BlankTails(t, h.plan); }
  }

  lemma StagedPlan(env: Env, id: BankId, h: Header, t: seq<byte>, o: seq<byte>)
    requires |t| == |o| == BANK_SIZE && Updating(env, id, h, t, o)
    ensures PlanIsValid(h.plan) && SelfAuthenticated(env, id, h)
  {
  }

  lemma StagedIs(env: Env, id: BankId, h: Header, t: seq<byte>, o: seq<byte>)
    requires |t| == |o| == BANK_SIZE && Updating(env, id, h, t, o) && HeaderOf(id, t).Some?
    ensures HeaderOf(id, t) == Some(h)
  {
  }

  lemma EraseKeepsTailsClean(id: BankId, t: seq<byte>, t': seq<byte>, off: nat, len: nat, io: IoResult)
    requires |t| == |t'| == BANK_SIZE && ErasedUpTo(t, t', off, len, io)
    requires HeaderOf(id, t').Some? ==> HeaderOf(id, t') == HeaderOf(id, t)
    ensures TailsClean(id, t) ==> TailsClean(id, t')
  {
    hide HeaderOf, TailsAre, ErasedUpTo;
    if TailsClean(id, t) && HeaderOf(id, t').Some? {
      EraseKeepsTails(t, t', off, len, io, HeaderOf(id, t).value.plan);
    }
  }

  lemma UncommittedIsInvalid(env: Env, id: BankId, bank: seq<byte>)
    requires |bank| == BANK_SIZE && CommitOf(id, bank).None?
    ensures Validate(env, id, bank).None?
  {
  }

  /** A header just written over a blank bank: still nothing committed there, and the tails are erased. */
  lemma HeaderWritten(env: Env, id: BankId, h: Header, t: seq<byte>, o: seq<byte>, t': seq<byte>)
    requires |t| == |o| == |t'| == BANK_SIZE && All(t, 0xFF) && Updating(env, id, h, t', o) && TailsAre(t', h.plan)
    requires Agree(t, t', HEADER_BYTES, BANK_SIZE)
    ensures CommitOf(id, t).None? && CommitOf(id, t').None?
    ensures Validate(env, id, t).None? && Validate(env, id, t').None? && TailsClean(id, t') && Durable(env, id, t', o)
    ensures ActiveOf(env, id, t', o) == Validate(env, id.Other(), o)
    ensures MarkerBlank(t')
  {
    hide CommitOf, Validate, Updating, TailsAre, TailsClean, Durable, ActiveOf;
    CommitNeedsVersion(id, t);
    CommitFrame(id, t, t');
    UncommittedIsInvalid(env, id, t);
    UncommittedIsInvalid(env, id, t');
    UpdatingIsDurable(env, id, h, t', o);
    UpdatingTails(env, id, h, t', o);
  }

  lemma NothingClaimed(env: Env, bank: seq<byte>, p: Plan, pc: seq<bool>)
    requires |bank| == BANK_SIZE && forall i :: 0 <= i < |pc| ==> !pc[i]
    ensures ProgressSound(env, bank, p, false, pc)
  {
  }

  lemma BlockFits(payloadBytes: nat, i: nat)
    requires payloadBytes <= PAYLOAD_MAX && BlockLength(payloadBytes, i) > 0
    ensures i < BLOCK_COUNT && BlockLength(payloadBytes, i) <= BLOCK && BlockOffset(i) + BLOCK <= RESERVED_OFFSET
    ensures BlockOffset(i) + BlockLength(payloadBytes, i) <= PAYLOAD_OFFSET + payloadBytes
  {
  }

  lemma BlockCountFits(p: Plan)
    requires PlanIsValid(p)
    ensures BlockCount(p.payloadBytes) <= BLOCK_COUNT
  {
  }

  lemma BlockCountLengths(p: Plan, i: nat)
    ensures BlockLength(p.payloadBytes, i) > 0 <==> i < BlockCount(p.payloadBytes)
  {
  }

  lemma NoBlockBeyond(bank: seq<byte>, p: Plan, i: nat)
    requires |bank| == BANK_SIZE && BlockCount(p.payloadBytes) <= i
    ensures !BlockStored(bank, p, i)
  {
    BlockCountLengths(p, i);
  }

  lemma HeaderTails(id: BankId, bank: seq<byte>)
    requires |bank| == BANK_SIZE && TailsClean(id, bank) && HeaderOf(id, bank).Some?
    ensures TailsAre(bank, HeaderOf(id, bank).value.plan)
  {
  }

  /** A complete header one generation ahead of everything valid can be carried on from where it stopped. */
  lemma ResumedIsUpdating(env: Env, id: BankId, h: Header, t: seq<byte>, o: seq<byte>)
    requires |t| == |o| == BANK_SIZE && Durable(env, id, t, o) && Validate(env, id, t).None?
    requires HeaderOf(id, t) == Some(h) && SelfAuthenticated(env, id, h) && h.generation == h.plan.baseGeneration + 1
    requires match Validate(env, id.Other(), o)
             case None => h.plan.baseGeneration == 0
             case Some(s) => s.generation == h.plan.baseGeneration && s.bundleSha == h.plan.baseBundle
    ensures Updating(env, id, h, t, o)
  {
    hide HeaderOf, CommitOf, ContentMatches, TailsErased, DeriveTxId, CommitStage;
  }

  /** A valid bank that is not current may always be reclaimed: its header can be no newer than its commit. */
  lemma CommittedIsReclaimable(env: Env, id: BankId, t: seq<byte>, o: seq<byte>)
    requires |t| == |o| == BANK_SIZE && Durable(env, id, t, o)
    requires Validate(env, id, t).Some? && ActiveOf(env, id, t, o) == Validate(env, id.Other(), o)
    requires Validate(env, id.Other(), o).Some? ==> Validate(env, id.Other(), o).value.bank == id.Other()
    ensures Reclaimable(env, id, t, o)
  {
    hide HeaderOf, CommitOf, ContentMatches, TailsErased, DeriveTxId, CommitStage;
    if HeaderOf(id, t).Some? && CommitStage(id, HeaderOf(id, t).value, t) {
      CommittedGeneration(id, HeaderOf(id, t).value, t);
    }
  }

  lemma ErasedIsWritten(t: seq<byte>, t': seq<byte>, off: nat, len: nat, io: IoResult)
    requires ErasedUpTo(t, t', off, len, io)
    ensures WroteUpTo(t, t', off, Fill(len, 0xFF), io)
  {
  }

  /** Nothing but the given region and the journal sector differs. */
  ghost predicate SameOutside(t: seq<byte>, t': seq<byte>, off: nat, len: nat) {
    && |t'| == |t|
    && forall i :: 0 <= i < |t| && !(off <= i < off + len) && !(JOURNAL_OFFSET <= i < PAYLOAD_OFFSET) ==> t'[i] == t[i]
  }

  lemma RegionWritten(t: seq<byte>, t': seq<byte>, off: nat, data: seq<byte>, io: IoResult, lo: nat, len: nat)
    requires WroteUpTo(t, t', off, data, io)
    requires (lo <= off && off + |data| <= lo + len) || (JOURNAL_OFFSET <= off && off + |data| <= PAYLOAD_OFFSET)
    ensures SameOutside(t, t', lo, len)
  {
  }

  lemma SameOutsideTransitive(a: seq<byte>, b: seq<byte>, c: seq<byte>, off: nat, len: nat)
    requires SameOutside(a, b, off, len) && SameOutside(b, c, off, len)
    ensures SameOutside(a, c, off, len)
  {
  }

  /** The journal octet once block `i` is recorded: one more bit cleared. */
  function JournalOctet(current: byte, i: nat): byte {
    current & !((1 as bv8) << (i % 8))
  }

  function JournalOffset(i: nat): nat {
    JOURNAL_OFFSET + 1 + i / 8
  }

  lemma SameOutsideReflexive(t: seq<byte>, off: nat, len: nat)
    ensures SameOutside(t, t, off, len) && (forall lo: nat, hi: nat :: Agree(t, t, lo, hi))
  {
  }

  lemma AgreeWithin(b: seq<byte>, c: seq<byte>, lo: nat, hi: nat, lo': nat, hi': nat)
    requires |b| == |c| && Agree(b, c, lo, hi) && lo <= lo' && hi' <= hi
    ensures Agree(b, c, lo', hi')
  {
  }

  lemma AgreeAt(b: seq<byte>, c: seq<byte>, lo: nat, hi: nat, i: nat)
    requires |b| == |c| && Agree(b, c, lo, hi) && lo <= i < hi && i < |b|
    ensures b[i] == c[i]
  {
  }

  lemma BodyIs(bank: seq<byte>)
    requires |bank| == BANK_SIZE
    ensures Body(bank) == bank[COMMIT_OFFSET..COMMIT_OFFSET + BODY_BYTES]
    ensures Marker(bank) == bank[MARKER_OFFSET..MARKER_OFFSET + MARKER_BYTES]
  {
  }

  lemma MarkerFrame(t: seq<byte>, t': seq<byte>)
    requires |t| == |t'| == BANK_SIZE && Agree(t, t', MARKER_OFFSET, BANK_SIZE)
    ensures Marker(t') == Marker(t)
  {
  }

  lemma SameContent(env: Env, p: Plan, t: seq<byte>, t': seq<byte>)
    requires |t| == |t'| == BANK_SIZE && Agree(t, t', 0, COMMIT_OFFSET)
    requires p.manifestBytes <= SECTOR && p.payloadBytes <= PAYLOAD_MAX
    ensures ContentMatches(env, t, p.manifestBytes, p.payloadBytes, p.manifestSha, p.bundleSha) ==
            ContentMatches(env, t', p.manifestBytes, p.payloadBytes, p.manifestSha, p.bundleSha)
  {
    hide FormatOk, BundleDigest;
    AgreeSlice(t, t', MANIFEST_OFFSET, MANIFEST_OFFSET + p.manifestBytes);
    AgreeSlice(t, t', PAYLOAD_OFFSET, PAYLOAD_OFFSET + p.payloadBytes);
  }

  lemma HeaderDroppedWhileOpen(env: Env, id: BankId, h: Header, t: seq<byte>, o: seq<byte>, t': seq<byte>)
    requires |t| == |o| == |t'| == BANK_SIZE && Updating(env, id, h, t, o)
    requires HeaderOf(id, t').None? || t' == t
    requires Agree(t, t', COMMIT_OFFSET, MARKER_OFFSET + MARKER_BYTES)
    ensures Updating(env, id, h, t', o)
  {
    hide HeaderOf, Validate, SelfAuthenticated, PlanIsValid, RecordSettled;
    CommitStageFrame(id, h, t, t');
  }

  lemma StagedActive(env: Env, id: BankId, h: Header, t: seq<byte>, t': seq<byte>, o: seq<byte>)
    requires |t| == |t'| == |o| == BANK_SIZE && Updating(env, id, h, t, o) && Updating(env, id, h, t', o)
    requires Validate(env, id, t) == Validate(env, id, t')
    ensures ActiveOf(env, id, t, o) == ActiveOf(env, id, t', o)
  {
    hide Updating, Validate;
  }

  /** Full validation subsumes the cheap test for readers. */
  lemma ValidIsReadable(env: Env, id: BankId, bank: seq<byte>)
    requires |bank| == BANK_SIZE
    ensures Validate(env, id, bank).Some? ==> CommitOf(id, bank) == Validate(env, id, bank) && FastReadable(env, id, bank)
    ensures FastReadable(env, id, bank) ==> CommitOf(id, bank).Some?
  {
    hide CommitOf, TailsErased, FormatOk, BundleDigest;
  }

  /** Where every history may start: two factory-blank banks. */
  lemma BlankFlashIsDurable(env: Env, a: seq<byte>, b: seq<byte>)
    requires |a| == |b| == BANK_SIZE && All(a, 0xFF) && All(b, 0xFF)
    ensures Durable(env, A, a, b) && TailsClean(A, a) && TailsClean(B, b)
    ensures CommitOf(A, a).None? && CommitOf(B, b).None? && ActiveOf(env, A, a, b).None?
  {
    hide HeaderOf, CommitOf, CommitStage, TailsAre;
    HeaderNeedsMagic(A, a);
    HeaderNeedsMagic(B, b);
    CommitNeedsVersion(A, a);
    CommitNeedsVersion(B, b);
  }
}
