/** The power-fail-safe A/B sound store: staging, resume, commit, abort, discard and read leases over two flash banks. */
module SoundAssetStore {
  import opened Options
  import opened Bytes
  import opened Sets
  import opened FlashStorage
  import opened BankFormat
  import opened BankSelection
  import opened StoreInvariants
  import Crc32

  const IO_BUFFER: nat := 256
  const MAX_LEASES: nat := 8

  datatype StoreResult =
    | StoreOk | StoreInvalidArgument | StoreUnavailable | StoreIoError | InvalidBank | InvalidStaging | InvalidManifest
    | CrcMismatch | HashMismatch | Incomplete | Busy | BankPinned | StaleBase | GenerationExhausted
    | TransactionMismatch | SplitBrain | FactoryBlank

  datatype Identity = Identity(generation: u64, bank: BankId, txid: TxId)

  datatype Lease = Lease(leaseId: u64, bank: BankId, generation: u64, bundleSha: Digest)

  datatype Outcome = StillOpen(identity: Identity) | Committed(s: Snapshot) | Unknown

  function MapIo(io: IoResult): StoreResult {
    match io
    case IoOk => StoreOk
    case IoUnavailable => StoreUnavailable
    case IoInvalidArgument => StoreInvalidArgument
    case IoOutOfBounds => StoreInvalidArgument
    case IoNotAligned => StoreInvalidArgument
    case IoError => StoreIoError
  }

  /** Verdicts that say "this bank holds nothing valid" rather than "could not tell". */
  predicate Nonfatal(r: StoreResult) {
    r.FactoryBlank? || r.InvalidBank? || r.InvalidManifest? || r.HashMismatch?
  }

  /** Bounded reads that cover a region. */
  function Reads(len: nat): nat {
    (len + IO_BUFFER - 1) / IO_BUFFER
  }

  predicate BaseMatches(plan: Plan, s: Selection) {
    match s.active
    case Some(a) => plan.baseGeneration == a.generation && plan.baseBundle == a.bundleSha
    case None => plan.baseGeneration == 0 && All(plan.baseBundle, 0)
  }

  /** A staged transaction that would be the very next generation after what is selected. */
  predicate Follows(h: Header, s: Selection) {
    match s.active
    case Some(a) => h.plan.baseGeneration == a.generation && h.plan.baseBundle == a.bundleSha && h.generation == a.generation + 1
    case None => h.plan.baseGeneration == 0 && All(h.plan.baseBundle, 0) && h.generation == 1
  }

  /** The generation that an update of what is selected announces. */
  function NextGeneration(active: Option<Snapshot>): nat {
    match active case Some(a) => a.generation + 1 case None => 1
  }

  predicate PinnedIn(leases: seq<Option<Lease>>, id: BankId) {
    exists i :: 0 <= i < |leases| && leases[i].Some? && leases[i].value.bank == id
  }

  predicate InUse(leases: seq<Option<Lease>>, id: u64) {
    exists i :: 0 <= i < |leases| && leases[i].Some? && leases[i].value.leaseId == id
  }

  predicate LeasesDistinct(leases: seq<Option<Lease>>) {
    && |leases| == MAX_LEASES
    && (forall i, j :: 0 <= i < j < |leases| && leases[i].Some? && leases[j].Some? ==>
          leases[i].value.leaseId != leases[j].value.leaseId)
  }

  /** What bank `id` holds stands in the way of no update, or is of this very one. */
  ghost predicate Accommodates(env: Env, id: BankId, bank: seq<byte>, plan: Plan, active: Option<Snapshot>)
    requires |bank| == BANK_SIZE
  {
    var h := HeaderOf(id, bank);
    || Validate(env, id, bank).Some?
    || All(bank[..HEADER_BYTES], 0xFF)
    || (h.Some? && SelfAuthenticated(env, id, h.value)
        && ((active.Some? && h.value.generation <= active.value.generation)
            || (h.value.generation == plan.baseGeneration + 1 && h.value.plan == plan)))
  }

  /** Both commit records still fully erased: no sound preference has ever been committed. */
  predicate CommitBlank(bank: seq<byte>)
    requires |bank| == BANK_SIZE
  {
    All(Body(bank), 0xFF) && All(Marker(bank), 0xFF)
  }

  function Disposition(s: Selection, blank: bool): StoreResult {
    if s.splitBrain then SplitBrain else if s.active.Some? then StoreOk else if blank then FactoryBlank else StoreUnavailable
  }

  const NO_UPDATE: Header :=
    Header(0, Fill(16, 0), Plan(0, Fill(32, 0), 0, 0, 0, Fill(32, 0), Fill(32, 0), seq(BLOCK_COUNT, _ => 0)))

  predicate Leased(l: Lease, s: Snapshot) {
    l.leaseId != 0 && l.bank == s.bank && l.generation == s.generation && l.bundleSha == s.bundleSha
  }

  function NonZero(id: u64): u64 {
    if id == 0 then 1 else id
  }

  /** How many increments, wrapping past zero, lead from `start` to `id`. */
  ghost function StepsFrom(start: u64, id: u64): int {
    if id >= start then id - start else id + U64_MAX - start
  }

  function Used(leases: seq<Option<Lease>>): set<u64> {
    if leases == [] then {}
    else Used(leases[1..]) + (if leases[0].Some? then {leases[0].value.leaseId} else {})
  }

  lemma {:induction false} UsedMeansInUse(leases: seq<Option<Lease>>, id: u64)
    ensures id in Used(leases) <==> InUse(leases, id)
  {
    if leases != [] {
      UsedMeansInUse(leases[1..], id);
      if InUse(leases, id) && !(leases[0].Some? && leases[0].value.leaseId == id) {
        var i :| 0 <= i < |leases| && leases[i].Some? && leases[i].value.leaseId == id;
        assert leases[1..][i - 1] == leases[i];
      }
    }
  }

  lemma {:induction false} UsedIsBounded(leases: seq<Option<Lease>>)
    ensures |Used(leases)| <= |leases|
  {
    if leases != [] { UsedIsBounded(leases[1..]); }
  }

  lemma LeaseAdded(leases: seq<Option<Lease>>, slot: nat, l: Lease)
    requires LeasesDistinct(leases) && slot < |leases| && leases[slot].None? && !InUse(leases, l.leaseId)
    ensures LeasesDistinct(leases[slot := Some(l)])
    ensures forall id :: PinnedIn(leases[slot := Some(l)], id) <==> PinnedIn(leases, id) || l.bank == id
  {
    var now := leases[slot := Some(l)];
    assert now[slot] == Some(l);
    forall id | PinnedIn(leases, id) ensures PinnedIn(now, id) {
      var i :| 0 <= i < |leases| && leases[i].Some? && leases[i].value.bank == id;
      assert now[i] == leases[i];
    }
  }

  class Store {
    const flash: BankStorage
    const env: Env

    var selection: Selection
    var scanned: bool
    var readSelection: Selection
    var readScanned: bool
    var readResult: StoreResult
    var updateActive: bool
    var updateBank: BankId
    var update: Header
    var payloadComplete: seq<bool>
    var manifestComplete: bool
    var leases: seq<Option<Lease>>
    var nextLeaseId: u64

    /** The read selection came from the cheap scan while some bank passed that scan without being valid. */
    ghost var unbackedRead: bool
    /** No corruption from outside has been suffered since the banks were known to be clean. */
    ghost var undamaged: bool

    /** No fault is still to come. */
    ghost predicate Calm()
      reads flash`faults
    {
      flash.faults == []
    }

    /** Of the next `n` flash operations exactly the last fails. */
    ghost predicate LastOf(n: nat)
      reads flash`faults
    {
      0 < n <= |flash.faults| && flash.Quiet(n - 1) && flash.faults[n - 1].Cut?
    }

    ghost function Bank(id: BankId): (s: seq<byte>)
      reads flash.Cells(id)
      requires flash.Valid()
      ensures |s| == BANK_SIZE
    {
      flash.Bank(id)
    }

    ghost function Valid(id: BankId): Option<Snapshot>
      reads flash.Cells(id)
      requires flash.Valid()
    {
      Validate(env, id, Bank(id))
    }

    /** What a restart followed by a scan would select right now. */
    ghost function Active(): Option<Snapshot>
      reads flash.bankA, flash.bankB
      requires flash.Valid()
    {
      ActiveOf(env, A, Bank(A), Bank(B))
    }

    ghost predicate Pinned(id: BankId)
      reads this`leases
    {
      PinnedIn(leases, id)
    }

    /** The cached read selection names the very bank that is being rewritten. */
    ghost predicate StaleRead()
      reads this`updateActive, this`updateBank, this`readScanned, this`readSelection
    {
      updateActive && readScanned && readSelection.active.Some? && readSelection.active.value.bank == updateBank
    }

    /** What readers rely on was taken while the cheap scan and full validation agreed. */
    ghost predicate ReadsFresh()
      reads this`readScanned, this`unbackedRead
    {
      readScanned ==> !unbackedRead
    }

    /** Readers see what they saw, or what a full scan has just found, or both selections are forgotten. */
    ghost predicate CachesAre(known: bool, s: Selection, readKnown: bool)
      reads this`scanned, this`readSelection, this`readScanned, this`unbackedRead
    {
      || (scanned == known && readSelection == s && readScanned == readKnown)
      || (readScanned && !unbackedRead)
      || (!scanned && !readScanned)
    }

    /** No header but the bank's old one, or one of generation `next` before an otherwise erased bank. */
    ghost predicate StagedAnew(id: BankId, t: seq<byte>, next: nat)
      reads flash.Cells(id)
      requires flash.Valid() && |t| == BANK_SIZE
    {
      || Staging(id).None? || Staging(id) == HeaderOf(id, t)
      || (Staging(id).value.generation == next && ErasedIn(Bank(id), HEADER_BYTES, BANK_SIZE))
    }

    /** Whatever the cheap scan accepts is valid. */
    ghost predicate Backed()
      reads flash.bankA, flash.bankB
      requires flash.Valid()
    {
      (Readable(A) ==> Valid(A).Some?) && (Readable(B) ==> Valid(B).Some?)
    }

    ghost predicate Inv()
      reads this, flash.bankA, flash.bankB
      ensures Inv() ==> flash.Valid()
    {
      && flash.Valid()
      && |payloadComplete| == BLOCK_COUNT && LeasesDistinct(leases)
      && Durable(env, A, Bank(A), Bank(B))
      && (updateActive ==> Staged())
      && (scanned ==> CacheExact())
      && ReadCacheSound()
      && (undamaged ==> TailsClean(A, Bank(A)) && TailsClean(B, Bank(B)))
    }

    ghost predicate Staged()
      reads this`updateBank, this`update, this`manifestComplete, this`payloadComplete, this`undamaged, flash.bankA, flash.bankB
      requires flash.Valid()
    {
      && Updating(env, updateBank, update, Bank(updateBank), Bank(updateBank.Other()))
      && ProgressSound(env, Bank(updateBank), update.plan, manifestComplete, payloadComplete)
      && (undamaged ==> TailsAre(Bank(updateBank), update.plan))
    }

    /** The cached selection is what validation finds, except that a bank being rewritten counts as invalid. */
    ghost predicate CacheExact()
      reads this`selection, this`updateActive, this`updateBank, flash.bankA, flash.bankB
      requires flash.Valid()
    {
      && selection == SelectBanks(selection.bankA, selection.bankB)
      && CachedRight(A) && CachedRight(B)
    }

    ghost predicate CachedRight(id: BankId)
      reads this`selection, this`updateActive, this`updateBank, flash.bankA, flash.bankB
      requires flash.Valid()
    {
      selection.Of(id) == if updateActive && id == updateBank then None else Valid(id)
    }

    /** Unless it was taken from an unbacked bank, the read selection never disagrees with the update path. */
    ghost predicate ReadCacheSound()
      reads this`scanned, this`selection, this`readScanned, this`readSelection, this`readResult, this`unbackedRead,
            this`updateActive, this`updateBank
    {
      && (readScanned ==> (readResult.StoreOk? <==> readSelection.active.Some?) && !readResult.Busy?)
      && (readScanned && !unbackedRead ==>
            && (scanned ==> readSelection.active == selection.active)
            && (updateActive && readSelection.active.Some? ==> readSelection.active.value.bank != updateBank))
    }

    constructor (flash: BankStorage, env: Env)
      requires flash.Valid() && Durable(env, A, flash.Bank(A), flash.Bank(B))
      ensures this.flash == flash && this.env == env
      ensures Inv() && !updateActive && !scanned && !readScanned && ReadsFresh() && (forall id :: !Pinned(id))
      ensures undamaged == (TailsClean(A, flash.Bank(A)) && TailsClean(B, flash.Bank(B)))
    {
      hide Validate, HeaderOf, CommitOf, Durable, TailsClean, SelectBanks, Updating, ProgressSound, TailsAre;
      this.flash, this.env := flash, env;
      selection, scanned, readSelection, readScanned := NOTHING_SELECTED, false, NOTHING_SELECTED, false;
      readResult := StoreUnavailable;
      updateActive, updateBank, update := false, A, NO_UPDATE;
      payloadComplete, manifestComplete := seq(BLOCK_COUNT, _ => false), false;
      leases, nextLeaseId := seq(MAX_LEASES, _ => None), 1;
      unbackedRead, undamaged := false, TailsClean(A, flash.Bank(A)) && TailsClean(B, flash.Bank(B));
    }

    // ---- bounded reads ----

    method ReadRegion(id: BankId, off: nat, len: nat) returns (r: StoreResult, data: seq<byte>)
      requires flash.Valid() && InRange(off, len)
      modifies flash`faults
      ensures r.StoreOk? || r.StoreIoError?
      ensures r.StoreOk? ==> data == Bank(id)[off..off + len]
      ensures old(Calm()) ==> Calm() && !r.StoreIoError?
      ensures old(flash.Quiet(Reads(len))) ==> r.StoreOk? && flash.faults == After(old(flash.faults), Reads(len))
    {
      data := [];
      ghost var k := 0;
      while |data| < len
        invariant |data| <= len && data == Bank(id)[off..off + |data|]
        invariant old(Calm()) ==> Calm()
        invariant |data| == Min(k * IO_BUFFER, len) && (|data| < len ==> k < Reads(len)) && (|data| == len ==> k == Reads(len))
        invariant old(flash.Quiet(Reads(len))) ==> flash.faults == After(old(flash.faults), k)
      {
        var io, chunk := flash.Read(id, off + |data|, Min(IO_BUFFER, len - |data|));
        if !io.IoOk? { return StoreIoError, []; }
        data := data + chunk;
        k := k + 1;
      }
      r := StoreOk;
    }

    method RegionCrc(id: BankId, off: nat, len: nat) returns (ok: bool, crc: bv32)
      requires flash.Valid() && InRange(off, len)
      modifies flash`faults
      ensures ok ==> crc == Crc32.Crc(Bank(id)[off..off + len])
      ensures old(Calm()) ==> Calm() && ok
      ensures old(flash.Quiet(Reads(len))) ==> ok && flash.faults == After(old(flash.faults), Reads(len))
      ensures len > 0 && old(flash.NextFault()).Cut? ==> !ok
    {
      hide Crc32.Absorb, Crc32.Crc;
      ghost var region := Bank(id)[off..off + len];
      var state: bv32 := 0xFFFF_FFFF;
      var consumed := 0;
      ghost var k := 0;
      Crc32.AbsorbNothing(state);
      while consumed < len
        invariant consumed <= len && state == Crc32.Absorb(0xFFFF_FFFF, region[..consumed])
        invariant old(Calm()) ==> Calm()
        invariant consumed == Min(k * IO_BUFFER, len) && (consumed < len ==> k < Reads(len)) && (consumed == len ==> k == Reads(len))
        invariant old(flash.Quiet(Reads(len))) ==> flash.faults == After(old(flash.faults), k)
        invariant k == 0 ==> flash.faults == old(flash.faults)
        invariant k > 0 ==> old(flash.NextFault()).NoFault?
      {
        var amount := Min(IO_BUFFER, len - consumed);
        var ok', chunk := ReadChunk(id, off, len, consumed, amount);
        if !ok' { return false, 0; }
        state := Crc32.Update(state, chunk);
        Crc32.AbsorbConcat(0xFFFF_FFFF, region[..consumed], chunk);
        consumed, k := consumed + amount, k + 1;
      }
      assert region[..len] == region;
      ok, crc := true, Crc32.Finish(state, region);
    }

    method VerifyErased(id: BankId, off: nat, len: nat) returns (r: StoreResult)
      requires flash.Valid() && InRange(off, len)
      modifies flash`faults
      ensures r.StoreOk? || r.StoreIoError? || r.InvalidBank?
      ensures r.StoreOk? ==> All(Bank(id)[off..off + len], 0xFF)
      ensures r.InvalidBank? ==> !All(Bank(id)[off..off + len], 0xFF)
      ensures old(Calm()) ==> Calm() && !r.StoreIoError?
    {
      hide All;
      ghost var region := Bank(id)[off..off + len];
      var consumed := 0;
      AllNothing(region, 0xFF);
      while consumed < len
        invariant consumed <= len && All(region[..consumed], 0xFF)
        invariant old(Calm()) ==> Calm()
      {
        var amount := Min(IO_BUFFER, len - consumed);
        var ok, chunk := ReadChunk(id, off, len, consumed, amount);
        if !ok { return StoreIoError; }
        var erased := CheckAll(chunk, 0xFF);
        AllConcat(region[..consumed], chunk, 0xFF);
        assert region == region[..consumed + amount] + region[consumed + amount..];
        AllConcat(region[..consumed + amount], region[consumed + amount..], 0xFF);
        if !erased { return InvalidBank; }
        consumed := consumed + amount;
      }
      assert region[..len] == region;
      r := StoreOk;
    }

    /** One bounded read, seen as the next piece of a larger region. */
    method ReadChunk(id: BankId, off: nat, len: nat, consumed: nat, amount: nat) returns (ok: bool, chunk: seq<byte>)
      requires flash.Valid() && InRange(off, len) && consumed + amount <= len
      modifies flash`faults
      ensures ok ==> |chunk| == amount
      ensures var region := Bank(id)[off..off + len]; ok ==> region[..consumed + amount] == region[..consumed] + chunk
      ensures old(Calm()) ==> Calm() && ok
      ensures (ok <==> old(flash.NextFault()).NoFault?) && flash.faults == After(old(flash.faults), 1)
    {
      var io, data := flash.Read(id, off + consumed, amount);
      ok, chunk := io.IoOk?, data;
      if ok { SliceGrows(Bank(id), off, len, consumed, amount); }
    }

    lemma SliceGrows(bank: seq<byte>, off: nat, len: nat, consumed: nat, amount: nat)
      requires off + len <= |bank| && consumed + amount <= len
      ensures bank[off..off + len][..consumed + amount] == bank[off..off + len][..consumed] + bank[off + consumed..off + consumed + amount]
    {
      var longer, shorter := bank[off..off + len][..consumed + amount], bank[off..off + len][..consumed];
      var more := bank[off + consumed..off + consumed + amount];
      forall k | 0 <= k < consumed + amount ensures longer[k] == (shorter + more)[k] {
        if k >= consumed { assert more[k - consumed] == bank[off + k]; }
      }
    }

    // ---- bank validation ----

    method ReadCommit(id: BankId) returns (r: StoreResult, s: Option<Snapshot>)
      requires flash.Valid()
      modifies flash`faults
      ensures r.StoreOk? || r.StoreIoError? || r.FactoryBlank? || r.InvalidBank?
      ensures r.StoreOk? <==> s.Some?
      ensures !r.StoreIoError? ==> s == CommitOf(id, Bank(id))
      ensures r.FactoryBlank? <==> !r.StoreIoError? && s.None? && CommitBlank(Bank(id))
      ensures old(Calm()) ==> Calm() && !r.StoreIoError?
    {
      hide DecodeCommit;
      var io, body := flash.Read(id, COMMIT_OFFSET, BODY_BYTES);
      if !io.IoOk? { return StoreIoError, None; }
      var io2, marker := flash.Read(id, MARKER_OFFSET, MARKER_BYTES);
      if !io2.IoOk? { return StoreIoError, None; }
      s := DecodeCommit(id, body, marker);
      r := if s.Some? then StoreOk else if All(body, 0xFF) && All(marker, 0xFF) then FactoryBlank else InvalidBank;
    }

    /** Manifest grammar and both digests against what the plan or commit record announces. */
    method CheckContent(id: BankId, m: nat, p: nat, manifestSha: Digest, bundleSha: Digest) returns (r: StoreResult)
      requires flash.Valid() && m <= SECTOR && p <= PAYLOAD_MAX
      modifies flash`faults
      ensures r.StoreOk? || r.StoreIoError? || r.InvalidManifest? || r.HashMismatch?
      ensures !r.StoreIoError? ==> (r.StoreOk? <==> ContentMatches(env, Bank(id), m, p, manifestSha, bundleSha))
      ensures old(Calm()) ==> Calm() && !r.StoreIoError?
      ensures old(flash.Quiet(Reads(m) + Reads(p))) ==> !r.StoreIoError? && flash.faults == After(old(flash.faults), Reads(m) + Reads(p))
    {
      hide BundleDigest, FormatOk, Reads;
      AfterAfter(flash.faults, Reads(m), Reads(p));
      var rm, manifest := ReadRegion(id, MANIFEST_OFFSET, m);
      if !rm.StoreOk? { return StoreIoError; }
      var rp, payload := ReadRegion(id, PAYLOAD_OFFSET, p);
      if !rp.StoreOk? { return StoreIoError; }
      if !FormatOk(env, manifest, payload) { return InvalidManifest; }
      if env.sha256(manifest) != manifestSha || BundleDigest(env, manifest, payload) != bundleSha { return HashMismatch; }
      r := StoreOk;
    }

    /** validate_sound_bank: commit record, content, then the four erased tails, an I/O error outranking a dirty tail. */
    method ValidateBank(id: BankId) returns (r: StoreResult, s: Option<Snapshot>)
      requires flash.Valid()
      modifies flash`faults
      ensures r.StoreOk? || r.StoreIoError? || Nonfatal(r)
      ensures r.StoreOk? <==> s.Some?
      ensures !r.StoreIoError? ==> s == Valid(id)
      ensures r.FactoryBlank? ==> CommitBlank(Bank(id))
      ensures old(Calm()) ==> Calm() && !r.StoreIoError?
    {
      hide CommitOf, ContentMatches, All;
      var rc, c := ReadCommit(id);
      if !rc.StoreOk? { return rc, None; }
      var snap := c.value;
      var (m, p) := (snap.manifestBytes, snap.payloadBytes);
      r := CheckContent(id, m, p, snap.manifestSha, snap.bundleSha);
      if !r.StoreOk? { return r, None; }
      var t1 := VerifyErased(id, MANIFEST_OFFSET + m, SECTOR - m);
      var t2 := VerifyErased(id, PAYLOAD_OFFSET + p, PAYLOAD_MAX - p);
      var t3 := VerifyErased(id, RESERVED_OFFSET, COMMIT_OFFSET - RESERVED_OFFSET);
      var t4 := VerifyErased(id, MARKER_OFFSET + MARKER_BYTES, BANK_SIZE - MARKER_OFFSET - MARKER_BYTES);
      assert Bank(id)[MARKER_OFFSET + MARKER_BYTES..] == Bank(id)[MARKER_OFFSET + MARKER_BYTES..BANK_SIZE];
      if t1.StoreIoError? || t2.StoreIoError? || t3.StoreIoError? || t4.StoreIoError? { return StoreIoError, None; }
      if !t1.StoreOk? || !t2.StoreOk? || !t3.StoreOk? || !t4.StoreOk? { return InvalidBank, None; }
      r, s := StoreOk, Some(snap);
    }

    /** Validate both banks; the result is the exact selection or a storage error. */
    method InspectBothBanks() returns (r: StoreResult, s: Selection, blank: bool)
      requires flash.Valid()
      modifies flash`faults
      ensures r.StoreOk? || r.StoreIoError?
      ensures r.StoreOk? ==> s == SelectBanks(Valid(A), Valid(B))
      ensures blank ==> CommitBlank(Bank(A)) && CommitBlank(Bank(B))
      ensures old(Calm()) ==> Calm() && !r.StoreIoError?
    {
      hide Validate, CommitBlank;
      blank := false;
      var ra, a := ValidateBank(A);
      if ra.StoreIoError? { return StoreIoError, NOTHING_SELECTED, false; }
      var rb, b := ValidateBank(B);
      if rb.StoreIoError? { return StoreIoError, NOTHING_SELECTED, false; }
      r, s, blank := StoreOk, SelectBanks(a, b), ra.FactoryBlank? && rb.FactoryBlank?;
    }

    // ---- the two cached selections ----

    method ForgetSelections()
      modifies this`selection, this`scanned, this`readSelection, this`readScanned, this`readResult, this`unbackedRead
      ensures !scanned && !readScanned && ReadCacheSound()
    {
      selection, scanned := NOTHING_SELECTED, false;
      readSelection, readScanned, readResult, unbackedRead := NOTHING_SELECTED, false, StoreUnavailable, false;
    }

    method Publish(s: Selection, blank: bool)
      modifies this`selection, this`scanned, this`readSelection, this`readScanned, this`readResult, this`unbackedRead
      ensures selection == readSelection == s && scanned && readScanned && !unbackedRead
      ensures readResult == Disposition(s, blank)
    {
      selection, scanned := s, true;
      readSelection, readScanned, readResult, unbackedRead := s, true, Disposition(s, blank), false;
    }

    method Scan() returns (r: StoreResult)
      requires Inv()
      modifies this`selection, this`scanned, this`readSelection, this`readScanned, this`readResult, this`unbackedRead, flash`faults
      ensures Inv()
      ensures r.Busy? <==> updateActive
      ensures r.StoreOk? || r.StoreIoError? || r.Busy?
      ensures r.StoreOk? ==> scanned && readScanned && selection == readSelection == SelectBanks(Valid(A), Valid(B))
      ensures r.StoreOk? ==> selection.active == Active() && !selection.splitBrain
      ensures r.StoreOk? && readResult.FactoryBlank? ==> CommitBlank(Bank(A)) && CommitBlank(Bank(B))
      ensures r.StoreIoError? ==> !scanned && !readScanned
      ensures r.Busy? ==> unchanged(this) && unchanged(flash)
      ensures old(ReadsFresh()) ==> ReadsFresh()
      ensures CachesAre(old(scanned), old(readSelection), old(readScanned))
      ensures old(Calm()) ==> Calm() && !r.StoreIoError?
    {
      hide Validate, CommitBlank, TailsClean, Durable, Staged, SelectBanks, LeasesDistinct, CacheExact, ActiveOf, Active, Valid, CachedRight, Updating;
      if updateActive { return Busy; }
      ForgetSelections();
      var ri, s, blank := InspectBothBanks();
      if !ri.StoreOk? { return ri; }
      FreshSelection();
      Publish(s, blank);
      FreshCache();
      r := if selection.splitBrain then SplitBrain else StoreOk;
    }

    /** The App's reconciliation query: always from flash, and it completes an update whose marker turns out to be in flash. */
    method QueryCurrentActive() returns (r: StoreResult, active: Option<Snapshot>)
      requires Inv()
      modifies this`selection, this`scanned, this`readSelection, this`readScanned, this`readResult, this`unbackedRead
      modifies this`updateActive, this`updateBank, this`update, this`payloadComplete, this`manifestComplete, flash`faults
      ensures Inv()
      ensures r.StoreOk? || r.StoreIoError?
      ensures r.StoreOk? ==> active == Active() == selection.active && scanned && readScanned
      ensures r.StoreIoError? ==> !scanned && !readScanned
      // The update ends here exactly if its commit had reached flash.
      ensures updateActive == (old(updateActive) && (r.StoreOk? ==> Valid(old(updateBank)).None?))
      ensures updateActive ==> updateBank == old(updateBank) && update == old(update)
      ensures updateActive ==> payloadComplete == old(payloadComplete) && manifestComplete == old(manifestComplete)
      ensures old(ReadsFresh()) ==> ReadsFresh()
      ensures CachesAre(old(scanned), old(readSelection), old(readScanned))
      ensures r.StoreOk? ==> !unbackedRead
    {
      hide Inv, Valid, Active, CommitBlank, TailsClean, Durable, Staged, SelectBanks, SnapshotFor, LeasesDistinct, CacheExact, ReadCacheSound, Stable,
        Updating, ActiveOf, Validate;
      StableFacts();
      var ri, s, blank := InspectBothBanks();
      if !ri.StoreOk? {
        ForgetSelections();
        ClosedInv();
        return ri, None;
      }
      FreshSelection();
      if s.splitBrain { return SplitBrain, None; }
      r, active := Reconcile(s, blank);
    }

    /** What a full look at both banks means for the caches and for the open update. */
    method Reconcile(s: Selection, blank: bool) returns (r: StoreResult, active: Option<Snapshot>)
      requires Inv() && s == SelectBanks(Valid(A), Valid(B)) && !s.splitBrain && s.active == Active()
      modifies this`selection, this`scanned, this`readSelection, this`readScanned, this`readResult, this`unbackedRead
      modifies this`updateActive, this`updateBank, this`update, this`payloadComplete, this`manifestComplete
      ensures Inv() && r.StoreOk? && active == Active() == selection.active && scanned && readScanned && ReadsFresh()
      ensures updateActive == (old(updateActive) && Valid(old(updateBank)).None?)
      ensures updateActive ==> updateBank == old(updateBank) && update == old(update)
      ensures updateActive ==> payloadComplete == old(payloadComplete) && manifestComplete == old(manifestComplete)
    {
      hide Inv, Valid, Active, Durable, Staged, SelectBanks, SnapshotFor, LeasesDistinct, CacheExact, ReadCacheSound, TailsClean, Updating;
      StableFacts();
      if updateActive { StagedSelection(); }
      Publish(s, blank);
      if updateActive && s.active.Some? && s.active.value.bank == updateBank && s.active.value.generation == update.generation {
        if s.active.value.txid != update.txid || s.active.value.bundleSha != update.plan.bundleSha {
          return TransactionMismatch, None;
        }
        ClearUpdate();
      }
      FreshCache();
      ClosedInv();
      r, active := StoreOk, selection.active;
    }

    /** Freshly validated banks always select, and the selection is the active bundle. */
    lemma FreshSelection()
      requires flash.Valid() && Durable(env, A, Bank(A), Bank(B))
      ensures var s := SelectBanks(Valid(A), Valid(B)); s.active == Active() && !s.splitBrain
      ensures SelectBanks(Valid(A), Valid(B)) == SelectBanks(Valid(A), Valid(B)).(bankA := Valid(A), bankB := Valid(B))
    {
      hide Validate, RecordsAgree;
      SelectionIsExact(Valid(A), Valid(B));
    }

    lemma FreshCache()
      requires flash.Valid() && scanned && readScanned && !unbackedRead
      requires selection == readSelection == SelectBanks(Valid(A), Valid(B)) && !selection.splitBrain
      requires (readResult.StoreOk? <==> selection.active.Some?) && !readResult.Busy?
      requires updateActive ==> Valid(updateBank).None?
      requires updateActive && selection.active.Some? ==> selection.active.value.bank != updateBank
      ensures CacheExact() && ReadCacheSound()
    {
      hide Validate;
    }

    method ClearUpdate()
      modifies this`updateActive, this`updateBank, this`update, this`payloadComplete, this`manifestComplete
      ensures !updateActive && |payloadComplete| == BLOCK_COUNT
    {
      updateActive, updateBank, update := false, A, NO_UPDATE;
      payloadComplete, manifestComplete := seq(BLOCK_COUNT, _ => false), false;
    }

    /** What validation can find while an update is staged. */
    lemma StagedSelection()
      requires Inv() && updateActive
      ensures var (v, o) := (Valid(updateBank), Valid(updateBank.Other()));
              && (v.None? || v == Some(SnapshotFor(updateBank, update)))
              && Active() == (if v.Some? then v else o)
              && (v.Some? ==> v.value.bank == updateBank && v.value.generation == update.generation
                              && v.value.txid == update.txid && v.value.bundleSha == update.plan.bundleSha)
              && (o.Some? ==> o.value.bank == updateBank.Other())
    {
      hide Validate, Durable, ProgressSound, TailsAre, TailsClean, Updating;
      UpdatingIsDurable(env, updateBank, update, Bank(updateBank), Bank(updateBank.Other()));
      Orient(env, updateBank, Bank(updateBank), Bank(updateBank.Other()));
      ValidNamesItsBank(env, updateBank.Other(), Bank(updateBank.Other()));
    }

    // ---- beginning an update ----

    /** Header body, readback, then the magic that makes it a header, and readback again. */
    method WriteStagingHeader(id: BankId, h: Header) returns (ok: bool)
      requires flash.Valid() && Updating(env, id, h, Bank(id), Bank(id.Other())) && All(Bank(id), 0xFF)
      modifies flash`faults, flash.Cells(id)
      ensures Updating(env, id, h, Bank(id), Bank(id.Other())) && TailsAre(Bank(id), h.plan)
      ensures Agree(old(Bank(id)), Bank(id), HEADER_BYTES, BANK_SIZE)
      ensures ok ==> HeaderOf(id, Bank(id)) == Some(h)
      ensures old(Calm()) ==> Calm() && ok
    {
      hide Updating, All, TailsAre, WroteUpTo, EncodeHeader, HeaderOf, Agree, ErasedIn, CanProgram, WriteEffect;
      ghost var o := Bank(id.Other());
      var header := EncodeHeader(id, h);
      ghost var t0 := Bank(id);
      StagedPlan(env, id, h, t0, o);
      BlankBank(t0, h);
      BlankIsErased(t0, 4, HEADER_BYTES);
      BlankTakesAnything(t0, 4, header[4..]);
      var io := flash.Write(id, 4, header[4..]);
      ghost var t1 := Bank(id);
      StagedHeaderTail(env, id, h, t0, o, t1, io);
      WriteKeepsTails(t0, t1, 4, header[4..], io, h.plan);
      if !io.IoOk? { return false; }
      WroteAll(t0, t1, 4, header[4..], io);
      var io2, tail := flash.Read(id, 4, HEADER_BYTES - 4);
      if !io2.IoOk? || tail != header[4..] { return false; }
      assert t1[0..4] == t1[..4];
      ErasedTakesAnything(t1, 0, header[..4]);
      var io3 := flash.Write(id, 0, header[..4]);
      ghost var t2 := Bank(id);
      StagedHeaderMagic(env, id, h, t1, o, t2, io3);
      WriteKeepsTails(t1, t2, 0, header[..4], io3, h.plan);
      AgreeTransitive(t0, t1, t2, HEADER_BYTES, BANK_SIZE);
      if !io3.IoOk? { return false; }
      WroteAll(t1, t2, 0, header[..4], io3);
      var io4, magic := flash.Read(id, 0, 4);
      ok := io4.IoOk? && magic == header[..4];
    }

    /** With nothing staged, the target is the bank that is not active, and the other one holds whatever is. */
    lemma TargetFacts()
      requires Inv() && scanned && !updateActive
      ensures var id := TargetBank(selection);
              && selection.active == Active() == Valid(id.Other()) && selection.Of(id) == Valid(id) && !selection.splitBrain
              && (selection.active.Some? ==> selection.active.value.bank == id.Other())
    {
      hide Validate, RecordsAgree, ReadCacheSound, TailsClean, LeasesDistinct;
      SelectionIsExact(Valid(A), Valid(B));
      ValidNamesItsBank(env, A, Bank(A));
      ValidNamesItsBank(env, B, Bank(B));
    }

    method DropFromSelection(id: BankId)
      modifies this`selection
      ensures selection == if id.A? then old(selection).(bankA := None) else old(selection).(bankB := None)
    {
      selection := if id.A? then selection.(bankA := None) else selection.(bankB := None);
    }

    /** With the target invalid, dropping it from the cached selection leaves the cache exact and the active bundle alone. */
    lemma DroppedIsExact(s: Selection, id: BankId)
      requires flash.Valid() && !updateActive
      requires s.active == Valid(id.Other()) == s.Of(id.Other()) && s.Of(id).None? && !s.splitBrain && Valid(id).None?
      requires selection == s
      ensures CacheExact()
    {
      hide Validate;
    }

    /** Reclaim the inactive bank, marker sector first, so that what is left is never a committed record. */
    method ReclaimBank(id: BankId) returns (r: StoreResult)
      requires Inv() && scanned && !updateActive && id == TargetBank(selection)
      requires Reclaimable(env, id, Bank(id), Bank(id.Other()))
      modifies this`selection, this`scanned, this`readSelection, this`readScanned, this`readResult, this`unbackedRead
      modifies flash`faults, flash.Cells(id)
      ensures Inv() && Active() == old(Active())
      ensures r.StoreOk? ==> scanned && All(Bank(id), 0xFF) && RecordSettled(env, id.Other(), Bank(id.Other()))
      ensures r.StoreOk? ==> selection.active == old(selection.active) && TargetBank(selection) == id
      ensures r.StoreOk? ==> readScanned == old(readScanned) && readSelection == old(readSelection)
      ensures old(ReadsFresh()) ==> ReadsFresh()
      ensures CachesAre(old(scanned), old(readSelection), old(readScanned))
      ensures Bank(id) == old(Bank(id)) || Record(id).None?
      ensures Staging(id).None? || Staging(id) == old(Staging(id))
      ensures old(Calm()) ==> Calm() && r.StoreOk?
      ensures old(RecordTakes(id, Bank(id))) ==> RecordTakes(id, Bank(id))
      ensures NoNewMarker(old(Bank(id)), Bank(id))
    {
      hide Inv, Active, Validate, ErasedUpTo, HeaderOf, CommitOf, Reclaimable, All, RecordSettled, RecordTakes, NoNewMarker;
      ghost var t0 := Bank(id);
      var io := EraseRecord(id);
      ghost var t1 := Bank(id);
      if !io.IoOk? { return MapIo(io); }
      io := EraseRest(id);
      NoNewMarkerTransitive(t0, t1, Bank(id));
      if !io.IoOk? { return MapIo(io); }
      ErasedWhole(t0, t1, Bank(id));
      r := VerifyErased(id, 0, BANK_SIZE);
      assert Bank(id)[0..BANK_SIZE] == Bank(id);
    }

    /** The commit sector goes first, so that no record outlives its content. */
    method EraseRecord(id: BankId) returns (io: IoResult)
      requires Inv() && scanned && !updateActive && id == TargetBank(selection)
      requires Reclaimable(env, id, Bank(id), Bank(id.Other()))
      modifies this`selection, this`scanned, this`readSelection, this`readScanned, this`readResult, this`unbackedRead
      modifies flash`faults, flash.Cells(id)
      ensures Inv() && Active() == old(Active())
      ensures io.IoOk? ==> scanned && Record(id).None? && Reclaimable(env, id, Bank(id), Bank(id.Other()))
      ensures io.IoOk? ==> ErasedUpTo(old(Bank(id)), Bank(id), COMMIT_OFFSET, SECTOR, io)
      ensures io.IoOk? ==> selection.active == old(selection.active) && TargetBank(selection) == id
      ensures io.IoOk? ==> readScanned == old(readScanned) && readSelection == old(readSelection)
      ensures old(ReadsFresh()) ==> ReadsFresh()
      ensures CachesAre(old(scanned), old(readSelection), old(readScanned))
      ensures Bank(id) == old(Bank(id)) || Record(id).None?
      ensures Staging(id).None? || Staging(id) == old(Staging(id))
      ensures old(Calm()) ==> Calm() && io.IoOk?
      ensures old(RecordTakes(id, Bank(id))) ==> RecordTakes(id, Bank(id))
      ensures NoNewMarker(old(Bank(id)), Bank(id))
    {
      hide Validate, ErasedUpTo, HeaderOf, CommitOf, Durable, Reclaimable, ActiveOf, TailsClean, All, RecordSettled, SelectBanks,
        LeasesDistinct, Staged, Overlay, RecordTakes, NoNewMarker, EraseEffect;
      TargetFacts();
      io := EraseTarget(id, COMMIT_OFFSET, SECTOR);
      if !io.IoOk? {
        ForgetSelections();
        return;
      }
      DropFromSelection(id);
      UncommittedIsInvalid(env, id, Bank(id));
      DroppedIsExact(selection, id);
    }

    method EraseRest(id: BankId) returns (io: IoResult)
      requires Inv() && scanned && !updateActive && id == TargetBank(selection)
      requires Reclaimable(env, id, Bank(id), Bank(id.Other())) && Record(id).None?
      modifies flash`faults, flash.Cells(id)
      ensures Inv() && Active() == old(Active()) && Record(id).None?
      ensures ErasedUpTo(old(Bank(id)), Bank(id), 0, COMMIT_OFFSET, io) && RecordSettled(env, id.Other(), Bank(id.Other()))
      ensures old(ReadsFresh()) ==> ReadsFresh()
      ensures Staging(id).None? || Staging(id) == old(Staging(id))
      ensures old(Calm()) ==> Calm() && io.IoOk?
      ensures old(RecordTakes(id, Bank(id))) ==> RecordTakes(id, Bank(id))
      ensures NoNewMarker(old(Bank(id)), Bank(id))
    {
      hide Validate, ErasedUpTo, HeaderOf, CommitOf, Durable, Reclaimable, ActiveOf, TailsClean, All, RecordSettled, SelectBanks,
        LeasesDistinct, Staged, Overlay, RecordTakes, NoNewMarker, EraseEffect;
      TargetFacts();
      UncommittedIsInvalid(env, id, Bank(id));
      io := EraseTarget(id, 0, COMMIT_OFFSET);
      UncommittedIsInvalid(env, id, Bank(id));
    }

    /** One erase of the bank that is given up, cut anywhere: what is current stays, and no record is left half standing. */
    method EraseTarget(id: BankId, off: nat, len: nat) returns (io: IoResult)
      requires flash.Valid() && Durable(env, A, Bank(A), Bank(B)) && Reclaimable(env, id, Bank(id), Bank(id.Other()))
      requires (off == COMMIT_OFFSET && len == SECTOR) || (off == 0 && len == COMMIT_OFFSET && Record(id).None?)
      modifies flash`faults, flash.Cells(id)
      ensures Durable(env, A, Bank(A), Bank(B)) && Reclaimable(env, id, Bank(id), Bank(id.Other())) && Active() == old(Active())
      ensures ErasedUpTo(old(Bank(id)), Bank(id), off, len, io) && RecordSettled(env, id.Other(), Bank(id.Other()))
      ensures (Bank(id) == old(Bank(id)) || Record(id).None?) && (io.IoOk? ==> Record(id).None?)
      ensures Staging(id).None? || Staging(id) == old(Staging(id))
      ensures old(TailsClean(id, Bank(id))) ==> TailsClean(id, Bank(id))
      ensures old(RecordTakes(id, Bank(id))) ==> RecordTakes(id, Bank(id))
      ensures NoNewMarker(old(Bank(id)), Bank(id))
      ensures old(Calm()) ==> Calm() && io.IoOk?
    {
      hide Validate, ErasedUpTo, HeaderOf, CommitOf, Durable, Reclaimable, ActiveOf, TailsClean, RecordSettled, Overlay, RecordTakes;
      ghost var t0, o := Bank(id), Bank(id.Other());
      Orient(env, id, t0, o);
      io := flash.Erase(id, off, len);
      ghost var t1 := Bank(id);
      if off == 0 { ErasedFromStart(id, t0, t1, len, io); } else { ErasedCommitSector(id, t0, t1, io); }
      ReclaimStep(env, id, t0, o, t1);
      EraseKeepsTailsClean(id, t0, t1, off, len, io);
      if RecordTakes(id, t0) { EraseKeepsRecordTakes(id, t0, t1, off, len, io); }
      EraseMakesNoMarker(t0, t1, off, len, io);
      Orient(env, id, t1, o);
    }

    method BeginNewUpdate(plan: Plan) returns (r: StoreResult)
      requires Inv() && scanned && !updateActive && PlanIsValid(plan) && BaseMatches(plan, selection)
      requires plan.baseGeneration < U64_MAX && !Pinned(TargetBank(selection))
      requires var id := TargetBank(selection); Reclaimable(env, id, Bank(id), Bank(id.Other()))
      modifies this`selection, this`scanned, this`readSelection, this`readScanned, this`readResult, this`unbackedRead
      modifies this`updateActive, this`updateBank, this`update, this`payloadComplete, this`manifestComplete
      modifies flash`faults, flash.Cells(TargetBank(selection))
      ensures Inv() && Active() == old(Active())
      ensures r.StoreOk? <==> updateActive
      ensures r.StoreOk? ==> Announced(old(TargetBank(selection)), plan)
      ensures r.StoreOk? ==> Some(update) != old(Staging(TargetBank(selection)))
      ensures updateActive ==> !Pinned(updateBank)
      ensures old(ReadsFresh()) ==> ReadsFresh()
      ensures CachesAre(old(scanned), old(readSelection), old(readScanned))
      ensures r.StoreOk? ==> scanned
      ensures r.StoreOk? ==> MarkerBlank(Bank(updateBank)) && Valid(updateBank).None?
      ensures var id := old(TargetBank(selection)); Bank(id) == old(Bank(TargetBank(selection))) || Record(id).None?
      ensures old(Calm()) ==> Calm() && r.StoreOk?
      ensures var id := old(TargetBank(selection)); StagedAnew(id, old(Bank(TargetBank(selection))), plan.baseGeneration + 1)
      ensures r.StoreOk? ==> JustBegun()
      ensures var id := old(TargetBank(selection)); old(RecordTakes(id, Bank(TargetBank(selection)))) ==> RecordTakes(id, Bank(id))
      ensures var id := old(TargetBank(selection)); NoNewMarker(old(Bank(TargetBank(selection))), Bank(id))
    {
      hide RecordTakes, Inv, Reclaimable, RecordSettled, PlanIsValid, HeaderOf, SelfAuthenticated, Active, CommitOf;
      var id := TargetBank(selection);
      FreshIsNew(id, plan);
      r := ReclaimBank(id);
      if !r.StoreOk? { return r; }
      r := StageHeader(id, plan);
    }

    ghost predicate NothingDone()
      reads this`payloadComplete
    {
      forall i :: 0 <= i < |payloadComplete| ==> !payloadComplete[i]
    }

    method StageHeader(id: BankId, plan: Plan) returns (r: StoreResult)
      requires Inv() && scanned && !updateActive && id == TargetBank(selection) && PlanIsValid(plan)
      requires BaseMatches(plan, selection) && plan.baseGeneration < U64_MAX
      requires All(Bank(id), 0xFF) && RecordSettled(env, id.Other(), Bank(id.Other()))
      modifies this`updateActive, this`updateBank, this`update, this`payloadComplete, this`manifestComplete
      modifies flash`faults, flash.Cells(id)
      ensures Inv() && Active() == old(Active())
      ensures r.StoreOk? <==> updateActive
      ensures r.StoreOk? ==> Announced(id, plan)
      ensures old(ReadsFresh()) ==> ReadsFresh()
      ensures r.StoreOk? ==> MarkerBlank(Bank(id)) && Valid(id).None?
      ensures Record(id).None? && StagedAnew(id, old(Bank(id)), plan.baseGeneration + 1)
      ensures old(Calm()) ==> Calm() && r.StoreOk?
      ensures r.StoreOk? ==> ErasedIn(Bank(id), HEADER_BYTES, BANK_SIZE) && !manifestComplete && NothingDone()
      ensures RecordTakes(id, Bank(id)) && MarkerBlank(Bank(id))
    {
      hide TakesRecord, Validate, HeaderOf, CommitOf, Durable, ActiveOf, TailsClean, All, RecordSettled, SelectBanks, LeasesDistinct,
        Updating, TailsAre, ProgressSound, PlanIsValid, CacheExact, ReadCacheSound, MarkerBlank, SelfAuthenticated, RecordTakes, ErasedIn;
      TargetFacts();
      var ok := PutHeader(id, plan);
      if !ok {
        ClearUpdate();
        SameCache(id);
        return StoreIoError;
      }
      updateBank, updateActive := id, true;
      ActivatedCache(id);
      NothingClaimed(env, Bank(id), plan, payloadComplete);
      r := StoreOk;
    }

    /** The header of the new update goes in; nothing is open yet. */
    method PutHeader(id: BankId, plan: Plan) returns (ok: bool)
      requires Inv() && scanned && !updateActive && id == TargetBank(selection) && PlanIsValid(plan)
      requires BaseMatches(plan, selection) && plan.baseGeneration < U64_MAX
      requires All(Bank(id), 0xFF) && RecordSettled(env, id.Other(), Bank(id.Other()))
      modifies this`update, this`payloadComplete, this`manifestComplete, flash`faults, flash.Cells(id)
      ensures Inv() && Active() == old(Active()) && Valid(id).None? && old(Valid(id)).None?
      ensures update.plan == plan && update.generation == plan.baseGeneration + 1 && SelfAuthenticated(env, id, update)
      ensures ok ==> Staging(id) == Some(update)
      ensures Updating(env, id, update, Bank(id), Bank(id.Other())) && TailsAre(Bank(id), plan)
      ensures MarkerBlank(Bank(id)) && Record(id).None? && RecordTakes(id, Bank(id)) && ErasedIn(Bank(id), HEADER_BYTES, BANK_SIZE)
      ensures !manifestComplete && NothingDone() && StagedAnew(id, old(Bank(id)), plan.baseGeneration + 1)
      ensures old(Calm()) ==> Calm() && ok
    {
      hide TakesRecord, Validate, HeaderOf, CommitOf, Durable, ActiveOf, TailsClean, All, RecordSettled, SelectBanks, LeasesDistinct,
        Updating, TailsAre, ProgressSound, PlanIsValid, DeriveTxId, CacheExact, ReadCacheSound, MarkerBlank, CommitStage, Follows;
      TargetFacts();
      ghost var t2, o := Bank(id), Bank(id.Other());
      var generation := plan.baseGeneration + 1;
      update := Header(generation, DeriveTxId(env, plan, id, generation), plan);
      BlankCanStage(env, id, update, t2, o) by { assert SelfAuthenticated(env, id, update); }
      payloadComplete, manifestComplete := seq(BLOCK_COUNT, _ => false), false;
      BlankIsErased(t2, HEADER_BYTES, BANK_SIZE);
      ok := WriteStagingHeader(id, update);
      HeaderWritten(env, id, update, t2, o, Bank(id));
      if Staging(id).Some? {
        BlankTakesRecord(id, Staging(id).value, Bank(id));
        StagedIs(env, id, update, Bank(id), o);
      }
      Orient(env, id, Bank(id), o);
      SameCache(id);
    }

    /** Marking the inactive, invalid target as under update keeps both caches truthful. */
    twostate lemma ActivatedCache(id: BankId)
      requires old(flash.Valid() && scanned && !updateActive && CacheExact() && ReadCacheSound() && Valid(id).None?)
      requires old(selection.active.Some? ==> selection.active.value.bank == id.Other())
      requires selection == old(selection) && scanned && readScanned == old(readScanned) && readSelection == old(readSelection)
      requires readResult == old(readResult) && unbackedRead == old(unbackedRead)
      requires updateActive && updateBank == id && Bank(id.Other()) == old(Bank(id.Other()))
      ensures CacheExact() && ReadCacheSound()
    {
      hide Validate, SelectBanks;
    }

    twostate lemma SameCache(id: BankId)
      requires old(flash.Valid() && scanned && !updateActive && CacheExact() && ReadCacheSound() && Valid(id).None?)
      requires selection == old(selection) && scanned && readScanned == old(readScanned) && readSelection == old(readSelection)
      requires readResult == old(readResult) && unbackedRead == old(unbackedRead)
      requires !updateActive && Valid(id).None? && Bank(id.Other()) == old(Bank(id.Other()))
      ensures CacheExact() && ReadCacheSound()
    {
      hide Validate, SelectBanks;
    }

    /** The durable identity of an update that has just begun. */
    ghost predicate Announced(id: BankId, plan: Plan)
      reads this`updateActive, this`updateBank, this`update, flash.Cells(id)
      requires flash.Valid()
    {
      && updateActive && updateBank == id && HeaderOf(id, Bank(id)) == Some(update)
      && update.plan == plan && update.generation == plan.baseGeneration + 1
      && SelfAuthenticated(env, id, update)
    }

    // ---- what of the transfer is already in flash ----

    method VerifyManifest() returns (r: StoreResult)
      requires flash.Valid() && PlanIsValid(update.plan)
      modifies flash`faults
      ensures r.StoreOk? || r.StoreIoError? || r.CrcMismatch? || r.HashMismatch?
      ensures !r.StoreIoError? ==> (r.StoreOk? <==> ManifestStored(env, Bank(updateBank), update.plan))
      ensures old(Calm()) ==> Calm() && !r.StoreIoError?
      ensures var n := Reads(update.plan.manifestBytes);
        old(flash.Quiet(n + n)) ==> !r.StoreIoError? && flash.faults == After(old(flash.faults), n + n)
      ensures old(flash.NextFault()).Cut? ==> r.StoreIoError?
    {
      hide Crc32.Crc, Reads;
      AfterAfter(flash.faults, Reads(update.plan.manifestBytes), Reads(update.plan.manifestBytes));
      var m := update.plan.manifestBytes;
      var ok, crc := RegionCrc(updateBank, MANIFEST_OFFSET, m);
      if !ok { return StoreIoError; }
      var rr, manifest := ReadRegion(updateBank, MANIFEST_OFFSET, m);
      if !rr.StoreOk? { return StoreIoError; }
      if crc != update.plan.manifestCrc { return CrcMismatch; }
      r := if env.sha256(manifest) == update.plan.manifestSha then StoreOk else HashMismatch;
    }

    method VerifyPayloadBlock(i: nat) returns (r: StoreResult, complete: bool)
      requires flash.Valid() && PlanIsValid(update.plan)
      modifies flash`faults
      ensures r.StoreOk? || r.StoreIoError? || r.StoreInvalidArgument?
      ensures r.StoreInvalidArgument? <==> BlockLength(update.plan.payloadBytes, i) == 0
      ensures r.StoreOk? ==> complete == BlockStored(Bank(updateBank), update.plan, i)
      ensures !r.StoreOk? ==> !complete
      ensures old(Calm()) ==> Calm() && !r.StoreIoError?
    {
      hide Crc32.Crc;
      var length := BlockLength(update.plan.payloadBytes, i);
      if length == 0 { return StoreInvalidArgument, false; }
      BlockFits(update.plan.payloadBytes, i);
      var ok, crc := RegionCrc(updateBank, BlockOffset(i), length);
      if !ok { return StoreIoError, false; }
      r, complete := StoreOk, crc == update.plan.blockCrcs[i];
    }

    ghost predicate ProgressExact()
      reads this`updateBank, this`update, this`manifestComplete, this`payloadComplete, flash.bankA, flash.bankB
      requires flash.Valid()
    {
      && |payloadComplete| == BLOCK_COUNT
      && manifestComplete == ManifestStored(env, Bank(updateBank), update.plan)
      && forall i :: 0 <= i < BLOCK_COUNT ==> payloadComplete[i] == BlockStored(Bank(updateBank), update.plan, i)
    }

    /** Rebuild progress from the content itself; the journal is not consulted. */
    method RebuildProgress() returns (r: StoreResult)
      requires flash.Valid() && PlanIsValid(update.plan)
      modifies this`manifestComplete, this`payloadComplete, flash`faults
      ensures r.StoreOk? || r.StoreIoError?
      ensures r.StoreOk? ==> ProgressExact()
      ensures old(Calm()) ==> Calm() && r.StoreOk?
    {
      hide BlockStored, ManifestStored, PlanIsValid;
      payloadComplete, manifestComplete := seq(BLOCK_COUNT, _ => false), false;
      var rm := VerifyManifest();
      if rm.StoreIoError? { return StoreIoError; }
      manifestComplete := rm.StoreOk?;
      var count := BlockCount(update.plan.payloadBytes);
      BlockCountFits(update.plan);
      for i := 0 to count
        invariant |payloadComplete| == BLOCK_COUNT
        invariant manifestComplete == ManifestStored(env, Bank(updateBank), update.plan)
        invariant forall j :: 0 <= j < i ==> payloadComplete[j] == BlockStored(Bank(updateBank), update.plan, j)
        invariant forall j :: i <= j < BLOCK_COUNT ==> !payloadComplete[j]
        invariant old(Calm()) ==> Calm()
      {
        var rb, complete := VerifyPayloadBlock(i);
        if rb.StoreIoError? { return StoreIoError; }
        BlockCountLengths(update.plan, i);
        payloadComplete := payloadComplete[i := complete];
      }
      forall j | count <= j < BLOCK_COUNT ensures !BlockStored(Bank(updateBank), update.plan, j) {
        NoBlockBeyond(Bank(updateBank), update.plan, j);
      }
      r := StoreOk;
    }

    /** Take up the transaction whose complete, self-authenticating header is in `id`, if it builds on what is current. */
    method LoadStagingHeader(id: BankId, txid: TxId) returns (r: StoreResult)
      requires Inv() && scanned && !updateActive && selection.Of(id).None?
      modifies this`updateActive, this`updateBank, this`update, this`payloadComplete, this`manifestComplete, flash`faults
      ensures Inv()
      ensures r.StoreOk? || r.StoreIoError? || r.TransactionMismatch? || r.StaleBase?
      ensures r.StoreOk? <==> updateActive
      ensures r.StoreOk? ==> updateBank == id && HeaderOf(id, Bank(id)) == Some(update) && update.txid == txid && ProgressExact()
      ensures old(ReadsFresh()) ==> ReadsFresh()
      ensures old(Calm()) ==> Calm() && (r.StoreOk? <==> Resumable(id, txid)) && (Staging(id).None? ==> r.TransactionMismatch?)
    {
      hide Inv, HeaderOf, DeriveTxId, ProgressExact, All;
      var ok, _, d := ReadStaging(id);
      if !ok { return StoreIoError; }
      if d.None? { return TransactionMismatch; }
      var h := d.value;
      if h.txid != txid || DeriveTxId(env, h.plan, id, h.generation) != h.txid { return TransactionMismatch; }
      if !Follows(h, selection) { return StaleBase; }
      r := Adopt(id, h);
    }

    /** The bank's header names this transaction, is authentic, and builds on what is selected. */
    ghost predicate Resumable(id: BankId, txid: TxId)
      reads this`selection, flash.Cells(id)
      requires flash.Valid()
    {
      && Staging(id).Some? && Staging(id).value.txid == txid && SelfAuthenticated(env, id, Staging(id).value)
      && Follows(Staging(id).value, selection)
    }

    /** Read the staging sector's header; `blank` when nothing was ever started there. */
    method ReadStaging(id: BankId) returns (ok: bool, blank: bool, h: Option<Header>)
      requires flash.Valid()
      modifies flash`faults
      ensures ok ==> h == HeaderOf(id, Bank(id)) && blank == All(Bank(id)[..HEADER_BYTES], 0xFF)
      ensures ok && blank ==> h.None?
      ensures old(Calm()) ==> Calm() && ok
    {
      hide DecodeHeader;
      var io, encoded := flash.Read(id, HEADER_OFFSET, HEADER_BYTES);
      if !io.IoOk? { return false, false, None; }
      assert encoded == Bank(id)[..HEADER_BYTES];
      blank := CheckAll(encoded, 0xFF);
      if blank { HeaderNeedsMagic(id, Bank(id)); }
      ok, h := true, DecodeHeader(id, encoded);
    }

    method Adopt(id: BankId, h: Header) returns (r: StoreResult)
      requires Inv() && scanned && !updateActive && selection.Of(id).None?
      requires HeaderOf(id, Bank(id)) == Some(h) && SelfAuthenticated(env, id, h) && Follows(h, selection)
      modifies this`updateActive, this`updateBank, this`update, this`payloadComplete, this`manifestComplete, flash`faults
      ensures Inv()
      ensures r.StoreOk? || r.StoreIoError?
      ensures r.StoreOk? <==> updateActive
      ensures r.StoreOk? ==> updateBank == id && update == h && ProgressExact()
      ensures old(ReadsFresh()) ==> ReadsFresh()
      ensures old(Calm()) ==> Calm() && r.StoreOk?
    {
      hide Validate, Durable, TailsClean, SelectBanks, LeasesDistinct, Updating, TailsAre, ProgressSound, PlanIsValid,
        SelfAuthenticated, HeaderOf, CacheExact, ReadCacheSound, All, BlockStored, ManifestStored, ProgressExact;
      InvalidCandidate(id);
      Orient(env, id, Bank(id), Bank(id.Other()));
      ResumedIsUpdating(env, id, h, Bank(id), Bank(id.Other()));
      update, updateBank := h, id;
      r := RebuildProgress();
      if !r.StoreOk? {
        ClearUpdate();
        SameCache(id);
        return r;
      }
      updateActive := true;
      ActivatedCache(id);
      ExactIsSound();
      if undamaged { HeaderTails(id, Bank(id)); }
    }

    lemma InvalidCandidate(id: BankId)
      requires Inv() && scanned && !updateActive && selection.Of(id).None?
      ensures Valid(id).None? && selection.active == Valid(id.Other())
      ensures selection.active.Some? ==> selection.active.value.bank == id.Other()
    {
      hide Validate, RecordsAgree, ReadCacheSound, TailsClean, LeasesDistinct;
      ValidNamesItsBank(env, id.Other(), Bank(id.Other()));
    }

    lemma ExactIsSound()
      requires flash.Valid() && ProgressExact()
      ensures |payloadComplete| == BLOCK_COUNT
      ensures ProgressSound(env, Bank(updateBank), update.plan, manifestComplete, payloadComplete)
    {
    }

    // ---- public begin and resume ----

    ghost function Staging(id: BankId): Option<Header>
      reads flash.Cells(id)
      requires flash.Valid()
    {
      HeaderOf(id, Bank(id))
    }

    ghost predicate MayReclaim(id: BankId)
      reads flash.bankA, flash.bankB
      requires flash.Valid()
    {
      Reclaimable(env, id, Bank(id), Bank(id.Other()))
    }

    /** The identity the store reports for the open update. */
    function CurrentIdentity(): Identity
      reads this`update, this`updateBank
    {
      Identity(update.generation, updateBank, update.txid)
    }

    /** The idempotent BEGIN: an exact retry costs nothing, an exact staged transaction is resumed, a foreign or torn one survives. */
    method BeginOrResumeUpdate(plan: Plan) returns (r: StoreResult, identity: Option<Identity>)
      requires Inv()
      modifies this`selection, this`scanned, this`readSelection, this`readScanned, this`readResult, this`unbackedRead
      modifies this`updateActive, this`updateBank, this`update, this`payloadComplete, this`manifestComplete
      modifies flash`faults, flash.bankA, flash.bankB
      ensures Inv() && Active() == old(Active())
      // Success names exactly the caller's plan, one generation after its base, under the identifier derived from both.
      ensures identity == if r.StoreOk? then Some(CurrentIdentity()) else None
      ensures r.StoreOk? ==> PlanIsValid(plan) && updateActive && update.plan == plan
      ensures r.StoreOk? ==> update.generation == plan.baseGeneration + 1 && SelfAuthenticated(env, updateBank, update)
      // While an update is open the call is a read of RAM, and Ok exactly for the open plan.
      ensures old(updateActive) || !PlanIsValid(plan) ==> unchanged(this) && Bank(A) == old(Bank(A)) && Bank(B) == old(Bank(B))
      ensures !PlanIsValid(plan) ==> r.StoreInvalidArgument?
      ensures old(updateActive) && PlanIsValid(plan) ==> r == if plan == update.plan then StoreOk else Busy
      // Only an unpinned bank no newer than the one that stays is ever rewritten, and only one.
      ensures Bank(A) == old(Bank(A)) || (!Pinned(A) && old(MayReclaim(A)) && Bank(B) == old(Bank(B)))
      ensures Bank(B) == old(Bank(B)) || (!Pinned(B) && old(MayReclaim(B)) && Bank(A) == old(Bank(A)))
      ensures updateActive && !old(updateActive) ==> r.StoreOk? && !Pinned(updateBank)
      // Resuming reads everything and writes nothing; progress is then exactly what flash holds.
      ensures r.StoreOk? && !old(updateActive) && Some(update) == (if updateBank.A? then old(Staging(A)) else old(Staging(B))) ==>
        Bank(A) == old(Bank(A)) && Bank(B) == old(Bank(B)) && ProgressExact()
      ensures old(ReadsFresh()) ==> ReadsFresh()
      ensures CachesAre(old(scanned), old(readSelection), old(readScanned))
      ensures r.StoreOk? && !old(updateActive) ==> scanned
      // An update never opens on a bank that is already the new bundle; what was there of it is resumed as is, or gone.
      ensures r.StoreOk? && !old(updateActive) ==> Valid(updateBank).None?
      ensures r.StoreOk? && !old(updateActive) ==>
        MarkerBlank(Bank(updateBank)) || (Bank(A) == old(Bank(A)) && Bank(B) == old(Bank(B)))
      ensures (Bank(A) == old(Bank(A)) || Record(A).None?) && (Bank(B) == old(Bank(B)) || Record(B).None?)
      ensures r.StoreOk? && !old(updateActive) ==> updateBank == old(Target())
      ensures old(RecordTakes(A, Bank(A)) && RecordTakes(B, Bank(B))) ==> RecordTakes(A, Bank(A)) && RecordTakes(B, Bank(B))
      ensures NoNewMarker(old(Bank(A)), Bank(A)) && NoNewMarker(old(Bank(B)), Bank(B))
      // Any header it leaves is the bank's old one, or that of the next generation over what is active.
      ensures Bank(A) == old(Bank(A)) || (old(Target()).A? && StagedAnew(A, old(Bank(A)), NextGeneration(old(Active()))))
      ensures Bank(B) == old(Bank(B)) || (old(Target()).B? && StagedAnew(B, old(Bank(B)), NextGeneration(old(Active()))))
      // Undisturbed, a begin succeeds exactly when the plan builds on what is active and nothing in its bank stands in the way.
      ensures old(Calm() && !updateActive) && PlanIsValid(plan) ==> Calm() && (r.StoreOk? <==> old(MayBegin(plan)))
      // It is turned away as busy exactly for the sake of another transaction, whose content may well be beyond repair.
      ensures old(Calm() && !updateActive) && PlanIsValid(plan) ==> (r.Busy? <==> old(Obstructed(plan)))
      ensures r.StoreOk? && !old(updateActive) && Some(update) != (if updateBank.A? then old(Staging(A)) else old(Staging(B))) ==> JustBegun()
    {
      hide CommitOf, Durable, SelectBanks, CacheExact, Inv, Active, PlanIsValid, SelfAuthenticated, Staging, MayReclaim, PinnedIn, ProgressExact, All,
        BaseMatches, Accommodates, JustBegun, Valid, RecordTakes, Obstructs, StagedAnew, HeaderOf, Validate, Marker, RecordsAgree, MarkerBlank, Calm,
        FastReadable;
      identity := None;
      if !PlanIsValid(plan) { return StoreInvalidArgument, None; }
      if updateActive {
        OpenUpdate();
        if plan != update.plan { return Busy, None; }
        return StoreOk, Some(CurrentIdentity());
      }
      if !scanned {
        r := Scan();
        if !r.StoreOk? { return r, None; }
      }
      CachedSelection();
      if selection.splitBrain { return SplitBrain, None; }
      if !BaseMatches(plan, selection) { return StaleBase, None; }
      if selection.active.Some? && plan.baseGeneration == U64_MAX { return GenerationExhausted, None; }
      var id := TargetBank(selection);
      if PinnedIn(leases, id) { return BankPinned, None; }
      FirstBase(plan, selection);
      ActiveIsSelected();
      r := BeginInTarget(id, plan);
      identity := if r.StoreOk? then Some(CurrentIdentity()) else None;
    }

    /** Resume, reclaim or refuse, by what the target bank holds. */
    method BeginInTarget(id: BankId, plan: Plan) returns (r: StoreResult)
      requires Inv() && scanned && !updateActive && id == TargetBank(selection) && !Pinned(id)
      requires PlanIsValid(plan) && BaseMatches(plan, selection) && plan.baseGeneration < U64_MAX
      modifies this`selection, this`scanned, this`readSelection, this`readScanned, this`readResult, this`unbackedRead
      modifies this`updateActive, this`updateBank, this`update, this`payloadComplete, this`manifestComplete
      modifies flash`faults, flash.Cells(id)
      ensures Inv() && Active() == old(Active())
      ensures r.StoreOk? <==> updateActive
      ensures r.StoreOk? ==> update.plan == plan && update.generation == plan.baseGeneration + 1
      ensures r.StoreOk? ==> updateBank == id && SelfAuthenticated(env, id, update)
      ensures Bank(id) == old(Bank(id)) || old(MayReclaim(id))
      ensures r.StoreOk? && old(Staging(id)) == Some(update) ==> Bank(id) == old(Bank(id)) && ProgressExact()
      ensures old(ReadsFresh()) ==> ReadsFresh()
      ensures CachesAre(old(scanned), old(readSelection), old(readScanned))
      ensures r.StoreOk? ==> scanned
      ensures r.StoreOk? ==> Valid(id).None? && (MarkerBlank(Bank(id)) || Bank(id) == old(Bank(id)))
      ensures Bank(id) == old(Bank(id)) || Record(id).None?
      ensures old(Calm()) ==> Calm() && (r.StoreOk? <==> old(Accommodates(env, id, Bank(id), plan, selection.active)))
      ensures old(Calm()) ==> (r.Busy? <==> old(Obstructs(id, plan, selection.active)))
      ensures r.StoreOk? && old(Staging(id)) != Some(update) ==> JustBegun()
      ensures old(RecordTakes(id, Bank(id))) ==> RecordTakes(id, Bank(id))
      ensures NoNewMarker(old(Bank(id)), Bank(id))
      ensures Bank(id) == old(Bank(id)) || StagedAnew(id, old(Bank(id)), plan.baseGeneration + 1)
    {
      hide RecordTakes, Inv, Active, Validate, PlanIsValid, Pinned, ProgressExact, BaseMatches, HeaderOf, Reclaimable, DeriveTxId, CommitOf, Follows, All;
      CachedTarget(id);
      if selection.Of(id).Some? {
        CommittedTarget(id);
        r := BeginNewUpdate(plan);
        return;
      }
      var ok, blank, d := ReadStaging(id);
      if !ok { return StoreIoError; }
      if !blank && d.None? { return InvalidStaging; }
      if !blank && DeriveTxId(env, d.value.plan, id, d.value.generation) != d.value.txid { return InvalidStaging; }
      if blank || (selection.active.Some? && d.value.generation <= selection.active.value.generation) {
        UnstagedTarget(id);
        r := BeginNewUpdate(plan);
        return;
      }
      var generation := plan.baseGeneration + 1;
      if d.value.generation != generation || d.value.txid != DeriveTxId(env, plan, id, generation) || d.value.plan != plan {
        return Busy;
      }
      InvalidCandidate(id);
      MatchingFollows(d.value, plan, selection);
      r := LoadStagingHeader(id, d.value.txid);
    }

    lemma FirstBase(plan: Plan, s: Selection)
      requires BaseMatches(plan, s)
      ensures s.active.None? ==> plan.baseGeneration == 0
      ensures NextGeneration(s.active) == plan.baseGeneration + 1
    {
    }

    lemma ActiveIsSelected()
      requires flash.Valid()
      ensures Active() == SelectBanks(Valid(A), Valid(B)).active
    {
    }

    lemma CachedSelection()
      requires Inv() && scanned && !updateActive
      ensures selection == SelectBanks(Valid(A), Valid(B)) && !selection.splitBrain
    {
      hide Validate, Durable, ReadCacheSound, TailsClean, LeasesDistinct, SelectBanks;
      TargetFacts();
    }

    /** The bank that the next update goes to. */
    ghost function Target(): BankId
      reads flash.bankA, flash.bankB
      requires flash.Valid()
    {
      TargetBank(SelectBanks(Valid(A), Valid(B)))
    }

    /** The plan builds on what a scan would select, and its bank is free for it. */
    ghost predicate MayBegin(plan: Plan)
      reads this`leases, flash.bankA, flash.bankB
      requires flash.Valid()
    {
      var s := SelectBanks(Valid(A), Valid(B));
      && BaseMatches(plan, s) && (s.active.Some? ==> plan.baseGeneration < U64_MAX)
      && !Pinned(TargetBank(s)) && Accommodates(env, TargetBank(s), Bank(TargetBank(s)), plan, s.active)
    }

    /** A complete, authentic header of another transaction is in the way; what became of its content is not asked. */
    ghost predicate Obstructs(id: BankId, plan: Plan, active: Option<Snapshot>)
      reads flash.Cells(id)
      requires flash.Valid()
    {
      !Accommodates(env, id, Bank(id), plan, active) && Staging(id).Some? && SelfAuthenticated(env, id, Staging(id).value)
    }

    ghost predicate Obstructed(plan: Plan)
      reads this`leases, flash.bankA, flash.bankB
      requires flash.Valid()
    {
      var s := SelectBanks(Valid(A), Valid(B));
      && BaseMatches(plan, s) && (s.active.Some? ==> plan.baseGeneration < U64_MAX)
      && !Pinned(TargetBank(s)) && Obstructs(TargetBank(s), plan, s.active)
    }

    lemma CachedTarget(id: BankId)
      requires Inv() && scanned && !updateActive
      ensures selection.Of(id) == Valid(id)
    {
      hide Validate, Durable, ReadCacheSound, TailsClean, LeasesDistinct, SelectBanks;
    }

    lemma MatchingFollows(h: Header, plan: Plan, s: Selection)
      requires BaseMatches(plan, s) && h.plan == plan && h.generation == plan.baseGeneration + 1
      ensures Follows(h, s)
    {
    }

    /** The update that has just begun has an erased bank before it. */
    ghost predicate JustBegun()
      reads this`updateBank, this`manifestComplete, this`payloadComplete, flash.bankA, flash.bankB
      requires flash.Valid()
    {
      ErasedIn(Bank(updateBank), HEADER_BYTES, BANK_SIZE) && !manifestComplete && NothingDone()
    }

    /** What is about to be staged is newer than any authentic header still in the target. */
    lemma FreshIsNew(id: BankId, plan: Plan)
      requires Inv() && scanned && !updateActive && id == TargetBank(selection) && BaseMatches(plan, selection) && MayReclaim(id)
      ensures Staging(id).Some? && SelfAuthenticated(env, id, Staging(id).value) ==>
        Staging(id).value.generation <= plan.baseGeneration
    {
      hide Validate, Durable, ReadCacheSound, TailsClean, LeasesDistinct, SelectBanks, SelfAuthenticated, HeaderOf, CacheExact;
      TargetFacts();
    }

    lemma OpenUpdate()
      requires Inv() && updateActive
      ensures PlanIsValid(update.plan) && SelfAuthenticated(env, updateBank, update)
      ensures update.generation == update.plan.baseGeneration + 1
    {
    }

    lemma CommittedTarget(id: BankId)
      requires Inv() && scanned && !updateActive && id == TargetBank(selection) && selection.Of(id).Some?
      ensures MayReclaim(id)
    {
      hide Validate, Durable, ReadCacheSound, TailsClean, LeasesDistinct, SelectBanks, Reclaimable;
      TargetFacts();
      Orient(env, id, Bank(id), Bank(id.Other()));
      CommittedIsReclaimable(env, id, Bank(id), Bank(id.Other()));
    }

    lemma UnstagedTarget(id: BankId)
      requires Inv() && scanned && !updateActive && id == TargetBank(selection) && selection.Of(id).None?
      requires Staging(id).None?
               || (selection.active.Some? && Staging(id).value.generation <= selection.active.value.generation)
      ensures MayReclaim(id)
    {
      hide Validate, Durable, ReadCacheSound, TailsClean, LeasesDistinct, SelectBanks;
      TargetFacts();
    }

    /** Resume by identifier: bank A is tried before bank B, skipping committed and pinned banks. */
    method ResumeUpdate(txid: TxId) returns (r: StoreResult, identity: Option<Identity>)
      requires Inv()
      modifies this`selection, this`scanned, this`readSelection, this`readScanned, this`readResult, this`unbackedRead
      modifies this`updateActive, this`updateBank, this`update, this`payloadComplete, this`manifestComplete, flash`faults
      ensures Inv()
      ensures identity == if r.StoreOk? then Some(CurrentIdentity()) else None
      ensures r.StoreOk? ==> !old(updateActive) && updateActive && update.txid == txid && Staging(updateBank) == Some(update)
      ensures r.StoreOk? ==> !Pinned(updateBank) && Valid(updateBank).None? && ProgressExact()
      ensures !r.StoreOk? ==> updateActive == old(updateActive)
      ensures old(updateActive) ==> unchanged(this) && (r.Busy? || r.StoreInvalidArgument?)
      ensures old(ReadsFresh()) ==> ReadsFresh()
      ensures CachesAre(old(scanned), old(readSelection), old(readScanned))
      ensures r.StoreOk? ==> scanned
      ensures old(scanned) ==> readSelection == old(readSelection) && readScanned == old(readScanned) && readResult == old(readResult)
      // Undisturbed, what can be resumed is: in bank A, or in bank B if bank A has no staging header of its own.
      ensures old(Calm() && scanned && !updateActive && Valid(A).None? && !Pinned(A) && Resumable(A, txid)) && !All(txid, 0) ==> r.StoreOk? && updateBank == A
      ensures old(Calm() && scanned && !updateActive && Staging(A).None? && Valid(B).None? && !Pinned(B) && Resumable(B, txid)) && !All(txid, 0) ==>
        r.StoreOk? && updateBank == B
      ensures old(Calm()) ==> Calm()
    {
      hide Durable, SelectBanks, CacheExact, Inv, All, ProgressExact, PinnedIn, HeaderOf, Validate;
      if All(txid, 0) { return StoreInvalidArgument, None; }
      if updateActive { return Busy, None; }
      if !scanned {
        r := Scan();
        if !r.StoreOk? { return r, None; }
      }
      CachedSelection();
      if selection.splitBrain { return SplitBrain, None; }
      r := ResumeEither(txid);
      identity := if r.StoreOk? then Some(CurrentIdentity()) else None;
    }

    method ResumeEither(txid: TxId) returns (r: StoreResult)
      requires Inv() && scanned && !updateActive
      modifies this`updateActive, this`updateBank, this`update, this`payloadComplete, this`manifestComplete, flash`faults
      ensures Inv()
      ensures r.StoreOk? <==> updateActive
      ensures r.StoreOk? ==> update.txid == txid && Staging(updateBank) == Some(update) && ProgressExact()
      ensures r.StoreOk? ==> !Pinned(updateBank) && Valid(updateBank).None?
      ensures old(ReadsFresh()) ==> ReadsFresh()
      ensures old(Calm()) ==> Calm()
      ensures old(Calm() && Valid(A).None? && !Pinned(A) && Resumable(A, txid)) ==> r.StoreOk? && updateBank == A
      ensures old(Calm() && Staging(A).None? && Valid(B).None? && !Pinned(B) && Resumable(B, txid)) ==> r.StoreOk? && updateBank == B
    {
      hide Inv, Active, ProgressExact, PinnedIn, ReadsFresh, HeaderOf, Validate, CommitOf, Resumable;
      r := ResumeFrom(A, txid);
      if r.TransactionMismatch? { r := ResumeFrom(B, txid); }
    }

    method ResumeFrom(id: BankId, txid: TxId) returns (r: StoreResult)
      requires Inv() && scanned && !updateActive
      modifies this`updateActive, this`updateBank, this`update, this`payloadComplete, this`manifestComplete, flash`faults
      ensures Inv()
      ensures r.StoreOk? <==> updateActive
      ensures r.StoreOk? ==> updateBank == id && update.txid == txid && Staging(id) == Some(update) && ProgressExact()
      ensures r.StoreOk? ==> !Pinned(id) && Valid(id).None?
      ensures old(ReadsFresh()) ==> ReadsFresh()
      ensures old(Calm()) ==> Calm() && (r.StoreOk? <==> Valid(id).None? && !Pinned(id) && Resumable(id, txid))
      ensures old(Calm()) && Staging(id).None? ==> r.TransactionMismatch?
    {
      hide Durable, SelectBanks, Inv, ProgressExact, PinnedIn, HeaderOf, Validate;
      CachedTarget(id);
      if selection.Of(id).Some? || PinnedIn(leases, id) { return TransactionMismatch; }
      InvalidCandidate(id);
      r := LoadStagingHeader(id, txid);
    }

    /** Where a transaction stands: open here, committed in a bank, or not known. */
    method QueryTransactionOutcome(txid: TxId) returns (r: StoreResult, outcome: Outcome)
      requires Inv()
      modifies this`selection, this`scanned, this`readSelection, this`readScanned, this`readResult, this`unbackedRead, flash`faults
      ensures Inv()
      ensures All(txid, 0) <==> r.StoreInvalidArgument?
      ensures r.StoreOk? ==> (outcome.StillOpen? <==> updateActive && update.txid == txid)
      ensures r.StoreOk? && outcome.Committed? ==> Valid(outcome.s.bank) == Some(outcome.s) && outcome.s.txid == txid
      ensures r.StoreOk? && !updateActive ==>
        (outcome.Unknown? <==> forall id :: Valid(id).Some? ==> Valid(id).value.txid != txid)
      ensures r.StoreOk? && outcome.StillOpen? ==> outcome.identity == CurrentIdentity()
      ensures old(ReadsFresh()) ==> ReadsFresh()
      ensures CachesAre(old(scanned), old(readSelection), old(readScanned))
    {
      hide Durable, SelectBanks, Inv, All, Validate;
      if All(txid, 0) { return StoreInvalidArgument, Unknown; }
      if updateActive && update.txid == txid { return StoreOk, StillOpen(CurrentIdentity()); }
      if !scanned {
        r := Scan();
        if !r.StoreOk? { return r, Unknown; }
      }
      CachedBanks();
      if selection.bankA.Some? && selection.bankA.value.txid == txid { return StoreOk, Committed(selection.bankA.value); }
      if selection.bankB.Some? && selection.bankB.value.txid == txid { return StoreOk, Committed(selection.bankB.value); }
      r, outcome := StoreOk, Unknown;
    }

    lemma CachedBanks()
      requires Inv() && scanned
      ensures !updateActive ==> selection.bankA == Valid(A) && selection.bankB == Valid(B)
      ensures (selection.bankA.Some? ==> selection.bankA == Valid(A)) && (selection.bankB.Some? ==> selection.bankB == Valid(B))
      ensures Valid(A).Some? ==> Valid(A).value.bank == A
      ensures Valid(B).Some? ==> Valid(B).value.bank == B
    {
      hide Durable, ReadCacheSound, TailsClean, LeasesDistinct, SelectBanks, Validate;
      ValidNamesItsBank(env, A, Bank(A));
      ValidNamesItsBank(env, B, Bank(B));
    }

    /** Explicit repair of a torn staging header: the one bank `plan` targets, and only if nothing there is valid. */
    method DiscardInvalidStaging(plan: Plan) returns (r: StoreResult)
      requires Inv()
      modifies this`selection, this`scanned, this`readSelection, this`readScanned, this`readResult, this`unbackedRead
      modifies flash`faults, flash.bankA, flash.bankB
      ensures Inv() && Active() == old(Active())
      ensures !PlanIsValid(plan) ==> r.StoreInvalidArgument?
      ensures PlanIsValid(plan) && updateActive ==> r.Busy?
      ensures Bank(A) == old(Bank(A)) || (old(MayDiscard(A)) && Bank(B) == old(Bank(B)))
      ensures Bank(B) == old(Bank(B)) || (old(MayDiscard(B)) && Bank(A) == old(Bank(A)))
      ensures old(ReadsFresh()) ==> ReadsFresh()
      // What is left of a discarded bank reads as nothing new, and readers look at flash again only once it is all erased.
      ensures Bank(A) == old(Bank(A)) || (Staging(A).None? && (Record(A).None? || Record(A) == old(Record(A))))
      ensures Bank(B) == old(Bank(B)) || (Staging(B).None? && (Record(B).None? || Record(B) == old(Record(B))))
      ensures updateActive ==> unchanged(this)
      ensures
        || (CachesAre(old(scanned), old(readSelection), old(readScanned)) && Bank(A) == old(Bank(A)) && Bank(B) == old(Bank(B)))
        || (!scanned && !readScanned) || (scanned && !readScanned && All(Bank(old(Target())), 0xFF))
      // Undisturbed, a bank that may be discarded is, and readers will look at flash again.
      ensures old(Calm() && MayDiscard(Target())) && PlanIsValid(plan) && old(BaseMatches(plan, SelectBanks(Valid(A), Valid(B)))) && plan.baseGeneration < U64_MAX ==>
        Calm() && r.StoreOk? && All(Bank(old(Target())), 0xFF) && scanned && !readScanned
    {
      hide Durable, SelectBanks, CacheExact, Inv, Active, PlanIsValid, PinnedIn, All, Validate, HeaderOf, BaseMatches;
      if !PlanIsValid(plan) { return StoreInvalidArgument; }
      if updateActive { return Busy; }
      if !scanned {
        r := Scan();
        if !r.StoreOk? { return r; }
      }
      CachedSelection();
      if selection.splitBrain { return SplitBrain; }
      if !BaseMatches(plan, selection) { return StaleBase; }
      if selection.active.Some? && plan.baseGeneration == U64_MAX { return GenerationExhausted; }
      var id := TargetBank(selection);
      CachedTarget(id);
      if PinnedIn(leases, id) { return BankPinned; }
      if selection.Of(id).Some? { return Busy; }
      r := DiscardFrom(id);
    }

    /** Nothing valid would be lost: no commit, no complete header, no reader. */
    ghost predicate MayDiscard(id: BankId)
      reads this`updateActive, this`leases, flash.Cells(id)
      requires flash.Valid()
    {
      !updateActive && Valid(id).None? && Staging(id).None? && !Pinned(id) && !All(Bank(id)[..HEADER_BYTES], 0xFF)
    }

    method DiscardFrom(id: BankId) returns (r: StoreResult)
      requires Inv() && scanned && !updateActive && id == TargetBank(selection) && selection.Of(id).None? && !Pinned(id)
      modifies this`selection, this`scanned, this`readSelection, this`readScanned, this`readResult, this`unbackedRead
      modifies flash`faults, flash.Cells(id)
      ensures Inv() && Active() == old(Active())
      ensures Bank(id) == old(Bank(id)) || old(MayDiscard(id))
      ensures r.StoreOk? && old(MayDiscard(id)) ==> All(Bank(id), 0xFF)
      ensures r.Busy? ==> Bank(id) == old(Bank(id)) && Staging(id).Some? && SelfAuthenticated(env, id, Staging(id).value)
      ensures old(ReadsFresh()) ==> ReadsFresh()
      ensures Bank(id) == old(Bank(id)) || (Staging(id).None? && (Record(id).None? || Record(id) == old(Record(id))))
      ensures
        || (CachesAre(old(scanned), old(readSelection), old(readScanned)) && Bank(id) == old(Bank(id)))
        || (!scanned && !readScanned) || (scanned && !readScanned && All(Bank(id), 0xFF))
      ensures old(Calm() && MayDiscard(id)) ==> Calm() && r.StoreOk? && scanned && !readScanned
    {
      hide Inv, Active, Validate, HeaderOf, All, SelectBanks, PinnedIn, DeriveTxId;
      var ok, blank, d := ReadStaging(id);
      if !ok { return StoreIoError; }
      if blank { return StoreOk; }
      if d.Some? {
        return if DeriveTxId(env, d.value.plan, id, d.value.generation) == d.value.txid then Busy else StoreOk;
      }
      InvalidCandidate(id);
      r := DiscardBank(id);
    }

    method DiscardBank(id: BankId) returns (r: StoreResult)
      requires Inv() && scanned && !updateActive && selection.Of(id).None? && Valid(id).None?
      modifies this`selection, this`scanned, this`readSelection, this`readScanned, this`readResult, this`unbackedRead
      modifies flash`faults, flash.Cells(id)
      ensures Inv() && Active() == old(Active())
      ensures r.StoreOk? ==> All(Bank(id), 0xFF) && scanned && !readScanned
      ensures !r.Busy?
      ensures old(ReadsFresh()) ==> ReadsFresh()
      ensures Bank(id) == old(Bank(id)) || (Staging(id).None? && (Record(id).None? || Record(id) == old(Record(id))))
      ensures
        || (CachesAre(old(scanned), old(readSelection), old(readScanned)) && Bank(id) == old(Bank(id)))
        || (!scanned && !readScanned) || (scanned && !readScanned && All(Bank(id), 0xFF))
      ensures old(Calm()) ==> Calm() && r.StoreOk?
    {
      hide Validate, HeaderOf, Durable, ActiveOf, TailsClean, All, SelectBanks, LeasesDistinct, Staged, CacheExact, ReadCacheSound;
      r := EraseInvalid(id);
      if !r.StoreOk? {
        ForgetSelections();
        return r;
      }
      SameCache(id);
      DropFromSelection(id);
      readSelection, readScanned, readResult, unbackedRead := NOTHING_SELECTED, false, StoreUnavailable, false;
      AlreadyDropped(id);
    }

    method EraseInvalid(id: BankId) returns (r: StoreResult)
      requires flash.Valid() && Durable(env, A, Bank(A), Bank(B)) && Valid(id).None?
      modifies flash`faults, flash.Cells(id)
      ensures Durable(env, A, Bank(A), Bank(B)) && Active() == old(Active()) && Valid(id).None?
      ensures old(TailsClean(id, Bank(id))) ==> TailsClean(id, Bank(id))
      ensures r.StoreOk? ==> All(Bank(id), 0xFF)
      ensures !r.Busy?
      ensures Bank(id) == old(Bank(id)) || (Staging(id).None? && (Record(id).None? || Record(id) == old(Record(id))))
      ensures old(Calm()) ==> Calm() && r.StoreOk?
    {
      hide Validate, HeaderOf, CommitOf, Durable, ActiveOf, TailsClean, All, ErasedUpTo;
      ghost var t0, o := Bank(id), Bank(id.Other());
      Orient(env, id, t0, o);
      var io := flash.Erase(id, 0, BANK_SIZE);
      ghost var t1 := Bank(id);
      ErasedInvalidBank(env, id, t0, t1, io);
      ErasedRecord(id, t0, t1, io);
      EraseKeepsTailsClean(id, t0, t1, 0, BANK_SIZE, io);
      HeaderDropped(env, id, t0, o, t1);
      Orient(env, id, t1, o);
      if !io.IoOk? { return MapIo(io); }
      ErasedAtOnce(t0, t1);
      r := VerifyErased(id, 0, BANK_SIZE);
      assert Bank(id)[0..BANK_SIZE] == Bank(id);
    }

    /** The discarded bank was already absent from the cache. */
    lemma AlreadyDropped(id: BankId)
      requires flash.Valid() && !readScanned && CacheExact()
      ensures ReadCacheSound()
    {
    }

    // ---- transfer: every flash mutation on its own keeps the invariant ----

    twostate lemma AfterStagedMutation()
      requires old(Inv() && updateActive) && unchanged(this) && Staged()
      requires Bank(updateBank.Other()) == old(Bank(updateBank.Other()))
      ensures Inv()
    {
      hide Validate, Updating, ProgressSound, TailsAre, TailsClean, Durable, SelectBanks, LeasesDistinct;
      var t, o := Bank(updateBank), Bank(updateBank.Other());
      UpdatingIsDurable(env, updateBank, update, t, o);
      Orient(env, updateBank, t, o);
      if undamaged { UpdatingTails(env, updateBank, update, t, o); }
    }

    method EraseContent(off: nat, len: nat, ghost block: nat) returns (io: IoResult)
      requires Inv() && updateActive && Unclaimed(off, len, manifestComplete, payloadComplete, block)
      modifies flash`faults, flash.Cells(updateBank)
      ensures Inv() && ErasedUpTo(old(Bank(updateBank)), Bank(updateBank), off, len, io)
      ensures off % SECTOR == 0 && len % SECTOR == 0 && InRange(off, len) ==> io == if old(flash.NextFault()).NoFault? then IoOk else IoError
      ensures old(Calm()) ==> Calm()
      ensures (io, Bank(updateBank)) == EraseEffect(old(Bank(updateBank)), off, len, old(flash.NextFault()))
      ensures flash.faults == After(old(flash.faults), 1)
      ensures old(TailsAre(Bank(updateBank), update.plan)) ==> TailsAre(Bank(updateBank), update.plan)
    {
      hide Validate, Updating, ProgressSound, TailsAre, TailsClean, Durable, CacheExact, LeasesDistinct, ErasedUpTo, Unclaimed;
      ghost var t, o := Bank(updateBank), Bank(updateBank.Other());
      io := flash.Erase(updateBank, off, len);
      ghost var t' := Bank(updateBank);
      ErasedIsWritten(t, t', off, len, io);
      ContentStep(env, updateBank, update, t, o, t', off, Fill(len, 0xFF), io, manifestComplete, payloadComplete, block);
      if TailsAre(t, update.plan) { EraseKeepsTails(t, t', off, len, io, update.plan); }
      AfterStagedMutation();
    }

    method WriteContent(off: nat, data: seq<byte>, ghost block: nat) returns (io: IoResult)
      requires Inv() && updateActive && Unclaimed(off, |data|, manifestComplete, payloadComplete, block)
      requires InContent(off, |data|, update.plan)
      modifies flash`faults, flash.Cells(updateBank)
      ensures Inv() && WroteUpTo(old(Bank(updateBank)), Bank(updateBank), off, data, io)
      ensures flash.faults == After(old(flash.faults), 1) && (old(Calm()) ==> Calm())
      ensures old(flash.NextFault()).NoFault? && InRange(off, |data|) && CanProgram(old(Bank(updateBank)), off, data) ==> io.IoOk?
      ensures old(TailsAre(Bank(updateBank), update.plan)) ==> TailsAre(Bank(updateBank), update.plan)
    {
      hide Validate, Updating, ProgressSound, TailsAre, TailsClean, Durable, CacheExact, LeasesDistinct, WroteUpTo, Unclaimed, CanProgram;
      ghost var t, o := Bank(updateBank), Bank(updateBank.Other());
      io := flash.Write(updateBank, off, data);
      ghost var t' := Bank(updateBank);
      ContentStep(env, updateBank, update, t, o, t', off, data, io, manifestComplete, payloadComplete, block);
      if TailsAre(t, update.plan) { WriteKeepsTails(t, t', off, data, io, update.plan); }
      AfterStagedMutation();
    }

    method ClaimManifest(complete: bool)
      requires Inv() && updateActive && (complete ==> ManifestStored(env, Bank(updateBank), update.plan))
      modifies this`manifestComplete
      ensures Inv() && manifestComplete == complete
    {
      hide Validate, Updating, TailsAre, TailsClean, Durable, CacheExact, LeasesDistinct, BlockStored, ManifestStored;
      manifestComplete := complete;
    }

    method ClaimBlock(i: nat, complete: bool)
      requires Inv() && updateActive && i < BLOCK_COUNT && (complete ==> BlockStored(Bank(updateBank), update.plan, i))
      modifies this`payloadComplete
      ensures Inv() && payloadComplete == old(payloadComplete)[i := complete]
    {
      hide Validate, Updating, TailsAre, TailsClean, Durable, CacheExact, LeasesDistinct, BlockStored, ManifestStored;
      payloadComplete := payloadComplete[i := complete];
    }

    lemma ProgressFacts()
      requires Inv() && updateActive
      ensures PlanIsValid(update.plan) && |payloadComplete| == BLOCK_COUNT
      ensures manifestComplete ==> ManifestStored(env, Bank(updateBank), update.plan)
      ensures forall i :: 0 <= i < BLOCK_COUNT && payloadComplete[i] ==> BlockStored(Bank(updateBank), update.plan, i)
    {
      hide BlockStored, ManifestStored;
    }

    /** Accept a manifest only if it is the announced one; one already complete is verified, never rewritten. */
    method WriteManifest(data: seq<byte>) returns (r: StoreResult)
      requires Inv()
      modifies this`manifestComplete, flash`faults, flash.Cells(updateBank)
      ensures Inv()
      ensures !updateActive <==> r.TransactionMismatch?
      ensures r.StoreOk? ==> manifestComplete && |data| == update.plan.manifestBytes
      ensures r.StoreOk? ==> Crc32.Crc(data) == update.plan.manifestCrc && env.sha256(data) == update.plan.manifestSha
      ensures old(manifestComplete) || !updateActive ==> Bank(updateBank) == old(Bank(updateBank))
      ensures r.StoreOk? && !old(manifestComplete) && |data| <= SECTOR ==> Manifest(Bank(updateBank), |data|) == data
      ensures SameOutside(old(Bank(updateBank)), Bank(updateBank), MANIFEST_OFFSET, SECTOR)
      // Nothing is rewritten but an announced manifest that is not marked complete.
      ensures !(updateActive && !old(manifestComplete) && AnnouncedManifest(data)) ==> Bank(updateBank) == old(Bank(updateBank))
      ensures old(updateActive && TailsAre(Bank(updateBank), update.plan)) ==> TailsAre(Bank(updateBank), update.plan)
      // With only the read-back lost, the manifest is in flash and not marked complete.
      ensures updateActive && !old(manifestComplete) && AnnouncedManifest(data) && old(LastOf(3)) ==>
        r.StoreIoError? && !manifestComplete && Manifest(Bank(updateBank), |data|) == data
      // A commit that has landed is taken back exactly if what this leaves no longer matches it;
      ensures old(Landed()) ==> (Landed() <==> ContentReady())
      // so, when the erase is cut, exactly if a mark was missing, the manifest is the announced one, and an octet was erased.
      ensures old(Landed()) && old(flash.NextFault()).Cut? ==>
        (!Landed() <==> !old(manifestComplete) && AnnouncedManifest(data) && old(flash.NextFault()).reached > 0)
      // Undisturbed, exactly the announced manifest is accepted.
      ensures old(Calm()) && updateActive ==> Calm() && (r.StoreOk? <==> AnnouncedManifest(data))
    {
      hide Inv, ManifestStored, BlockStored, PlanIsValid, Crc32.Crc, WroteUpTo, ErasedUpTo, SameOutside, Manifest, SelfAuthenticated, Agree,
        TailsAre, ContentReady, EraseEffect, Validate, LastOf, Staged, Updating, BlockLength, SnapshotFor, Fill, TailsErased, CommitOf, HeaderOf;
      ghost var t0 := Bank(updateBank);
      ghost var landed, fault := updateActive && Valid(updateBank).Some?, flash.NextFault();
      if landed { LandedFacts(); }
      SameOutsideReflexive(t0, MANIFEST_OFFSET, SECTOR);
      if !updateActive { return TransactionMismatch; }
      OpenUpdate();
      PlanBounds(update.plan);
      if |data| != update.plan.manifestBytes { return StoreInvalidArgument; }
      var crc := Crc32.Compute(data);
      if crc != update.plan.manifestCrc || env.sha256(data) != update.plan.manifestSha { return CrcMismatch; }
      if manifestComplete {
        r := VerifyManifest();
        if r.StoreOk? || r.StoreIoError? { return r; }
        ClaimManifest(false);
      }
      r := TransferManifest(data);
      ClaimedManifest();
      if landed { AfterManifest(t0, fault); }
    }

    /** A landed commit has its whole record, its content and its erased tails. */
    lemma LandedFacts()
      requires Inv() && Landed()
      ensures updateActive && TailsAre(Bank(updateBank), update.plan) && ContentReady()
      ensures Body(Bank(updateBank)) == EncodeBody(updateBank, update) && Marker(Bank(updateBank)) == NewMarker()
    {
      hide ContentMatches, TailsErased, EncodeBody, EncodeMarker, ProgressSound, TailsClean, Durable, CacheExact, LeasesDistinct, HeaderOf, CommitOf, Inv;
      ValidIsWritten();
      WrittenIsNew();
      PlanFits();
    }

    lemma PlanFits()
      requires Inv() && updateActive
      ensures update.plan.manifestBytes <= SECTOR && update.plan.payloadBytes <= PAYLOAD_MAX
    {
      hide Inv, SelfAuthenticated;
      OpenUpdate();
      PlanBounds(update.plan);
    }

    /** Under the whole record and erased tails, a commit stands exactly as long as its content does. */
    lemma LandedIffReady()
      requires Inv() && updateActive && TailsAre(Bank(updateBank), update.plan)
      requires Body(Bank(updateBank)) == EncodeBody(updateBank, update) && Marker(Bank(updateBank)) == NewMarker()
      ensures Landed() <==> ContentReady()
    {
      hide ContentMatches, TailsErased, EncodeBody, EncodeMarker, ProgressSound, TailsClean, Durable, CacheExact, LeasesDistinct, HeaderOf, CommitStage;
      CommitStageDecodes(updateBank, update, Bank(updateBank));
    }

    lemma AfterManifest(t0: seq<byte>, f: Fault)
      requires Inv() && updateActive && |t0| == BANK_SIZE && Validate(env, updateBank, t0).Some?
      requires SameOutside(t0, Bank(updateBank), MANIFEST_OFFSET, SECTOR)
      requires TailsAre(Bank(updateBank), update.plan) && Body(t0) == EncodeBody(updateBank, update) && Marker(t0) == NewMarker()
      ensures Landed() <==> ContentReady()
      ensures f.Cut? && Bank(updateBank) == EraseEffect(t0, MANIFEST_OFFSET, SECTOR, f).1 ==> (Landed() <==> f.reached == 0)
    {
      hide Inv, TailsAre, EncodeBody, EncodeMarker, Validate;
      SameRecord(t0, Bank(updateBank), MANIFEST_OFFSET, SECTOR);
      LandedIffReady();
      if f.Cut? && Bank(updateBank) == EraseEffect(t0, MANIFEST_OFFSET, SECTOR, f).1 { CutErase(env, updateBank, t0, Bank(updateBank), f); }
    }

    static lemma CutErase(env: Env, id: BankId, t: seq<byte>, t': seq<byte>, f: Fault)
      requires |t| == BANK_SIZE && f.Cut? && t' == EraseEffect(t, MANIFEST_OFFSET, SECTOR, f).1
      ensures f.reached == 0 ==> t' == t
      ensures f.reached > 0 ==> Validate(env, id, t').None?
    {
      hide Validate;
      if f.reached > 0 {
        assert t'[MANIFEST_OFFSET] == 0xFF;
        BlankManifestIsInvalid(env, id, t');
      }
    }

    static lemma SameRecord(t: seq<byte>, t': seq<byte>, off: nat, len: nat)
      requires |t| == BANK_SIZE && SameOutside(t, t', off, len) && off + len <= COMMIT_OFFSET
      ensures |t'| == BANK_SIZE && Body(t') == Body(t) && Marker(t') == Marker(t)
    {
    }

    predicate AnnouncedManifest(data: seq<byte>)
      reads this`update
    {
      |data| == update.plan.manifestBytes && Crc32.Crc(data) == update.plan.manifestCrc && env.sha256(data) == update.plan.manifestSha
    }

    predicate AnnouncedBlock(i: nat, data: seq<byte>)
      reads this`update
    {
      i < BLOCK_COUNT && 0 < |data| == BlockLength(update.plan.payloadBytes, i) && Crc32.Crc(data) == update.plan.blockCrcs[i]
    }

    lemma StoredAsWritten(data: seq<byte>)
      requires flash.Valid() && |data| <= SECTOR && AnnouncedManifest(data) && Manifest(Bank(updateBank), |data|) == data
      ensures ManifestStored(env, Bank(updateBank), update.plan)
    {
      hide Crc32.Crc, Manifest;
    }

    lemma BlockStoredAsWritten(i: nat, data: seq<byte>)
      requires flash.Valid() && AnnouncedBlock(i, data) && update.plan.payloadBytes <= PAYLOAD_MAX && BlockOffset(i) + |data| <= BANK_SIZE
      requires Bank(updateBank)[BlockOffset(i)..BlockOffset(i) + |data|] == data
      ensures BlockStored(Bank(updateBank), update.plan, i)
    {
      hide Crc32.Crc, BlockLength;
    }

    twostate lemma ClaimedManifest()
      requires old(Inv() && updateActive)
      ensures old(manifestComplete) ==> ManifestStored(env, old(Bank(updateBank)), old(update).plan)
    {
      hide ManifestStored;
    }

    method TransferManifest(data: seq<byte>) returns (r: StoreResult)
      requires Inv() && updateActive && !manifestComplete && |data| == update.plan.manifestBytes && |data| <= SECTOR
      modifies this`manifestComplete, flash`faults, flash.Cells(updateBank)
      ensures Inv() && !r.TransactionMismatch?
      ensures r.StoreOk? ==> manifestComplete && Manifest(Bank(updateBank), |data|) == data
      ensures manifestComplete ==> ManifestStored(env, Bank(updateBank), update.plan)
      ensures SameOutside(old(Bank(updateBank)), Bank(updateBank), MANIFEST_OFFSET, SECTOR)
      ensures old(Calm()) ==> Calm() && (AnnouncedManifest(data) ==> r.StoreOk?)
      ensures old(TailsAre(Bank(updateBank), update.plan)) ==> TailsAre(Bank(updateBank), update.plan)
      ensures old(LastOf(3)) ==> r.StoreIoError? && !manifestComplete && Manifest(Bank(updateBank), |data|) == data
      ensures old(flash.NextFault()).Cut? ==>
        r.StoreIoError? && !manifestComplete && Bank(updateBank) == EraseEffect(old(Bank(updateBank)), MANIFEST_OFFSET, SECTOR, old(flash.NextFault())).1
    {
      hide After, EraseEffect, TailsAre, Inv, ManifestStored, PlanIsValid, WroteUpTo, ErasedUpTo, SameOutside, Agree, CanProgram, AnnouncedManifest;
      ghost var t0 := Bank(updateBank);
      AfterFew(flash.faults);
      var io := EraseContent(MANIFEST_OFFSET, SECTOR, 0);
      ghost var t1 := Bank(updateBank);
      ErasedIsWritten(t0, t1, MANIFEST_OFFSET, SECTOR, io);
      RegionWritten(t0, t1, MANIFEST_OFFSET, Fill(SECTOR, 0xFF), io, MANIFEST_OFFSET, SECTOR);
      if !io.IoOk? { return MapIo(io); }
      WroteAll(t0, t1, MANIFEST_OFFSET, Fill(SECTOR, 0xFF), io);
      FilledTakes(t1, MANIFEST_OFFSET, SECTOR, data);
      io := WriteContent(MANIFEST_OFFSET, data, 0);
      ghost var t2 := Bank(updateBank);
      RegionWritten(t1, t2, MANIFEST_OFFSET, data, io, MANIFEST_OFFSET, SECTOR);
      SameOutsideTransitive(t0, t1, t2, MANIFEST_OFFSET, SECTOR);
      if !io.IoOk? { return MapIo(io); }
      WroteAll(t1, t2, MANIFEST_OFFSET, data, io);
      r := ConfirmManifest(data);
      SameOutsideTransitive(t0, t2, Bank(updateBank), MANIFEST_OFFSET, SECTOR);
    }

    /** Read the manifest back, and only then mark it complete in the journal. */
    method ConfirmManifest(data: seq<byte>) returns (r: StoreResult)
      requires Inv() && updateActive && !manifestComplete && |data| == update.plan.manifestBytes && |data| <= SECTOR
      requires Manifest(Bank(updateBank), |data|) == data
      modifies this`manifestComplete, flash`faults, flash.Cells(updateBank)
      ensures Inv() && !r.TransactionMismatch? && Manifest(Bank(updateBank), |data|) == data
      ensures r.StoreOk? ==> manifestComplete
      ensures manifestComplete ==> ManifestStored(env, Bank(updateBank), update.plan)
      ensures SameOutside(old(Bank(updateBank)), Bank(updateBank), MANIFEST_OFFSET, SECTOR)
      ensures old(Calm()) ==> Calm() && (AnnouncedManifest(data) ==> r.StoreOk?)
      ensures old(TailsAre(Bank(updateBank), update.plan)) ==> TailsAre(Bank(updateBank), update.plan)
      ensures old(flash.NextFault()).Cut? ==> r.StoreIoError? && !manifestComplete
    {
      hide After, TailsAre, Inv, ManifestStored, PlanIsValid, WroteUpTo, SameOutside, Agree, CanProgram, AnnouncedManifest;
      ghost var t2 := Bank(updateBank);
      SameOutsideReflexive(t2, MANIFEST_OFFSET, SECTOR);
      ProgressFacts();
      if AnnouncedManifest(data) { StoredAsWritten(data); }
      r := VerifyManifest();
      if !r.StoreOk? { return r; }
      ClaimManifest(true);
      var mark: seq<byte> := [0];
      MaskedIsCleared(t2[JOURNAL_OFFSET], 0);
      ClearedTakes(t2, JOURNAL_OFFSET, 0);
      var io := WriteContent(JOURNAL_OFFSET, mark, 0);
      ghost var t3 := Bank(updateBank);
      RegionWritten(t2, t3, JOURNAL_OFFSET, mark, io, MANIFEST_OFFSET, SECTOR);
      WroteOutside(t2, t3, JOURNAL_OFFSET, mark, io, MANIFEST_OFFSET, JOURNAL_OFFSET);
      AgreeSlice(t2, t3, MANIFEST_OFFSET, MANIFEST_OFFSET + |data|) by { AgreeWithin(t2, t3, MANIFEST_OFFSET, JOURNAL_OFFSET, MANIFEST_OFFSET, MANIFEST_OFFSET + |data|); }
      ProgressFacts();
      r := MapIo(io);
    }

    /** One block, verified in flash before the journal is touched; a block already complete is never rewritten. */
    method WritePayloadBlock(i: nat, data: seq<byte>) returns (r: StoreResult)
      requires Inv()
      modifies this`payloadComplete, flash`faults, flash.Cells(updateBank)
      ensures Inv()
      ensures !updateActive <==> r.TransactionMismatch?
      ensures r.StoreOk? ==> i < BLOCK_COUNT && payloadComplete[i] && BlockStored(Bank(updateBank), update.plan, i)
      ensures r.StoreOk? ==> |data| == BlockLength(update.plan.payloadBytes, i) && Crc32.Crc(data) == update.plan.blockCrcs[i]
      ensures forall j :: 0 <= j < BLOCK_COUNT && j != i ==> payloadComplete[j] == old(payloadComplete[j])
      ensures !updateActive || i >= BLOCK_COUNT || old(payloadComplete[i]) ==> Bank(updateBank) == old(Bank(updateBank))
      ensures r.StoreOk? && !old(payloadComplete[i]) ==> BlockHolds(i, data)
      ensures r.StoreOk? && !old(payloadComplete[i]) ==>
        Bank(updateBank)[JournalOffset(i)] == JournalOctet(old(Bank(updateBank))[JournalOffset(i)], i)
      ensures SameOutside(old(Bank(updateBank)), Bank(updateBank), BlockOffset(i), BLOCK)
      ensures i < BLOCK_COUNT && !payloadComplete[i] ==> Agree(old(Bank(updateBank)), Bank(updateBank), JOURNAL_OFFSET, PAYLOAD_OFFSET)
      ensures MarksKept(old(payloadComplete)) && (!updateActive ==> payloadComplete == old(payloadComplete))
      ensures old(updateActive && TailsAre(Bank(updateBank), update.plan)) ==> TailsAre(Bank(updateBank), update.plan)
      // Nothing is rewritten but an announced block that is not marked complete.
      ensures !(updateActive && AnnouncedBlock(i, data) && |old(payloadComplete)| == BLOCK_COUNT && !old(payloadComplete)[i]) ==>
        Bank(updateBank) == old(Bank(updateBank))
      // Undisturbed, exactly the announced block is accepted.
      ensures old(Calm()) && updateActive ==> Calm() && (r.StoreOk? <==> AnnouncedBlock(i, data))
    {
      hide Inv, ManifestStored, BlockStored, PlanIsValid, Crc32.Crc, WroteUpTo, ErasedUpTo, SameOutside, BlockHolds, AnnouncedBlock, BlockLength, Agree;
      ghost var t0 := Bank(updateBank);
      SameOutsideReflexive(t0, BlockOffset(i), BLOCK);
      InvLengths();
      if !updateActive { return TransactionMismatch; }
      OpenUpdate();
      AnnouncedBlockIs(i, data);
      BlockCountFits(update.plan);
      if i >= BlockCount(update.plan.payloadBytes) || |data| != BlockLength(update.plan.payloadBytes, i) {
        return StoreInvalidArgument;
      }
      var crc := Crc32.Compute(data);
      if crc != update.plan.blockCrcs[i] { return CrcMismatch; }
      if payloadComplete[i] {
        var v, complete := VerifyPayloadBlock(i);
        if !v.StoreOk? { return v; }
        if !complete { ClaimBlock(i, false); }
        r := if complete then StoreOk else CrcMismatch;
      } else {
        PlanBounds(update.plan);
        r := TransferBlock(i, data);
      }
      ClaimedBlock(i);
    }

    lemma AnnouncedBlockIs(i: nat, data: seq<byte>)
      ensures BlockLength(update.plan.payloadBytes, i) > 0 <==> i < BlockCount(update.plan.payloadBytes)
      ensures PlanIsValid(update.plan) ==>
        (AnnouncedBlock(i, data) <==>
           && i < BlockCount(update.plan.payloadBytes) && |data| == BlockLength(update.plan.payloadBytes, i)
           && Crc32.Crc(data) == update.plan.blockCrcs[i])
    {
      hide Crc32.Crc, BlockLength;
      BlockCountLengths(update.plan, i);
      if PlanIsValid(update.plan) { BlockCountFits(update.plan); }
    }

    twostate lemma ClaimedBlock(i: nat)
      requires old(Inv() && updateActive) && i < BLOCK_COUNT
      ensures |old(payloadComplete)| == BLOCK_COUNT
      ensures old(payloadComplete)[i] ==> BlockStored(old(Bank(updateBank)), old(update).plan, i)
    {
      hide BlockStored;
    }

    ghost predicate BlockHolds(i: nat, data: seq<byte>)
      reads this`updateBank, flash.bankA, flash.bankB
      requires flash.Valid()
    {
      BlockOffset(i) + |data| <= BANK_SIZE && Bank(updateBank)[BlockOffset(i)..BlockOffset(i) + |data|] == data
    }

    lemma InvLengths()
      requires Inv()
      ensures |payloadComplete| == BLOCK_COUNT
    {
    }

    method TransferBlock(i: nat, data: seq<byte>) returns (r: StoreResult)
      requires Inv() && updateActive && i < BLOCK_COUNT && |payloadComplete| == BLOCK_COUNT && !payloadComplete[i]
      requires |data| == BlockLength(update.plan.payloadBytes, i) > 0 && update.plan.payloadBytes <= PAYLOAD_MAX
      modifies this`payloadComplete, flash`faults, flash.Cells(updateBank)
      ensures Inv() && !r.TransactionMismatch? && |payloadComplete| == BLOCK_COUNT
      ensures payloadComplete == old(payloadComplete)[i := payloadComplete[i]]
      ensures r.StoreOk? ==> payloadComplete[i] && BlockHolds(i, data)
      ensures payloadComplete[i] ==> BlockStored(Bank(updateBank), update.plan, i)
      ensures !payloadComplete[i] ==> Agree(old(Bank(updateBank)), Bank(updateBank), JOURNAL_OFFSET, PAYLOAD_OFFSET)
      ensures r.StoreOk? ==> Bank(updateBank)[JournalOffset(i)] == JournalOctet(old(Bank(updateBank))[JournalOffset(i)], i)
      ensures SameOutside(old(Bank(updateBank)), Bank(updateBank), BlockOffset(i), BLOCK)
      ensures old(Calm()) ==> Calm() && (AnnouncedBlock(i, data) ==> r.StoreOk?)
      ensures old(TailsAre(Bank(updateBank), update.plan)) ==> TailsAre(Bank(updateBank), update.plan)
    {
      hide Inv, BlockStored, BlockHolds, SameOutside, Agree, JournalOctet, BlockLength, AnnouncedBlock;
      ghost var t0 := Bank(updateBank);
      var io := StoreBlock(i, data);
      if !io.IoOk? { return MapIo(io); }
      ghost var t1 := Bank(updateBank);
      r := ConfirmBlock(i, data);
      SameOutsideTransitive(t0, t1, Bank(updateBank), BlockOffset(i), BLOCK);
      if !payloadComplete[i] { AgreeTransitive(t0, t1, Bank(updateBank), JOURNAL_OFFSET, PAYLOAD_OFFSET); }
      AgreeAt(t0, t1, JOURNAL_OFFSET, PAYLOAD_OFFSET, JournalOffset(i));
    }

    /** The block's sector is erased and written; the journal is not touched. */
    method StoreBlock(i: nat, data: seq<byte>) returns (io: IoResult)
      requires Inv() && updateActive && i < BLOCK_COUNT && |payloadComplete| == BLOCK_COUNT && !payloadComplete[i]
      requires |data| == BlockLength(update.plan.payloadBytes, i) > 0 && update.plan.payloadBytes <= PAYLOAD_MAX
      modifies flash`faults, flash.Cells(updateBank)
      ensures Inv() && (io.IoOk? ==> BlockHolds(i, data))
      ensures Agree(old(Bank(updateBank)), Bank(updateBank), JOURNAL_OFFSET, PAYLOAD_OFFSET)
      ensures SameOutside(old(Bank(updateBank)), Bank(updateBank), BlockOffset(i), BLOCK)
      ensures old(Calm()) ==> Calm() && io.IoOk?
      ensures old(TailsAre(Bank(updateBank), update.plan)) ==> TailsAre(Bank(updateBank), update.plan)
    {
      hide Inv, WroteUpTo, SameOutside, Agree, BlockLength, CanProgram, TailsAre;
      ghost var t0 := Bank(updateBank);
      BlockFits(update.plan.payloadBytes, i);
      io := EraseBlock(i);
      if !io.IoOk? { return; }
      ghost var t1 := Bank(updateBank);
      FilledTakes(t1, BlockOffset(i), BLOCK, data);
      io := WriteContent(BlockOffset(i), data, i);
      ghost var t2 := Bank(updateBank);
      RegionWritten(t1, t2, BlockOffset(i), data, io, BlockOffset(i), BLOCK);
      SameOutsideTransitive(t0, t1, t2, BlockOffset(i), BLOCK);
      WroteOutside(t1, t2, BlockOffset(i), data, io, JOURNAL_OFFSET, PAYLOAD_OFFSET);
      AgreeTransitive(t0, t1, t2, JOURNAL_OFFSET, PAYLOAD_OFFSET);
      if io.IoOk? { WroteAll(t1, t2, BlockOffset(i), data, io); }
    }

    method EraseBlock(i: nat) returns (io: IoResult)
      requires Inv() && updateActive && i < BLOCK_COUNT && |payloadComplete| == BLOCK_COUNT && !payloadComplete[i]
      modifies flash`faults, flash.Cells(updateBank)
      ensures Inv() && (io.IoOk? ==> Bank(updateBank)[BlockOffset(i)..BlockOffset(i) + BLOCK] == Fill(BLOCK, 0xFF))
      ensures Agree(old(Bank(updateBank)), Bank(updateBank), JOURNAL_OFFSET, PAYLOAD_OFFSET)
      ensures SameOutside(old(Bank(updateBank)), Bank(updateBank), BlockOffset(i), BLOCK)
      ensures old(Calm()) ==> Calm() && io.IoOk?
      ensures old(TailsAre(Bank(updateBank), update.plan)) ==> TailsAre(Bank(updateBank), update.plan)
    {
      hide Inv, WroteUpTo, ErasedUpTo, SameOutside, Agree, TailsAre;
      ghost var t0 := Bank(updateBank);
      io := EraseContent(BlockOffset(i), BLOCK, i);
      ghost var t1 := Bank(updateBank);
      ErasedIsWritten(t0, t1, BlockOffset(i), BLOCK, io);
      RegionWritten(t0, t1, BlockOffset(i), Fill(BLOCK, 0xFF), io, BlockOffset(i), BLOCK);
      WroteOutside(t0, t1, BlockOffset(i), Fill(BLOCK, 0xFF), io, JOURNAL_OFFSET, PAYLOAD_OFFSET);
      if io.IoOk? { WroteAll(t0, t1, BlockOffset(i), Fill(BLOCK, 0xFF), io); }
    }

    /** The block is read back from flash, and only then marked in the journal. */
    method ConfirmBlock(i: nat, data: seq<byte>) returns (r: StoreResult)
      requires Inv() && updateActive && i < BLOCK_COUNT && |payloadComplete| == BLOCK_COUNT && !payloadComplete[i]
      requires |data| == BlockLength(update.plan.payloadBytes, i) > 0 && update.plan.payloadBytes <= PAYLOAD_MAX && BlockHolds(i, data)
      modifies this`payloadComplete, flash`faults, flash.Cells(updateBank)
      ensures Inv() && !r.TransactionMismatch? && |payloadComplete| == BLOCK_COUNT && BlockHolds(i, data)
      ensures payloadComplete == old(payloadComplete)[i := payloadComplete[i]]
      ensures r.StoreOk? ==> payloadComplete[i]
      ensures payloadComplete[i] ==> BlockStored(Bank(updateBank), update.plan, i)
      ensures !payloadComplete[i] ==> Agree(old(Bank(updateBank)), Bank(updateBank), JOURNAL_OFFSET, PAYLOAD_OFFSET)
      ensures r.StoreOk? ==> Bank(updateBank)[JournalOffset(i)] == JournalOctet(old(Bank(updateBank))[JournalOffset(i)], i)
      ensures SameOutside(old(Bank(updateBank)), Bank(updateBank), BlockOffset(i), BLOCK)
      ensures old(Calm()) ==> Calm() && (AnnouncedBlock(i, data) ==> r.StoreOk?)
      ensures old(TailsAre(Bank(updateBank), update.plan)) ==> TailsAre(Bank(updateBank), update.plan)
    {
      hide Inv, BlockStored, ManifestStored, PlanIsValid, SameOutside, Agree, JournalOctet, BlockLength, SelfAuthenticated, AnnouncedBlock;
      ghost var t2 := Bank(updateBank);
      SameOutsideReflexive(t2, BlockOffset(i), BLOCK);
      BlockFits(update.plan.payloadBytes, i);
      ProgressFacts();
      if AnnouncedBlock(i, data) { BlockStoredAsWritten(i, data); }
      var v, complete := VerifyPayloadBlock(i);
      if !v.StoreOk? || !complete { return if v.StoreOk? then CrcMismatch else v; }
      ClaimBlock(i, true);
      r := MarkPayloadComplete(i);
      ghost var t3 := Bank(updateBank);
      AgreeSlice(t2, t3, BlockOffset(i), BlockOffset(i) + |data|) by { AgreeWithin(t2, t3, PAYLOAD_OFFSET, BANK_SIZE, BlockOffset(i), BlockOffset(i) + |data|); }
      ProgressFacts();
    }

    method MarkPayloadComplete(i: nat) returns (r: StoreResult)
      requires Inv() && updateActive && i < BLOCK_COUNT
      modifies flash`faults, flash.Cells(updateBank)
      ensures Inv() && !r.TransactionMismatch?
      ensures Agree(old(Bank(updateBank)), Bank(updateBank), PAYLOAD_OFFSET, BANK_SIZE)
      ensures forall off, len :: SameOutside(old(Bank(updateBank)), Bank(updateBank), off, len)
      ensures r.StoreOk? ==> Bank(updateBank)[JournalOffset(i)] == JournalOctet(old(Bank(updateBank))[JournalOffset(i)], i)
      ensures old(Calm()) ==> Calm() && r.StoreOk?
      ensures old(TailsAre(Bank(updateBank), update.plan)) ==> TailsAre(Bank(updateBank), update.plan)
    {
      hide Inv, WroteUpTo, JournalOctet, CanProgram;
      ghost var t := Bank(updateBank);
      var io, current := flash.Read(updateBank, JournalOffset(i), 1);
      if !io.IoOk? { return MapIo(io); }
      var updated := JournalOctet(current[0], i);
      JournalOctetClears(current[0], i);
      ClearedTakes(t, JournalOffset(i), updated);
      io := WriteContent(JournalOffset(i), [updated], 0);
      WroteOutside(t, Bank(updateBank), JournalOffset(i), [updated], io, PAYLOAD_OFFSET, BANK_SIZE);
      forall off: nat, len: nat ensures SameOutside(t, Bank(updateBank), off, len) {
        RegionWritten(t, Bank(updateBank), JournalOffset(i), [updated], io, off, len);
      }
      if io.IoOk? {
        WroteAll(t, Bank(updateBank), JournalOffset(i), [updated], io);
        assert Bank(updateBank)[JournalOffset(i)..JournalOffset(i) + 1][0] == updated;
      }
      r := MapIo(io);
    }

    // ---- commit ----

    method VerifyAllPayloadBlocks() returns (r: StoreResult)
      requires Inv() && updateActive
      modifies this`payloadComplete, flash`faults
      ensures Inv() && !r.TransactionMismatch?
      ensures r.StoreOk? ==> AllMarked()
      ensures |payloadComplete| == BLOCK_COUNT
      ensures MarksKept(old(payloadComplete))
      ensures old(Calm()) ==> Calm() && (r.StoreOk? <==> AllStored())
      ensures update.plan.payloadBytes == 0 ==> r.StoreOk? && AllStored() && flash.faults == old(flash.faults)
    {
      hide Inv, BlockStored, PlanIsValid, BlockLength;
      OpenUpdate();
      InvLengths();
      BlockCountFits(update.plan);
      for i := 0 to BlockCount(update.plan.payloadBytes)
        invariant Inv() && |payloadComplete| == BLOCK_COUNT
        invariant forall j :: 0 <= j < i ==> payloadComplete[j] && BlockStored(Bank(updateBank), update.plan, j)
        invariant old(Calm()) ==> Calm()
        invariant MarksKept(old(payloadComplete))
        invariant i == 0 ==> flash.faults == old(flash.faults)
      {
        ProgressFacts();
        var v, complete := VerifyPayloadBlock(i);
        BlockCountLengths(update.plan, i);
        if !v.StoreOk? { return v; }
        ClaimBlock(i, complete);
        if !complete { return Incomplete; }
      }
      r := StoreOk;
    }

    /** What was marked complete still is. */
    ghost predicate MarksKept(before: seq<bool>)
      reads this`payloadComplete
    {
      |payloadComplete| == |before| && forall j :: 0 <= j < |before| && before[j] ==> payloadComplete[j]
    }

    lemma SameMarks()
      ensures MarksKept(payloadComplete)
    {
    }

    /** Every block of the payload is marked complete. */
    ghost predicate AllMarked()
      reads this`payloadComplete, this`update
    {
      forall i :: 0 <= i < BlockCount(update.plan.payloadBytes) && i < |payloadComplete| ==> payloadComplete[i]
    }

    lemma NoReads()
      ensures Reads(0) == 0
    {
    }

    ghost predicate AllStored()
      reads this`updateBank, this`update, flash.bankA, flash.bankB
      requires flash.Valid()
    {
      forall i :: 0 <= i < BlockCount(update.plan.payloadBytes) ==> BlockStored(Bank(updateBank), update.plan, i)
    }

    /** Everything commit insists on before the first octet of the commit record is programmed. */
    method CheckComplete() returns (r: StoreResult)
      requires Inv() && updateActive
      modifies this`payloadComplete, flash`faults
      ensures Inv() && !r.TransactionMismatch?
      ensures |payloadComplete| == BLOCK_COUNT && (r.StoreOk? ==> ContentReady() && AllMarked())
      ensures MarksKept(old(payloadComplete))
      ensures old(Calm()) ==> Calm() && (r.StoreOk? <==> Committable())
      ensures var n := Reads(update.plan.manifestBytes);
        update.plan.payloadBytes == 0 && old(flash.Quiet(n + n + n)) ==>
          (r.StoreOk? <==> Committable()) && (r.StoreOk? ==> flash.faults == After(old(flash.faults), n + n + n))
    {
      hide Inv, PlanIsValid, ContentMatches, ManifestStored, BlockStored, Reads, AllStored, AllMarked, MarksKept;
      ghost var n := Reads(update.plan.manifestBytes);
      AfterAfter(flash.faults, n + n, n);
      assert Reads(0) == 0 by { NoReads(); }
      OpenUpdate();
      PlanBounds(update.plan);
      r := VerifyParts();
      if !r.StoreOk? { return r; }
      r := CheckContent(updateBank, update.plan.manifestBytes, update.plan.payloadBytes, update.plan.manifestSha, update.plan.bundleSha);
    }

    /** The manifest and every block, each against its own announcement. */
    method VerifyParts() returns (r: StoreResult)
      requires Inv() && updateActive
      modifies this`payloadComplete, flash`faults
      ensures Inv() && !r.TransactionMismatch?
      ensures |payloadComplete| == BLOCK_COUNT && (r.StoreOk? ==> AllMarked())
      ensures MarksKept(old(payloadComplete))
      ensures old(Calm()) ==> Calm() && (r.StoreOk? <==> ManifestStored(env, Bank(updateBank), update.plan) && AllStored())
      ensures var n := Reads(update.plan.manifestBytes);
        update.plan.payloadBytes == 0 && old(flash.Quiet(n + n)) ==>
          && (r.StoreOk? <==> ManifestStored(env, Bank(updateBank), update.plan) && AllStored())
          && (r.StoreOk? ==> flash.faults == After(old(flash.faults), n + n))
    {
      hide Inv, PlanIsValid, ManifestStored, BlockStored, Reads, AllStored, AllMarked, MarksKept;
      OpenUpdate();
      SameMarks();
      InvLengths();
      r := VerifyManifest();
      if !r.StoreOk? { return r; }
      r := VerifyAllPayloadBlocks();
    }

    /** Manifest and blocks are in flash as announced, one by one and as a whole. */
    ghost predicate Committable()
      reads this`updateBank, this`update, flash.bankA, flash.bankB
      requires flash.Valid()
    {
      ManifestStored(env, Bank(updateBank), update.plan) && AllStored() && ContentReady()
    }

    ghost predicate CommitTakes()
      reads this`updateBank, this`update, flash.bankA, flash.bankB
      requires flash.Valid()
    {
      TakesRecord(updateBank, update, Bank(updateBank))
    }

    ghost predicate ContentReady()
      reads this`updateBank, this`update, flash.bankA, flash.bankB
      requires flash.Valid()
    {
      var p := update.plan;
      && p.manifestBytes <= SECTOR && p.payloadBytes <= PAYLOAD_MAX
      && ContentMatches(env, Bank(updateBank), p.manifestBytes, p.payloadBytes, p.manifestSha, p.bundleSha)
    }

    function NewMarker(): seq<byte>
      reads this`updateBank, this`update
    {
      EncodeMarker(EncodeBody(updateBank, update)[112..116])
    }

    function NewSnapshot(): Snapshot
      reads this`updateBank, this`update
    {
      SnapshotFor(updateBank, update)
    }

    /** The whole body is in flash, read back, before the marker is started; a reported error is forgiven if the octets are there. */
    method ProgramCommit() returns (r: StoreResult)
      requires Inv() && updateActive && ContentReady()
      modifies flash`faults, flash.Cells(updateBank)
      ensures Inv() && ContentReady() && !r.TransactionMismatch?
      ensures Agree(old(Bank(updateBank)), Bank(updateBank), 0, COMMIT_OFFSET)
      ensures old(TailsAre(Bank(updateBank), update.plan)) ==> TailsAre(Bank(updateBank), update.plan)
      ensures Marker(Bank(updateBank)) != old(Marker(Bank(updateBank))) ==> Body(Bank(updateBank)) == EncodeBody(updateBank, update)
      ensures r.StoreOk? ==> Marker(Bank(updateBank)) == NewMarker() && Body(Bank(updateBank)) == EncodeBody(updateBank, update)
      ensures old(Body(Bank(updateBank)) == EncodeBody(updateBank, update) && Marker(Bank(updateBank)) == NewMarker()) ==>
        Bank(updateBank) == old(Bank(updateBank))
      ensures old(CommitTakes()) ==> CommitTakes() && (old(Calm()) ==> Calm() && r.StoreOk?)
      // With only the last read-back lost, the record is in flash and reported as failed.
      ensures old(CommitTakes() && LastOf(4)) ==>
        !r.StoreOk? && Body(Bank(updateBank)) == EncodeBody(updateBank, update) && Marker(Bank(updateBank)) == NewMarker()
    {
      hide Inv, Agree, ContentMatches, EncodeBody, EncodeMarker, Marker, Body, CanProgram;
      ghost var t0 := Bank(updateBank);
      var body := EncodeBody(updateBank, update);
      var io := WriteBody(body);
      ghost var t1 := Bank(updateBank);
      BodyIs(t1);
      var io2, readback := flash.Read(updateBank, COMMIT_OFFSET, BODY_BYTES);
      if !io2.IoOk? || readback != body { return if io.IoOk? then StoreIoError else MapIo(io); }
      assert Body(t1) == body by { BodyIs(t1); }
      io := WriteMarker(EncodeMarker(body[112..116]));
      ghost var t2 := Bank(updateBank);
      AgreeTransitive(t0, t1, t2, 0, COMMIT_OFFSET);
      BodyIs(t2);
      var io3, marker := flash.Read(updateBank, MARKER_OFFSET, MARKER_BYTES);
      if !io3.IoOk? || marker != EncodeMarker(body[112..116]) { return if io.IoOk? then StoreIoError else MapIo(io); }
      BodyIs(t2);
      r := StoreOk;
    }

    method WriteBody(body: seq<byte>) returns (io: IoResult)
      requires Inv() && updateActive && ContentReady()
      requires body == EncodeBody(updateBank, update)
      modifies flash`faults, flash.Cells(updateBank)
      ensures Inv() && ContentReady()
      ensures Agree(old(Bank(updateBank)), Bank(updateBank), 0, COMMIT_OFFSET)
      ensures old(TailsAre(Bank(updateBank), update.plan)) ==> TailsAre(Bank(updateBank), update.plan)
      ensures Marker(Bank(updateBank)) == old(Marker(Bank(updateBank)))
      ensures old(Body(Bank(updateBank))) == body ==> Bank(updateBank) == old(Bank(updateBank))
      ensures flash.faults == After(old(flash.faults), 1) && (old(Calm()) ==> Calm())
      ensures old(flash.NextFault()).NoFault? && CanProgram(old(Bank(updateBank)), COMMIT_OFFSET, body) ==>
        io.IoOk? && Body(Bank(updateBank)) == body
      ensures old(CommitTakes()) ==> CommitTakes()
    {
      hide CanProgram, Validate, Updating, ProgressSound, TailsAre, TailsClean, Durable, CacheExact, LeasesDistinct, WroteUpTo, EncodeBody, ContentMatches, Agree;
      ghost var t, o := Bank(updateBank), Bank(updateBank.Other());
      io := flash.Write(updateBank, COMMIT_OFFSET, body);
      ghost var t' := Bank(updateBank);
      CommitBodyWrite(env, updateBank, update, t, o, t', io);
      ProgressKept(env, t, t', COMMIT_OFFSET, body, io, update.plan, manifestComplete, payloadComplete, 0);
      if TailsAre(t, update.plan) { WriteKeepsTails(t, t', COMMIT_OFFSET, body, io, update.plan); }
      AfterStagedMutation();
      MarkerFrame(t, t');
      SameContent(env, update.plan, t, t');
      BodyIs(t);
      BodyIs(t');
      if io.IoOk? { WroteAll(t, t', COMMIT_OFFSET, body, io); }
      if old(CommitTakes()) {
        StillTakes(t, t', COMMIT_OFFSET, body, io, COMMIT_OFFSET, body);
        StillTakes(t, t', COMMIT_OFFSET, body, io, MARKER_OFFSET, NewMarker());
      }
      if Body(t) == body { RewriteIsNothing(t, t', COMMIT_OFFSET, body, io); }
    }

    method WriteMarker(marker: seq<byte>) returns (io: IoResult)
      requires Inv() && updateActive && ContentReady() && marker == NewMarker() && Body(Bank(updateBank)) == EncodeBody(updateBank, update)
      modifies flash`faults, flash.Cells(updateBank)
      ensures Inv() && ContentReady() && Body(Bank(updateBank)) == EncodeBody(updateBank, update)
      ensures Agree(old(Bank(updateBank)), Bank(updateBank), 0, COMMIT_OFFSET)
      ensures old(TailsAre(Bank(updateBank), update.plan)) ==> TailsAre(Bank(updateBank), update.plan)
      ensures old(Marker(Bank(updateBank))) == marker ==> Bank(updateBank) == old(Bank(updateBank))
      ensures flash.faults == After(old(flash.faults), 1) && (old(Calm()) ==> Calm())
      ensures old(flash.NextFault()).NoFault? && CanProgram(old(Bank(updateBank)), MARKER_OFFSET, marker) ==>
        io.IoOk? && Marker(Bank(updateBank)) == marker
      ensures old(CommitTakes()) ==> CommitTakes()
    {
      hide CanProgram, Validate, Updating, ProgressSound, TailsAre, TailsClean, Durable, CacheExact, LeasesDistinct, WroteUpTo, EncodeBody, EncodeMarker, ContentMatches, Agree, Body, Marker;
      ghost var t, o := Bank(updateBank), Bank(updateBank.Other());
      io := flash.Write(updateBank, MARKER_OFFSET, marker);
      ghost var t' := Bank(updateBank);
      CommitMarkerWrite(env, updateBank, update, t, o, t', io);
      AgreeWithin(t, t', 0, MARKER_OFFSET, 0, COMMIT_OFFSET);
      ProgressKept(env, t, t', MARKER_OFFSET, marker, io, update.plan, manifestComplete, payloadComplete, 0);
      if TailsAre(t, update.plan) { WriteKeepsTails(t, t', MARKER_OFFSET, marker, io, update.plan); }
      AfterStagedMutation();
      SameContent(env, update.plan, t, t');
      BodyIs(t);
      if Marker(t) == marker { RewriteIsNothing(t, t', MARKER_OFFSET, marker, io); }
      BodyIs(t');
      if io.IoOk? { WroteAll(t, t', MARKER_OFFSET, marker, io); }
      if old(CommitTakes()) {
        StillTakes(t, t', MARKER_OFFSET, marker, io, COMMIT_OFFSET, EncodeBody(updateBank, update));
        StillTakes(t, t', MARKER_OFFSET, marker, io, MARKER_OFFSET, marker);
      }
    }

    /** After commit or abort found the marker in flash: select again, and insist the update is what is now current. */
    method RefreshSelectionAfterCommit() returns (r: StoreResult)
      requires flash.Valid() && Durable(env, A, Bank(A), Bank(B))
      modifies this`selection, this`scanned, this`readSelection, this`readScanned, this`readResult, this`unbackedRead, flash`faults
      ensures r.StoreOk? || r.StoreIoError? || r.InvalidBank?
      ensures r.StoreOk? ==> selection == readSelection == SelectBanks(Valid(A), Valid(B)) && !selection.splitBrain
      ensures r.StoreOk? ==> scanned && readScanned && !unbackedRead && readResult.StoreOk? && selection.active.Some?
      ensures !r.StoreOk? ==> unchanged(this)
      ensures r.InvalidBank? ==> Active().None? || Active().value.bank != updateBank || Active().value.generation != update.generation
      ensures old(Calm()) ==> Calm() && !r.StoreIoError?
    {
      hide Validate, Durable, SelectBanks, ActiveOf;
      var ri, s, blank := InspectBothBanks();
      if !ri.StoreOk? { return ri; }
      FreshSelection();
      if s.active.None? || s.splitBrain || s.active.value.bank != updateBank || s.active.value.generation != update.generation {
        return if s.splitBrain then SplitBrain else InvalidBank;
      }
      Publish(s, blank);
      r := StoreOk;
    }

    /** The committed update becomes the selection and the transaction is over. */
    method FinishCommitted() returns (r: StoreResult)
      requires Inv() && updateActive && Valid(updateBank).Some?
      modifies this`selection, this`scanned, this`readSelection, this`readScanned, this`readResult, this`unbackedRead
      modifies this`updateActive, this`updateBank, this`update, this`payloadComplete, this`manifestComplete, flash`faults
      ensures Inv()
      ensures r.StoreOk? || r.StoreIoError?
      ensures r.StoreOk? ==> !updateActive && scanned && readScanned && selection == readSelection && selection.active == Active()
      ensures !r.StoreOk? ==> unchanged(this)
      ensures old(ReadsFresh()) ==> ReadsFresh()
      ensures CachesAre(old(scanned), old(readSelection), old(readScanned))
      ensures r.StoreOk? ==> !unbackedRead
      ensures old(Calm()) ==> Calm() && r.StoreOk?
    {
      hide Inv, Valid, Active, Validate, Durable, SelectBanks, ActiveOf, TailsClean, LeasesDistinct, Staged, CacheExact, SnapshotFor, ReadCacheSound;
      StagedSelection();
      StableFacts();
      r := RefreshSelectionAfterCommit();
      if !r.StoreOk? { return r; }
      ClearUpdate();
      FreshSelection();
      FreshCache();
      ClosedInv();
    }

    /** The open update's commit is already in flash, whatever has been reported about it. */
    ghost predicate Landed()
      reads this`updateActive, this`updateBank, flash.bankA, flash.bankB
      requires flash.Valid()
    {
      updateActive && Valid(updateBank).Some?
    }

    /** What an update does not put at stake. */
    ghost predicate Stable()
      reads this`leases, this`undamaged, flash.bankA, flash.bankB
    {
      && flash.Valid() && LeasesDistinct(leases) && Durable(env, A, Bank(A), Bank(B))
      && (undamaged ==> TailsClean(A, Bank(A)) && TailsClean(B, Bank(B)))
    }

    lemma StableFacts()
      requires Inv()
      ensures Stable() && |payloadComplete| == BLOCK_COUNT && (updateActive ==> Staged())
      ensures scanned ==> CacheExact()
    {
    }

    lemma ClosedInv()
      requires Stable() && |payloadComplete| == BLOCK_COUNT && (scanned ==> CacheExact()) && ReadCacheSound()
      requires updateActive ==> Staged()
      ensures Inv()
    {
    }

    method CommitUpdate() returns (r: StoreResult)
      requires Inv()
      modifies this`selection, this`scanned, this`readSelection, this`readScanned, this`readResult, this`unbackedRead
      modifies this`updateActive, this`updateBank, this`update, this`payloadComplete, this`manifestComplete
      modifies flash`faults, flash.Cells(updateBank)
      ensures Inv()
      ensures r.TransactionMismatch? <==> !old(updateActive)
      ensures r.TransactionMismatch? ==> unchanged(this) && Bank(updateBank) == old(Bank(updateBank))
      // Success: the announced bundle, exactly one generation after its base, is what every later scan selects.
      ensures r.StoreOk? ==> !updateActive && Active() == Some(old(NewSnapshot())) && scanned && selection.active == Active()
      ensures r.StoreOk? ==> readScanned && readSelection.active == Active()
      ensures !r.StoreOk? ==> updateActive == old(updateActive) && updateBank == old(updateBank) && update == old(update)
      ensures !r.StoreOk? ==> manifestComplete == old(manifestComplete)
      // No mark is lost, and whatever is programmed finds every block marked.
      ensures !r.StoreOk? ==> MarksKept(old(payloadComplete))
      ensures !r.StoreOk? && updateActive && Bank(updateBank) != old(Bank(updateBank)) ==> AllMarked()
      ensures !r.StoreOk? && old(updateActive && TailsAre(Bank(updateBank), update.plan)) ==> TailsAre(Bank(updateBank), update.plan)
      // Content and staging are not touched, and the marker is started only under a whole body over matching content.
      ensures Agree(old(Bank(updateBank)), Bank(old(updateBank)), 0, COMMIT_OFFSET)
      ensures Marker(Bank(old(updateBank))) != old(Marker(Bank(updateBank))) ==>
        Body(Bank(old(updateBank))) == old(EncodeBody(updateBank, update)) && old(ContentReady())
      // Whatever was torn, failed or forgiven on the way, the new bundle is current exactly when its whole record is in flash.
      ensures old(undamaged && updateActive && ContentReady()) ==>
        (Active() == Some(old(NewSnapshot())) <==>
           Body(Bank(old(updateBank))) == old(EncodeBody(updateBank, update)) && Marker(Bank(old(updateBank))) == old(NewMarker()))
      ensures !old(updateActive && ContentReady()) ==> Bank(old(updateBank)) == old(Bank(updateBank))
      // Its marker comes last, so if that was not there before, the whole marker says it all.
      ensures old(undamaged && updateActive && ContentReady() && Marker(Bank(updateBank)) != NewMarker()) ==>
        (Active() == Some(old(NewSnapshot())) <==> Marker(Bank(old(updateBank))) == old(NewMarker()))
      ensures old(ReadsFresh()) ==> ReadsFresh()
      ensures CachesAre(old(scanned), old(readSelection), old(readScanned))
      ensures r.StoreOk? ==> !unbackedRead
      // A commit already in flash is never rewritten.
      ensures old(Landed()) ==> Bank(old(updateBank)) == old(Bank(updateBank))
      // Cut anywhere, it can be taken up again: the record's cells still take the record.
      ensures old(updateActive && CommitTakes()) ==> TakesRecord(old(updateBank), old(update), Bank(old(updateBank)))
      ensures r.StoreOk? ==> Body(Bank(old(updateBank))) == old(EncodeBody(updateBank, update)) && Marker(Bank(old(updateBank))) == old(NewMarker())
      // A commit of which only the last read-back is lost has landed, and is reported as failed.
      ensures
        old(updateActive && CommitTakes() && Committable() && update.plan.payloadBytes == 0 && LastOf(3 * Reads(update.plan.manifestBytes) + 4)) ==>
          && !r.StoreOk? && Body(Bank(old(updateBank))) == old(EncodeBody(updateBank, update))
          && Marker(Bank(old(updateBank))) == old(NewMarker())
      // Undisturbed, a commit succeeds exactly when everything announced is in flash.
      ensures old(Calm() && updateActive && undamaged && CommitTakes()) ==> Calm() && (r.StoreOk? <==> old(Committable()))
    {
      hide Inv, Active, Agree, Valid, Validate, Marker, Body, NewMarker, NewSnapshot, ContentReady, EncodeBody, CommitBlank,
        SameOutside, Updating, ProgressExact, SnapshotIsSane, Committable, TakesRecord, Reads;
      SameOutsideReflexive(Bank(updateBank), 0, 0);
      if !updateActive { return TransactionMismatch; }
      CurrentIsMarked();
      if Valid(updateBank).Some? { ValidIsWritten(); }
      r := CheckComplete();
      CurrentIsMarked();
      if !r.StoreOk? { return r; }
      r := ProgramCommit();
      CurrentIsMarked();
      if !r.StoreOk? { return r; }
      CurrentIsNew();
      if Valid(updateBank).Some? { ValidIsWritten(); }
      r := ConfirmCommit();
    }

    /** The finished bank is validated as a whole, and both selections are taken anew. */
    method ConfirmCommit() returns (r: StoreResult)
      requires Inv() && updateActive
      modifies this`selection, this`scanned, this`readSelection, this`readScanned, this`readResult, this`unbackedRead
      modifies this`updateActive, this`updateBank, this`update, this`payloadComplete, this`manifestComplete, flash`faults
      ensures Inv() && !r.TransactionMismatch?
      ensures r.StoreOk? ==> old(Valid(updateBank)).Some? && !updateActive && !unbackedRead
      ensures r.StoreOk? ==> scanned && readScanned && selection == readSelection && selection.active == Active()
      ensures !r.StoreOk? ==> unchanged(this)
      ensures old(ReadsFresh()) ==> ReadsFresh()
      ensures CachesAre(old(scanned), old(readSelection), old(readScanned))
      ensures old(Calm()) ==> Calm() && (r.StoreOk? <==> old(Valid(updateBank)).Some?)
    {
      hide Inv, Active, Validate, NewSnapshot, SnapshotIsSane;
      if Valid(updateBank).Some? { WrittenIsNew(); }
      var c;
      r, c := ValidateBank(updateBank);
      if !r.StoreOk? || c.value.generation != update.generation || c.value.txid != update.txid
         || c.value.bundleSha != update.plan.bundleSha {
        return if r.StoreOk? then HashMismatch else r;
      }
      r := FinishCommitted();
    }

    /** What validation finds in the bank under update, if anything, is what the update announced. */
    lemma WrittenIsNew()
      requires Inv() && updateActive && Valid(updateBank).Some?
      ensures Valid(updateBank) == Some(NewSnapshot())
      ensures NewSnapshot().generation == update.generation && NewSnapshot().txid == update.txid
      ensures NewSnapshot().bundleSha == update.plan.bundleSha
    {
      hide Validate, ProgressSound, TailsAre, TailsClean, Durable, CacheExact, LeasesDistinct, Updating, ActiveOf;
      UpdatingIsDurable(env, updateBank, update, Bank(updateBank), Bank(updateBank.Other()));
    }

    lemma ActiveIsValid()
      requires Inv() && Active().Some?
      ensures Valid(Active().value.bank) == Active()
    {
      hide Validate, ReadCacheSound, TailsClean, LeasesDistinct, CacheExact, Staged, RecordsAgree;
      ValidNamesItsBank(env, A, Bank(A));
      ValidNamesItsBank(env, B, Bank(B));
    }

    lemma ValidIsWritten()
      requires Inv() && updateActive && Valid(updateBank).Some?
      ensures Body(Bank(updateBank)) == EncodeBody(updateBank, update) && Marker(Bank(updateBank)) == NewMarker()
    {
      hide ProgressSound, TailsAre, TailsClean, Durable, CacheExact, LeasesDistinct, ContentMatches, TailsErased, EncodeBody,
        EncodeMarker, SnapshotFor, CommitOf, HeaderOf, PlanIsValid;
      CommitStageDecodes(updateBank, update, Bank(updateBank));
    }

    /** An open update leaves two possible active bundles: what the other bank holds, and the next generation. */
    lemma StagedNext()
      requires Inv() && updateActive
      ensures var o := Valid(updateBank.Other());
              && IsNext(o, Some(NewSnapshot()))
              && Active() == (if Valid(updateBank).Some? then Some(NewSnapshot()) else o)
              && (Valid(updateBank).Some? ==> Marker(Bank(updateBank)) == NewMarker())
    {
      hide Validate, ProgressSound, TailsAre, TailsClean, Durable, CacheExact, LeasesDistinct, HeaderOf, CommitStage, ActiveOf, NewMarker, EncodeBody,
        RecordSettled, PlanIsValid, SelfAuthenticated, ReadCacheSound, SnapshotIsSane;
      StagedSelection();
      if Valid(updateBank).Some? { ValidIsWritten(); }
    }

    lemma CurrentIsMarked()
      requires Inv() && updateActive
      ensures undamaged && ContentReady() ==>
        (Active() == Some(NewSnapshot()) <==> Body(Bank(updateBank)) == EncodeBody(updateBank, update) && Marker(Bank(updateBank)) == NewMarker())
    {
      hide Validate, Updating, ProgressSound, TailsAre, TailsClean, Durable, CacheExact, LeasesDistinct, ActiveOf, ContentMatches,
        EncodeBody, EncodeMarker, SnapshotFor;
      Orient(env, updateBank, Bank(updateBank), Bank(updateBank.Other()));
      if undamaged && ContentReady() {
        CurrentIffMarked(env, updateBank, update, Bank(updateBank), Bank(updateBank.Other()));
      }
    }

    lemma CurrentIsNew()
      requires Inv() && updateActive
      ensures Active() == Some(NewSnapshot()) <==> Valid(updateBank).Some?
    {
      hide Validate, Updating, ProgressSound, TailsAre, TailsClean, Durable, CacheExact, LeasesDistinct, ActiveOf, SnapshotFor;
      Orient(env, updateBank, Bank(updateBank), Bank(updateBank.Other()));
      CurrentNeedsValid(env, updateBank, update, Bank(updateBank), Bank(updateBank.Other()));
    }

    // ---- abort ----

    method EraseStaging() returns (io: IoResult)
      requires Inv() && updateActive
      modifies flash`faults, flash.Cells(updateBank)
      ensures Inv() && Active() == old(Active()) && Valid(updateBank) == old(Valid(updateBank))
      ensures Agree(old(Bank(updateBank)), Bank(updateBank), SECTOR, BANK_SIZE)
      ensures io.IoOk? ==> Staging(updateBank).None?
    {
      hide Validate, Updating, ProgressSound, TailsAre, TailsClean, CacheExact, LeasesDistinct, ErasedUpTo, WroteUpTo, HeaderOf, Agree,
        Durable, ActiveOf;
      ghost var t, o := Bank(updateBank), Bank(updateBank.Other());
      io := flash.Erase(updateBank, HEADER_OFFSET, SECTOR);
      ghost var t' := Bank(updateBank);
      ErasedIsWritten(t, t', HEADER_OFFSET, SECTOR, io);
      StagingSectorErased(env, updateBank, t, t', io);
      AgreeWithin(t, t', SECTOR, BANK_SIZE, COMMIT_OFFSET, MARKER_OFFSET + MARKER_BYTES);
      HeaderDroppedWhileOpen(env, updateBank, update, t, o, t');
      ProgressKept(env, t, t', HEADER_OFFSET, Fill(SECTOR, 0xFF), io, update.plan, manifestComplete, payloadComplete, 0);
      if undamaged { EraseKeepsTails(t, t', HEADER_OFFSET, SECTOR, io, update.plan); }
      AfterStagedMutation();
      StagedActive(env, updateBank, update, t, t', o);
      Orient(env, updateBank, t, o);
      Orient(env, updateBank, t', o);
    }

    /** Give the update up, unless its marker turns out to be in flash: then it is finished instead. */
    method AbortUpdate() returns (r: StoreResult)
      requires Inv()
      modifies this`selection, this`scanned, this`readSelection, this`readScanned, this`readResult, this`unbackedRead
      modifies this`updateActive, this`updateBank, this`update, this`payloadComplete, this`manifestComplete
      modifies flash`faults, flash.Cells(updateBank)
      ensures Inv() && Active() == old(Active())
      ensures r.StoreOk? <==> !updateActive
      ensures !old(updateActive) ==> unchanged(this) && Bank(updateBank) == old(Bank(updateBank))
      ensures !r.StoreOk? ==> updateBank == old(updateBank) && update == old(update) && payloadComplete == old(payloadComplete)
      // A completed marker is never cancelled, and then nothing at all is erased.
      ensures old(Landed()) ==>
        Bank(old(updateBank)) == old(Bank(updateBank)) && (r.StoreOk? ==> selection.active == Active() == old(Valid(updateBank)))
      ensures old(updateActive) && old(Valid(updateBank)).None? && r.StoreOk? ==> Staging(old(updateBank)).None?
      ensures Agree(old(Bank(updateBank)), Bank(old(updateBank)), SECTOR, BANK_SIZE)
      ensures old(ReadsFresh()) ==> ReadsFresh()
      ensures CachesAre(old(scanned), old(readSelection), old(readScanned))
      ensures old(Landed()) && r.StoreOk? ==> readScanned && !unbackedRead
    {
      hide Inv, Active, Valid, Agree, HeaderOf, CommitBlank, SameOutside, Updating, SnapshotFor;
      SameOutsideReflexive(Bank(updateBank), 0, 0);
      if !updateActive { return StoreOk; }
      CurrentIsNew();
      var rv, c := ValidateBank(updateBank);
      if rv.StoreOk? {
        if c.value.generation != update.generation || c.value.txid != update.txid || c.value.bundleSha != update.plan.bundleSha {
          return TransactionMismatch;
        }
        OnlyTheUpdate();
        r := FinishCommitted();
        return;
      }
      if rv.StoreIoError? { return rv; }
      var io := EraseStaging();
      if !io.IoOk? { return MapIo(io); }
      CloseUpdate();
      r := StoreOk;
    }

    lemma OnlyTheUpdate()
      requires Inv() && updateActive && Valid(updateBank).Some?
      ensures Valid(updateBank) == Active()
    {
      hide Validate, Durable, ProgressSound, TailsAre, TailsClean, Updating, SnapshotFor;
      StagedSelection();
    }

    method CloseUpdate()
      requires Inv() && updateActive && Valid(updateBank).None?
      modifies this`updateActive, this`updateBank, this`update, this`payloadComplete, this`manifestComplete
      ensures Inv() && !updateActive
      ensures old(ReadsFresh()) ==> ReadsFresh()
    {
      hide Validate, Durable, Staged, SelectBanks, TailsClean, LeasesDistinct;
      ClearUpdate();
    }

    // ---- read leases ----

    method ReadCandidate(s: Snapshot) returns (r: StoreResult)
      requires flash.Valid() && s.manifestBytes <= SECTOR
      modifies flash`faults
      ensures r.StoreOk? || r.HashMismatch? || r.StoreIoError?
      ensures !r.StoreIoError? ==> (r.StoreOk? <==> env.sha256(Manifest(Bank(s.bank), s.manifestBytes)) == s.manifestSha)
      ensures old(Calm()) ==> Calm() && !r.StoreIoError?
    {
      var rr, manifest := ReadRegion(s.bank, MANIFEST_OFFSET, s.manifestBytes);
      if !rr.StoreOk? { return StoreIoError; }
      r := if env.sha256(manifest) == s.manifestSha then StoreOk else HashMismatch;
    }

    ghost function Record(id: BankId): (c: Option<Snapshot>)
      reads flash.Cells(id)
      requires flash.Valid()
      ensures c.Some? ==> SnapshotIsSane(id, c.value)
    {
      CommitOf(id, Bank(id))
    }

    ghost predicate Readable(id: BankId)
      reads flash.Cells(id)
      requires flash.Valid()
    {
      FastReadable(env, id, Bank(id))
    }

    ghost function LazyView(): Selection
      reads flash.bankA, flash.bankB
      requires flash.Valid()
    {
      LazySelection(Record(A), Record(B), Readable(A), Readable(B))
    }

    /** Keep a candidate only if its manifest authenticates. */
    method Authenticate(c: Option<Snapshot>) returns (ok: bool, kept: Option<Snapshot>)
      requires flash.Valid() && (c.Some? ==> Record(c.value.bank) == c)
      modifies flash`faults
      ensures ok && c.Some? ==> kept == Kept(c, Readable(c.value.bank))
      ensures ok && c.None? ==> kept.None?
      ensures old(Calm()) ==> Calm() && ok
    {
      hide CommitOf;
      if c.None? { return true, None; }
      var r := ReadCandidate(c.value);
      ok, kept := !r.StoreIoError?, if r.StoreOk? then c else None;
    }

    /** Both commit records, then only the manifests the choice depends on. */
    method LazySelect() returns (ok: bool, s: Selection, blank: bool)
      requires flash.Valid()
      modifies flash`faults
      ensures ok && !blank ==> s == LazyView()
      ensures blank ==> ok && s == NOTHING_SELECTED && CommitBlank(Bank(A)) && CommitBlank(Bank(B)) && Record(A).None? && Record(B).None?
      ensures old(Calm()) ==> Calm() && ok
    {
      hide CommitOf, CommitBlank, Readable;
      s, blank := NOTHING_SELECTED, false;
      var ra, a := ReadCommit(A);
      if ra.StoreIoError? { return false, s, false; }
      var rb, b := ReadCommit(B);
      if rb.StoreIoError? { return false, s, false; }
      if ra.FactoryBlank? && rb.FactoryBlank? { return true, s, true; }
      ok, s := true, SelectBanks(a, b);
      if s.splitBrain {
        ok, a := Authenticate(a);
        if !ok { return; }
        ok, b := Authenticate(b);
        if !ok { return; }
        s := SelectBanks(a, b);
      } else if s.active.Some? {
        var preferred;
        ok, preferred := Authenticate(s.active);
        if !ok { return; }
        if preferred.Some? {
          s := if preferred.value.bank.A? then SelectBanks(a, None) else SelectBanks(None, b);
        } else {
          var fallback;
          ok, fallback := Authenticate(if s.active.value.bank.A? then b else a);
          if !ok { return; }
          s := if s.active.value.bank.A? then SelectBanks(None, fallback) else SelectBanks(fallback, None);
        }
      }
    }

    method SelectForReaders() returns (ok: bool, s: Selection, blank: bool)
      requires Inv()
      modifies flash`faults
      ensures ok && s.active.Some? ==> NamesReadable(s) && !s.splitBrain && !blank
      ensures ok && Backed() ==> s.active == Active()
      ensures ok && blank ==> CommitBlank(Bank(A)) && CommitBlank(Bank(B))
      ensures ok && LazyView().active.Some? ==> !blank && s == LazyView()
      ensures old(Calm()) ==> Calm() && ok
    {
      hide Inv, Active, Valid, Record, CommitBlank, SelectBanks, LazyView, NamesReadable, Backed, Readable;
      LazyFacts();
      ok, s, blank := LazySelect();
    }

    /** The cold-start scan for readers. It neither reads nor changes what updates rely on. */
    method ScanCommittedContent() returns (r: StoreResult)
      requires Inv()
      modifies this`readSelection, this`readScanned, this`readResult, this`unbackedRead, flash`faults
      ensures Inv()
      ensures r.Busy? <==> updateActive
      ensures r.Busy? ==> unchanged(this)
      ensures r.StoreIoError? <==> !updateActive && !readScanned
      ensures r.StoreOk? <==> !updateActive && readScanned && readSelection.active.Some?
      ensures r.StoreOk? ==> readResult.StoreOk? && NamesReadable(readSelection)
      ensures r.FactoryBlank? ==> CommitBlank(Bank(A)) && CommitBlank(Bank(B))
      // Where the cheap test and full validation agree on each bank, so do the two selections.
      ensures !updateActive && readScanned && Backed() ==> readSelection.active == Active()
      ensures Backed() && !updateActive ==> ReadsFresh()
      ensures old(Calm()) ==> Calm() && (!updateActive && LazyView().active.Some? ==> r.StoreOk? && readSelection == LazyView())
    {
      hide Inv, Stable, Active, Valid, CommitBlank, Staged, CacheExact, NamesReadable, Backed, LazySelection, Record, Readable, LazyView;
      if updateActive { return Busy; }
      var ok, s, blank := SelectForReaders();
      StableFacts();
      if scanned { CacheNamesActive(); }
      r := if ok then Disposition(s, blank) else StoreIoError;
      PublishReads(if ok then s else NOTHING_SELECTED, ok, if ok then r else StoreUnavailable, Backed());
      ClosedInv();
    }

    method PublishReads(s: Selection, known: bool, result: StoreResult, ghost backed: bool)
      modifies this`readSelection, this`readScanned, this`readResult, this`unbackedRead
      ensures readSelection == s && readScanned == known && readResult == result && unbackedRead == !backed
    {
      readSelection, readScanned, readResult, unbackedRead := s, known, result, !backed;
    }

    ghost predicate NamesReadable(s: Selection)
      reads flash.bankA, flash.bankB
      requires flash.Valid()
    {
      s.active.Some? && Record(s.active.value.bank) == s.active && Readable(s.active.value.bank)
    }

    lemma CacheNamesActive()
      requires Inv() && scanned && !updateActive
      ensures selection.active == Active()
    {
      hide Validate, RecordsAgree, ReadCacheSound, TailsClean, LeasesDistinct;
    }

    lemma LazyFacts()
      requires Inv()
      ensures LazyView().active.Some? ==> NamesReadable(LazyView()) && !LazyView().splitBrain && (Record(A).Some? || Record(B).Some?)
      ensures Backed() ==> LazyView().active == Active()
      ensures Record(A).None? && Record(B).None? ==> LazyView().active.None? && Active().None?
    {
      hide SelectBanks, Validate, CommitOf, Durable, Staged, CacheExact, TailsClean, LeasesDistinct, ReadCacheSound, FastReadable,
        LazySelection;
      var (ka, kb) := (Kept(Record(A), Readable(A)), Kept(Record(B), Readable(B)));
      ValidIsReadable(env, A, Bank(A));
      ValidIsReadable(env, B, Bank(B));
      LazySelectionIsSelection(Record(A), Record(B), Readable(A), Readable(B));
      SelectionIsExact(ka, kb);
      SelectionIsExact(Valid(A), Valid(B));
    }

    /** The first identifier at or after the last one issued that no outstanding lease uses, skipping zero on wrap-around. */
    method FreshLeaseId() returns (id: u64)
      requires LeasesDistinct(leases)
      ensures id != 0 && !InUse(leases, id)
    {
      id := NonZero(nextLeaseId);
      ghost var start, tried: set<u64> := id, {};
      var attempt := 0;
      while attempt <= MAX_LEASES && InUse(leases, id)
        invariant attempt <= MAX_LEASES + 1 && id != 0 && StepsFrom(start, id) == attempt
        invariant |tried| == attempt && tried <= Used(leases)
        invariant forall t <- tried :: t != 0 && StepsFrom(start, t) < attempt
        decreases MAX_LEASES + 1 - attempt
      {
        UsedMeansInUse(leases, id);
        tried := tried + {id};
        id := NonZero(if id == U64_MAX then 0 else id + 1);
        attempt := attempt + 1;
      }
      UsedIsBounded(leases);
      SubsetIsNoLarger(tried, Used(leases));
    }

    method AcquireActiveRead() returns (r: StoreResult, lease: Option<Lease>)
      requires Inv()
      modifies this`readSelection, this`readScanned, this`readResult, this`unbackedRead, this`leases, this`nextLeaseId, flash`faults
      ensures Inv()
      ensures r.StoreOk? <==> lease.Some?
      // The lease is new, names the selected bundle, and is the only change to the table.
      ensures r.StoreOk? ==> readSelection.active.Some? && Leased(lease.value, readSelection.active.value)
      ensures r.StoreOk? ==> !InUse(old(leases), lease.value.leaseId)
      ensures r.StoreOk? ==> exists i :: 0 <= i < MAX_LEASES && old(leases)[i].None? && leases == old(leases)[i := lease]
      ensures !r.StoreOk? ==> leases == old(leases)
      // A full table is the only reason for Busy outside an update.
      ensures r.Busy? && !updateActive ==> forall i :: 0 <= i < MAX_LEASES ==> leases[i].Some?
      // A bank under update is pinned only by a reader of a stale selection.
      ensures updateActive && !old(Pinned(updateBank)) ==> (Pinned(updateBank) <==> r.StoreOk? && old(StaleRead()))
      ensures old(ReadsFresh() && Backed()) ==> ReadsFresh()
      // A first read after a restart names what full validation would, if each readable bank is valid.
      ensures r.StoreOk? && !old(readScanned) && Backed() ==> readSelection.active == Active()
      // A reader is served whenever there is something to serve and room to note it.
      ensures readScanned && readResult.StoreOk? && readSelection.active.Some? && (exists i :: 0 <= i < MAX_LEASES && old(leases)[i].None?) ==> r.StoreOk?
      ensures old(Calm() && !readScanned && !updateActive && LazyView().active.Some?) ==>
        readScanned && readResult.StoreOk? && readSelection == LazyView()
      ensures updateActive ==> readScanned == old(readScanned) && readSelection == old(readSelection)
      // What a new look selects passed the quick scan.
      ensures !old(readScanned) && readScanned && readSelection.active.Some? ==> NamesReadable(readSelection)
      ensures old(Calm()) ==> Calm()
      ensures old(readScanned) ==> readSelection == old(readSelection) && readScanned && readResult == old(readResult)
    {
      hide Durable, Validate, Staged, CacheExact, TailsClean, Active, Readable, NamesReadable, CommitBlank, Record;
      if !readScanned {
        r := ScanCommittedContent();
        if !r.StoreOk? { return r, None; }
      }
      if !readResult.StoreOk? { return readResult, None; }
      if readSelection.active.None? { return if readSelection.splitBrain then SplitBrain else StoreUnavailable, None; }
      var slot := 0;
      while slot < MAX_LEASES && leases[slot].Some?
        invariant slot <= MAX_LEASES && forall i :: 0 <= i < slot ==> leases[i].Some?
      {
        slot := slot + 1;
      }
      if slot == MAX_LEASES { return Busy, None; }
      var id := FreshLeaseId();
      var a := readSelection.active.value;
      lease := Some(Lease(id, a.bank, a.generation, a.bundleSha));
      LeaseAdded(leases, slot, lease.value);
      leases := leases[slot := lease];
      nextLeaseId := if id == U64_MAX then 1 else id + 1;
      r := StoreOk;
    }

    /** Fresh reads never name the bank under update, so readers cannot pin it. */
    lemma FreshReadsAreNotStale()
      requires Inv() && ReadsFresh()
      ensures !StaleRead()
    {
      hide Durable, Validate, Staged, CacheExact, TailsClean;
    }

    /** Only the lease that matches in every field is released, and no other. */
    method ReleaseRead(lease: Lease) returns (r: StoreResult)
      requires Inv()
      modifies this`leases
      ensures Inv()
      ensures r.StoreOk? || r.TransactionMismatch?
      ensures r.StoreOk? <==> exists i :: 0 <= i < MAX_LEASES && old(leases)[i] == Some(lease)
      ensures forall i :: 0 <= i < MAX_LEASES ==> leases[i] == if old(leases)[i] == Some(lease) then None else old(leases)[i]
      ensures forall id :: Pinned(id) ==> old(Pinned(id))
    {
      hide Durable, Validate, Staged, CacheExact, TailsClean, ReadCacheSound;
      for i := 0 to MAX_LEASES
        invariant leases == old(leases)
        invariant forall j :: 0 <= j < i ==> leases[j] != Some(lease)
      {
        if leases[i] == Some(lease) {
          leases := leases[i := None];
          return StoreOk;
        }
      }
      r := TransactionMismatch;
    }
  }
}
