# Verified model of the voice keyboard firmware

Dafny models of the stateful core of the ESP32-S3 voice keyboard firmware, with proofs of the properties that its tests and comments promise. The models follow the C++ units branch by branch; the host tests' flash model, asset builder, UTF-8 validator and whole-run drivers are modelled too. `dafny verify dfyconfig.toml` checks the whole project (Dafny 4.11).

There are five parts.

**The power-fail-safe sound store.** `FlashStorage` is the AND-programming flash with writes and erases torn at any octet, `Crc32` the checksum bit by bit, `BankFormat` and `BankSelection` the records and the choice between the banks. `SoundAssetStore` is the store with all its operations; `StoreInvariants` says what every flash mutation keeps. `StoreRuns` proves the power-cut theorems, `StoreOrder` that readers and updates never meet in one bank, `StoreHistory` the whole-history theorem, and `StoreWitnesses` holds what can go wrong concretely. `ChunkedStorage` and `PermitExchange` are the cooperative runner: units bounded in size, each under an exact permit.

**The update protocol.** `FrameCodec` and `FragmentAssembler` are the wire, `AssetsSession` the session with its replay cache and its one pending action, `StoreExecutor` the actions carried out on the store, `RuntimeMailbox`, `RuntimeCore` and `RuntimeSupervisor` the runtime that admits one request at a time.

**The keyboard path.** `HeldKeyboard`, `SnapshotDelivery`, `TransportLatch` and `KeyboardPipeline` lead from physical keys to the report queues of the two transports; `HidReportQueue` and `ReportOutlet` are those queues, `MouseWheelQueue`, `BleInputScheduler`, `FixedTextStream` and `BridgedHotkey` lead on to the radio, and `KeyboardToHost` joins keys, queue, scheduler and radio in one run. `RingBuffers` is the in-place queue they share, `KeyboardWitnesses` holds concrete runs.

**Talk and playback.** `CodexSlot`, `CodexDevice`, `CaptureIdentity`, and `ImaAdpcm` for the sound itself.

**Text.** `Utf8`.

`Bytes`, `Counters`, `Options` and `Sets` are shared helpers. Stateful units are classes whose methods change arrays and fields in place; their contracts are stated against specification functions, and the lemmas are about those. Digest functions are arbitrary functions in an environment value (`Env`, `Prints`), so no result depends on SHA-256 (section 6.2 of FIPS 180-4); authenticity is equality of digests. The CRC is the one of section 8 of RFC 1952, UTF-8 that of section 4 of RFC 3629.

## What the proofs brought to light

- The quick scan takes a bank for readable whose payload is damaged, and a discard forgets the read selection without a full scan after it. Even so no reader is ever given the bank under update, in any history from factory-blank flash (`StoreHistory.RunFromFactory`), because the first generation is only ever staged in bank A and a discarded bank holds no record (`StoreOrder`). The one hypothesis is that no two manifests that stood in a bank under update share a digest.
- `write_manifest` can take back a bundle whose commit has landed (`StoreWitnesses.LandedCommitIsTakenBack`): it does exactly if the manifest was not marked complete, the data is the announced manifest, and the call is cut in a way that leaves the content no longer matching (`SoundAssetStore.Store.WriteManifest`). `commit_update` does not set that mark.
- An inactive bank with an intact staging header and a damaged payload answers `Busy` to a begin with another plan until the old transaction is aborted: a begin is busy exactly for another authentic transaction in its bank, whatever has become of the content (last clauses of `SoundAssetStore.Store.BeginOrResumeUpdate`).
- Fifteen marker octets can suffice: the marker counts as whole exactly when its octets equal the expected ones, and the sixteenth is 0xFF exactly if the last octet of the body checksum is zero (`StoreWitnesses.FifteenOctetsSuffice`).
- The slots reserved for releases do not cover every release. A snapshot that takes one key up and puts another down is classed as a release; after enough of them 31 reports wait, and a key-up is refused although its press was taken (`KeyboardWitnesses.KeyReleaseCanBeRefused`), and so is an app release (`KeyboardWitnesses.AppReleaseCanBeRefused`). A key-up is refused exactly with 31 or more reports waiting, never if it leaves nothing held (`KeyboardPipeline.Pipeline.Offer`), and not at all while no release presses anything and no more than eleven sources and app keys are down at once, which eleven sources with fixed reports and no app keys never exceed (`KeyboardPipeline.Run`). Refused, it stays pending.
- A fresh wheel entry beyond the limit is clamped without being reported as saturated (`MouseWheelQueue.PushConserves`).
- One flipped bit in the length of a USB frame can yield another accepted frame (`FrameCodec.LengthFlipCanSurvive`); the host test that flips every bit leaves the two length octets to that.
- While the boot sound holds the core, polls import without stepping it. A close, a reopening and a frame of one route, each imported so, strand the single admission until the route closes again (`RuntimeSupervisor.HeldPollsCanStrand`). The admission is safe exactly until a frame is imported behind a waiting close of its own route, or into a full core (`RuntimeSupervisor.Serve`).
- The runtime's memory of closed routes is a two-bit filter that is never cleared: no closed lifetime comes back, but a lifetime never closed may be refused (`RuntimeCore.Core.Activate`).

## Model

| member | source | states |
|---|---|---|
| FlashStorage.BankStorage.Write | firmware/host_test/sound_asset_store_tests.cpp:396-437 | the bank and the result are exactly the AND-programming effect of the call under the next fault: a prefix is programmed, a bit that would have to be set fails the call before anything changes |
| FlashStorage.BankStorage.Erase | firmware/host_test/sound_asset_store_tests.cpp:439-471 | the bank and the result are exactly the erase effect under the next fault, which may stop the erase after any prefix |
| FlashStorage.TornProgramCanBeCompleted | firmware/host_test/sound_asset_store_tests.cpp:396-437 | a program torn at any octet can be repeated over its own remains, without an erase, and then leaves exactly the data |
| FlashStorage.ErasedTakesAnything | firmware/host_test/sound_asset_store_tests.cpp:396-437 | erased cells accept any data |
| FlashStorage.ProgramIsOverlay | firmware/host_test/sound_asset_store_tests.cpp:396-437 | AND-programming data that the cells can take is the same as overwriting with it |
| Crc32.Compute | firmware/features/speaker_assets/sound_asset_crypto.cpp:207-223 | the bitwise loop computes the CRC-32 that is specified as a fold over octets |
| Crc32.Update | firmware/features/speaker_assets/sound_asset_store.cpp:243-254 | continuing a register over one more chunk equals absorbing the chunk into it |
| Crc32.AbsorbConcat | firmware/features/speaker_assets/sound_asset_store.cpp:331-366 | hashing a region chunk by chunk gives the checksum of the whole region |
| Crc32.BitStepInjective | firmware/features/speaker_assets/sound_asset_crypto.cpp:207-223 | one polynomial step forgets nothing |
| Crc32.OneOctetChangeIsDetected | firmware/features/speaker_assets/sound_asset_crypto.cpp:207-223 | any damage confined to one octet, a single-bit flip above all, changes the checksum of a message of any length |
| ChunkedStorage.UnitsTileTheRange | firmware/features/speaker_assets/speaker_assets_flash_runner.cpp:122-158 | the planned units are non-empty, at most 256 octets or one sector, and cover the range front to back with no gap or overlap |
| ChunkedStorage.ChunkedBankStorage.Write | firmware/features/speaker_assets/speaker_assets_flash_runner.cpp:122-158 | a bad range fails before the first permit; otherwise a prefix of the planned units ran, the bank holds a prefix of the data, and undisturbed the call has exactly the effect of the single plain write |
| ChunkedStorage.ChunkedBankStorage.Erase | firmware/features/speaker_assets/speaker_assets_flash_runner.cpp:160-195 | misaligned and out-of-range calls fail before the first permit; undisturbed, the sector units together are the single plain erase |
| ChunkedStorage.ChunkedBankStorage.Read | firmware/features/speaker_assets/speaker_assets_flash_runner.cpp:84-120 | a successful chunked read returns exactly the requested range, and a prefix of the planned units, all of them on success, ran under permits of their own |
| ChunkedStorage.ChunkedBankStorage.WriteUnit | firmware/features/speaker_assets/speaker_assets_flash_runner.cpp:746-831 | one permit and exactly its unit, or no I/O at all |
| ChunkedStorage.ExtendPrefix | firmware/features/speaker_assets/speaker_assets_flash_runner.cpp:122-158 | one more unit, whole or torn, extends the prefix already laid over the bank |
| PermitExchange.RunKeepsInv | firmware/features/speaker_assets/speaker_assets_flash_runner.cpp:746-831 | over every interleaving of publishing, granting, sampling, claiming and completing, the exchange keeps its invariant |
| PermitExchange.UnitsRunUnderExactPermits | firmware/features/speaker_assets/speaker_assets_flash_runner.cpp:746-831 | in every run each unit ran once under its own permit, granted to exactly that unit, and the epochs recorded when it was asked for, granted and claimed are the same |
| PermitExchange.ClaimIsTimely | firmware/features/speaker_assets/speaker_assets_flash_runner.cpp:360-377 | a unit starts only while permission stands, in the epoch of its request, with no other unit running |
| PermitExchange.StaleGrantRunsNothing | firmware/features/speaker_assets/speaker_assets_flash_runner.cpp:351-377 | once permission changes between the request for a unit and its claim, that request never runs in any continuation, however often permission comes back |
| PermitExchange.OneUnitOrNothing | firmware/features/speaker_assets/speaker_assets_flash_runner.cpp:746-831 | asked for one unit, the exchange runs exactly that unit once or nothing, whatever the supervisor does meanwhile: what the chunked calls assume of their gate |
| BankFormat.DecodeEncodeHeader | firmware/features/speaker_assets/sound_asset_store.cpp:516-569 | the staging header decodes to exactly what was encoded |
| BankFormat.DecodeEncodeCommit | firmware/features/speaker_assets/sound_asset_store.cpp:645-683 | a commit body with its marker decodes to exactly the announced snapshot |
| BankFormat.DeriveTxId | firmware/features/speaker_assets/sound_asset_store.cpp:424-514 | a transaction identifier is never all-zero, whatever the digest function |
| BankFormat.CommitFrame | firmware/features/speaker_assets/sound_asset_store.cpp:698-799 | a commit record depends on nothing but its own 144 octets |
| BankFormat.ValidateIgnoresStaging | firmware/features/speaker_assets/sound_asset_store.cpp:946-999 | whether a bank is valid does not depend on its staging and journal sectors |
| BankSelection.SelectionIsExact | firmware/features/speaker_assets/sound_asset_store.cpp:1001-1041 | selection fails closed exactly on a pair of valid banks that no update sequence explains; otherwise the newest valid bank is active, and none only if none is valid |
| BankSelection.SelectionIsSymmetric | firmware/features/speaker_assets/sound_asset_store.cpp:1001-1041 | which bank is called A does not matter, except between equal generations |
| BankSelection.LazySelectionIsSelection | firmware/features/speaker_assets/sound_asset_store.cpp:2384-2496 | leaving a manifest unauthenticated that the choice does not depend on never changes what is selected |
| StoreInvariants.UpdatingIsDurable | firmware/features/speaker_assets/sound_asset_store.cpp:1001-1041 | while an update is staged, its bank is invalid or holds exactly the new bundle one generation on, so two valid banks never split |
| StoreInvariants.CommitStageDecodes | firmware/features/speaker_assets/sound_asset_store.cpp:698-799 | a bank under update decodes to nothing or to exactly the announced snapshot, and to the latter exactly when body and marker are whole |
| StoreInvariants.CurrentIffMarked | firmware/features/speaker_assets/sound_asset_store.cpp:1872-1976 | over matching content the new bundle is current exactly when its whole marker is in flash |
| StoreInvariants.ReclaimStep | firmware/features/speaker_assets/sound_asset_store.cpp:1174-1323 | losing the reclaimed bank's commit record or header loses nothing that was current |
| StoreInvariants.BlankCanStage | firmware/features/speaker_assets/sound_asset_store.cpp:1174-1323 | a verified blank bank can stage any update that builds on the other bank |
| StoreInvariants.StagedHeaderTail | firmware/features/speaker_assets/sound_asset_store.cpp:1174-1323 | the header goes in magic last, so a torn header is never recognised |
| StoreInvariants.ContentStep | firmware/features/speaker_assets/sound_asset_store.cpp:1736-1805 | manifest, journal and payload traffic, torn anywhere, keeps the staged bank and every claim of progress sound |
| StoreInvariants.ProgressKept | firmware/features/speaker_assets/sound_asset_store.cpp:1807-1870 | octets written where nothing is claimed leave every claimed manifest and block in flash |
| StoreInvariants.ResumedIsUpdating | firmware/features/speaker_assets/sound_asset_store.cpp:1481-1525 | a complete header one generation ahead of everything valid can be carried on from where it stopped |
| StoreInvariants.CommittedIsReclaimable | firmware/features/speaker_assets/sound_asset_store.cpp:1325-1479 | a valid bank that is not current may always be reclaimed |
| StoreInvariants.ErasedInvalidBank | firmware/features/speaker_assets/sound_asset_store.cpp:1580-1734 | erasing any prefix of an invalid bank cannot make it valid |
| StoreInvariants.ValidIsReadable | firmware/features/speaker_assets/sound_asset_store.cpp:860-917 | full validation subsumes the cheap test made for readers |
| StoreInvariants.BlankFlashIsDurable | firmware/host_test/sound_asset_store_tests.cpp:369-373 | two factory-blank banks satisfy the durable invariant, with nothing active |
| SoundAssetStore.Store.Scan | firmware/features/speaker_assets/sound_asset_store.cpp:1046-1089 | after a successful scan the selection is what validation of both banks selects, it is never split, and factory-blank means both commit records are erased |
| SoundAssetStore.Store.QueryCurrentActive | firmware/features/speaker_assets/sound_asset_store.cpp:1095-1172 | reports what flash holds, and closes an open update exactly if its commit had reached flash |
| SoundAssetStore.Store.ReclaimBank | firmware/features/speaker_assets/sound_asset_store.cpp:1174-1323 | the inactive bank is erased marker first; at every cut what was active stays active and no commit record of it is left behind |
| SoundAssetStore.Store.StageHeader | firmware/features/speaker_assets/sound_asset_store.cpp:1174-1323 | staging keeps the active bundle at every cut and opens the update exactly on success, over an unmarked bank |
| SoundAssetStore.Store.BeginOrResumeUpdate | firmware/features/speaker_assets/sound_asset_store.cpp:1325-1479 | the active bundle never changes; success names exactly the caller's plan one generation after its base; an exact staged transaction is resumed without a write; only an unpinned bank that is no newer than the other is ever rewritten; undisturbed, it succeeds exactly if the plan builds on what is active and its bank accommodates it, and is busy exactly for another authentic transaction there |
| SoundAssetStore.Store.ResumeUpdate | firmware/features/speaker_assets/sound_asset_store.cpp:1481-1525 | success reopens exactly the named transaction on an unpinned, uncommitted bank, with progress equal to what flash holds; undisturbed, what can be resumed is |
| SoundAssetStore.Store.RebuildProgress | firmware/features/speaker_assets/sound_asset_store.cpp:2150-2238 | after a resume a part is reported complete exactly if its octets in flash match the plan |
| SoundAssetStore.Store.QueryTransactionOutcome | firmware/features/speaker_assets/sound_asset_store.cpp:1527-1578 | open exactly if it is the open update; committed only if a valid bank holds it; unknown exactly if none does |
| SoundAssetStore.Store.DiscardInvalidStaging | firmware/features/speaker_assets/sound_asset_store.cpp:1580-1734 | the active bundle is kept, a bank changes only if nothing in it is valid, no complete header is there and no reader holds it, and undisturbed such a bank is erased |
| SoundAssetStore.Store.WriteManifest | firmware/features/speaker_assets/sound_asset_store.cpp:1736-1805 | undisturbed, exactly the announced manifest is accepted, and is in flash afterwards; nothing else is rewritten; a commit that has landed is taken back exactly if an unmarked announced manifest is rewritten and the call is cut with an octet erased |
| SoundAssetStore.Store.WritePayloadBlock | firmware/features/speaker_assets/sound_asset_store.cpp:1807-1870 | blocks may come in any order; undisturbed, exactly an announced block is accepted; it is then in flash with its journal bit cleared; a complete block is never rewritten and no other block is touched |
| SoundAssetStore.Store.MarkPayloadComplete | firmware/features/speaker_assets/sound_asset_store.cpp:2313-2332 | the journal step clears exactly one bit |
| SoundAssetStore.Store.ProgramCommit | firmware/features/speaker_assets/sound_asset_store.cpp:1872-1976 | the marker is started only after the whole body was read back, success means the whole marker is there, and undisturbed over cells that take the record it succeeds |
| SoundAssetStore.Store.CommitUpdate | firmware/features/speaker_assets/sound_asset_store.cpp:1872-1976 | whatever was torn or forgiven, the new bundle is current exactly when its whole marker is in flash; undisturbed the commit succeeds exactly when everything announced is in flash, and is what every later scan selects; a landed commit is never rewritten |
| SoundAssetStore.Store.AbortUpdate | firmware/features/speaker_assets/sound_asset_store.cpp:1978-2014 | the active bundle is kept; a completed marker is never cancelled, and otherwise the staging header is gone |
| SoundAssetStore.Store.ScanCommittedContent | firmware/features/speaker_assets/sound_asset_store.cpp:2384-2496 | the quick scan for readers touches nothing that updates rely on |
| SoundAssetStore.Store.AcquireActiveRead | firmware/features/speaker_assets/sound_asset_store.cpp:2016-2085 | a lease is new and names the selected bundle; a bank under update gets pinned exactly by a reader of a stale selection; a reader is served whenever there is something to serve and room to note it |
| SoundAssetStore.Store.FreshReadsAreNotStale | firmware/features/speaker_assets/sound_asset_store.cpp:2016-2085 | a read selection taken from valid banks never names the bank under update |
| SoundAssetStore.Store.ReleaseRead | firmware/features/speaker_assets/sound_asset_store.cpp:2087-2104 | only the lease that matches in every field is released |
| StoreOrder.OpensOnTarget | firmware/features/speaker_assets/sound_asset_store.cpp:1481-1525 | over flash whose first generation is in bank A an open update that has not landed is on the bank that the next update goes to, and of the next generation, even when it was resumed by identifier alone |
| StoreOrder.RestoredIsValid | firmware/features/speaker_assets/sound_asset_store.cpp:2384-2496 | while manifests do not collide, a record over the announced payload passes the quick scan only if the bank is valid |
| StoreOrder.Discard | firmware/features/speaker_assets/sound_asset_store.cpp:1580-1734 | the repair of a torn header leaves a target that the quick scan cannot name, so readers stay apart from updates |
| StoreOrder.Acquire | firmware/features/speaker_assets/sound_asset_store.cpp:2016-2085 | a new read selection names neither the bank under update nor the next target |
| StoreOrder.Abort | firmware/features/speaker_assets/sound_asset_store.cpp:1978-2014 | giving an update up keeps readers apart from its bank |
| StoreRuns.AttemptBundleUpdate | firmware/host_test/sound_asset_store_tests.cpp:1705-1735 | under any faults the outcome is the old bundle or the new one, never none and never a mix; a failed attempt leaves the new one current exactly if its whole marker reached flash; undisturbed, a bundle that may begin is stored, committed and current |
| StoreRuns.UpdateThroughPowerCut | firmware/host_test/sound_asset_store_tests.cpp:1737-1798 | an update cut anywhere, a reboot and a rescan select exactly the old or the new bundle without a split, the new one exactly if its sixteen marker octets are in flash at the reboot, and the quick read exposes that same bundle; an update nobody cuts succeeds |
| StoreRuns.UpdateTakenUpAgain | firmware/host_test/sound_asset_store_tests.cpp:1258-1412 | an attempt under any faults, a reboot, the repair of a torn header and a second, undisturbed attempt: as long as the bank has no complete header or accommodates the plan, and nothing counts as complete by accident, the new bundle ends up current, by the second attempt exactly if the first had not landed |
| StoreRuns.Repair | firmware/host_test/sound_asset_store_tests.cpp:865-955 | a restart and a discard keep the active bundle; undisturbed, a torn header in the target bank is erased with its bank, and a target without one is left as it is |
| StoreRuns.Rescan | firmware/features/speaker_assets/sound_asset_store.cpp:1046-1089 | a restart without faults always finds the active bundle |
| StoreRuns.QuickRead | firmware/features/speaker_assets/sound_asset_store.cpp:2016-2085 | the quick path after a reboot leases exactly the active bundle |
| StoreHistory.Step | firmware/features/speaker_assets/sound_asset_store.cpp:1043-2104 | one call changes what is active only by the one commit it may complete, or by rewriting an announced part that is not marked complete; a pinned bank changes only as the bank of the open update; the order that keeps readers apart from updates is kept |
| StoreHistory.DetectedIsDurable | firmware/host_test/sound_asset_store_tests.cpp:1800-1840 | corruption of any octets after which no record reads as another one never splits the banks and falls back to the other bank or to nothing |
| StoreHistory.OneOctetIsDetected | firmware/host_test/sound_asset_store_tests.cpp:1800-1822 | any change of any one octet of a valid bank, its commit body and marker included, is such corruption, whatever record the other bank holds; only while the other bank is half reclaimed does it matter where the octet is |
| StoreHistory.Run | firmware/host_test/sound_asset_store_tests.cpp:1618-1662 | over any history of calls, faults, reboots and damage from a durable pair of banks the invariant holds and each step is explained by itself alone, until a record is forged past its checksums; where the first generation was staged in bank A and manifests do not collide, no call ever changes an octet of a bank that a reader holds, and no reader is given the bank under update; elsewhere the latter takes a reader who acquired while what passed the quick scan was not valid |
| StoreHistory.RunFromFactory | firmware/host_test/sound_asset_store_tests.cpp:1618-1662 | so over every history of a device that left the factory blank pinned banks are frozen |
| StoreWitnesses.LandedCommitIsTakenBack | firmware/features/speaker_assets/sound_asset_store.cpp:1736-1805 | a concrete run: the manifest's and the commit's read-backs are lost, and one more, interrupted, delivery of the manifest erases a bundle every restart would have selected |
| StoreWitnesses.FifteenOctetsSuffice | firmware/host_test/sound_asset_store_tests.cpp:1258-1305 | a marker torn before its last octet is whole exactly if the last octet of the body checksum is zero |
| StoreExecutor.ExecuteBegin | firmware/features/speaker_assets/speaker_assets_store_executor.cpp:107-139 | a successful begin reports the progress of an open update of exactly the plan |
| StoreExecutor.ExecuteWrite | firmware/features/speaker_assets/speaker_assets_store_executor.cpp:234-257 | for any other transaction than the open one nothing is touched; success reports well-formed progress that contains the written unit and everything complete before |
| StoreExecutor.ExecuteTerminal | firmware/features/speaker_assets/speaker_assets_store_executor.cpp:258-270 | for any other transaction nothing is touched; a commit makes exactly the announced bundle active, an abort changes nothing that is active |
| StoreExecutor.ExecuteResume | firmware/features/speaker_assets/speaker_assets_store_executor.cpp:168-233 | a success is a complete answer about exactly the named transaction: open with its progress, committed, or unknown |
| StoreExecutor.ExecuteQuery | firmware/features/speaker_assets/speaker_assets_store_executor.cpp:156-175 | succeeds exactly for the open update under its full identity |
| StoreExecutor.Execute | firmware/features/speaker_assets/speaker_assets_store_executor.cpp:97-270 | a store success always fits a session whose progress mirrors the store, for every kind of action; an action under a binding touches nothing unless the binding names the open update |
| StoreExecutor.Round | firmware/features/speaker_assets/speaker_assets_store_executor.cpp:97-270 | one request all the way: the session never refuses a store success, and mirrors the store afterwards unless a failing call took completed work back |
| StoreExecutor.Serve | firmware/features/speaker_assets/speaker_assets_session.cpp:275-350 | over any requests, route losses, timeouts and flash faults, the session refuses a store success only after some failing store call has taken completed work back |
| AssetsSession.Session.Consume | firmware/features/speaker_assets/speaker_assets_session.cpp:275-350 | one request yields one emission; an action only if none is pending, for a request that no retained reply answers; while an action is pending nothing changes |
| AssetsSession.Session.ConsumeSingle | firmware/features/speaker_assets/speaker_assets_session.cpp:646-710 | a retained request gets the very reply it got before, the same request id with other content an integrity error, and anything else an action exactly if it is admissible |
| AssetsSession.Session.ConsumePlan | firmware/features/speaker_assets/speaker_assets_session.cpp:443-644 | the action carries exactly the plan that the assembled octets decode to, under its fingerprint |
| AssetsSession.Session.ConsumeData | firmware/features/speaker_assets/speaker_assets_session.cpp:712-940 | a write action carries every octet of its unit as assembled, under the bound transaction and cookie |
| AssetsSession.Session.ConsumeBound | firmware/features/speaker_assets/speaker_assets_session.cpp:942-1062 | query, commit and abort act only on the bound transaction under its cookie |
| AssetsSession.Session.LookupReplay | firmware/features/speaker_assets/speaker_assets_session.cpp:1731-1762 | exact, clashing or missing, exactly by route, cookie, request id and content |
| AssetsSession.Session.Complete | firmware/features/speaker_assets/speaker_assets_session.cpp:1064-1327 | only the pending token and kind finish the action, once; a success that fits is answered and remembered under its request, one that does not ends the binding, a store error is answered and not remembered; an orphan ends silently |
| AssetsSession.Session.RouteClosed | firmware/features/speaker_assets/speaker_assets_session.cpp:1329-1362 | the route's replies and binding go, its pending action stays with its bytes to finish unanswered and is never turned into an abort |
| AssetsSession.Session.AllRoutesClosed | firmware/features/speaker_assets/speaker_assets_session.cpp:1364-1382 | all replies and bindings go, and a pending action is orphaned with its bytes |
| AssetsSession.Session.ExpirePartial | firmware/features/speaker_assets/speaker_assets_session.cpp:1384-1405 | a timeout clears only a half-assembled plan or unit of that very route and never starts or ends an action |
| AssetsSession.Live | firmware/host_test/speaker_assets_session_tests.cpp:954-1239 | over any frames, completions, closures and timeouts, store actions run strictly one after the other and each is finished exactly once by its own token and kind |
| RuntimeMailbox.Mailbox.EnqueueOpened | firmware/features/speaker_assets/speaker_assets_runtime.cpp:72-92 | an open never gets in behind a close of its lifetime, and is taken whenever there is room |
| RuntimeMailbox.Mailbox.EnqueueClosed | firmware/features/speaker_assets/speaker_assets_runtime.cpp:95-125 | a close is never refused: nothing of the route stays queued behind it and its admission is revoked at once |
| RuntimeMailbox.Mailbox.EnqueueFrame | firmware/features/speaker_assets/speaker_assets_runtime.cpp:128-198 | a frame gets in only by claiming the one outstanding admission, under an identifier never used before, and does get in whenever nothing but another request stands against it |
| RuntimeMailbox.Mailbox.TakeNext | firmware/features/speaker_assets/speaker_assets_runtime.cpp:236-273 | revocation first, then exact closes, then the rest in order; so no frame is taken while any close waits, and a close taken is never of a route with an admission |
| RuntimeMailbox.Mailbox.Release | firmware/features/speaker_assets/speaker_assets_runtime.cpp:288-300 | exactly the current lease releases; a stale one, even of the same route, frees nothing |
| RuntimeMailbox.FewerWithout | firmware/features/speaker_assets/speaker_assets_runtime.cpp:363-379 | purging a route keeps at most the frames there were and the order of tombstones |
| RuntimeCore.Core.EnqueueLifecycle | firmware/features/speaker_assets/speaker_assets_runtime.cpp:619-676 | a close dominates an open of the same lifetime in either order, the records are exactly as filed, and a record is refused exactly if its lifetime is not among them and the room for its kind is taken |
| RuntimeCore.Core.Activate | firmware/features/speaker_assets/speaker_assets_runtime.cpp:893-911 | a lifetime once closed never becomes active again; otherwise the answer is exact for the two-bit memory and the four slots |
| RuntimeCore.Core.CloseRoute | firmware/features/speaker_assets/speaker_assets_runtime.cpp:1022-1044 | nothing of the route stays queued, answered, active or in charge of the session |
| RuntimeCore.Core.RevokeAll | firmware/features/speaker_assets/speaker_assets_runtime.cpp:940-994 | everything known to the core is closed for good; only an orphaned action remains |
| RuntimeCore.Core.EnqueueIngress | firmware/features/speaker_assets/speaker_assets_runtime.cpp:572-706 | an admitted frame joins behind everybody admitted before it |
| RuntimeCore.Core.ConsumeFrame | firmware/features/speaker_assets/speaker_assets_runtime.cpp:1179-1286 | a frame's admission comes back, waits for its action, or leaves with its answer, and an answer always has a slot; while input has priority no action starts |
| RuntimeCore.Core.ProcessIngress | firmware/features/speaker_assets/speaker_assets_runtime.cpp:1118-1132 | what comes from a route that is not live is given back unread |
| RuntimeCore.Core.ProcessPending | firmware/features/speaker_assets/speaker_assets_runtime.cpp:1289-1361 | the pending action ends exactly by its own completion; with its route gone it ends unanswered, otherwise with one answer that always has a slot |
| RuntimeCore.Core.Step | firmware/features/speaker_assets/speaker_assets_runtime.cpp:710-768 | lifecycle first; otherwise nobody's admission is lost: all are held in order of admission, except the one released; an action never waits for a reply slot |
| RuntimeCore.Core.RemoveReply | firmware/features/speaker_assets/speaker_assets_runtime.cpp:809-831 | exactly the named reply leaves, and everybody else keeps place |
| RuntimeCore.InsertedMembers | firmware/features/speaker_assets/speaker_assets_runtime.cpp:1289-1360 | giving back one admission takes exactly one holder out |
| RuntimeCore.PurgedIds | firmware/features/speaker_assets/speaker_assets_runtime.cpp:1022-1098 | purging a closed route keeps all remaining admissions distinct |
| RuntimeSupervisor.Supervisor.Import | firmware/main/platform/speaker_assets_supervisor.cpp:577-585 | the record taken is the mailbox's next and reaches the core exactly as filed; the outstanding admission stays safe exactly unless a frame finds no room or a close of its own route waiting; polled promptly neither happens |
| RuntimeSupervisor.Supervisor.TakeTurn | firmware/main/platform/speaker_assets_supervisor.cpp:699-723 | a release given by a step frees its own admission and no newer one; the admission is left behind exactly in the step that applies its route's close |
| RuntimeSupervisor.Supervisor.PollOnce | firmware/main/platform/speaker_assets_supervisor.cpp:907-939 | one record and up to eight steps: the admission stays safe exactly unless the record crosses, and steps mend nothing |
| RuntimeSupervisor.Supervisor.Sent | firmware/main/platform/speaker_assets_supervisor.cpp:782-831 | a transport acknowledgement removes exactly the named reply of its route, and frees the outstanding admission exactly if it is that reply's |
| RuntimeSupervisor.Serve | firmware/main/platform/speaker_assets_supervisor.cpp:907-939 | over any traffic and with any number of steps in a poll, down to none, the outstanding admission is a queued frame or somebody the core will answer or release, exactly until a frame crosses its route's close or finds the core full, which never happens while every poll steps the core |
| RuntimeSupervisor.Happen | firmware/main/platform/speaker_assets_supervisor.cpp:907-939 | per event: what crosses makes the admission loose, nothing else does, and only a close mends it |
| RuntimeSupervisor.HeldPollsCanStrand | firmware/main/platform/speaker_assets_supervisor.cpp:907-939 | a run of held polls, close, open and frame, and then one step, leaves the admission with nobody to release it |
| FrameCodec.DecodeEncode | firmware/features/speaker_assets/speaker_assets_protocol.cpp:254-324 | what one side encodes the other decodes unchanged, over USB and over Wi-Fi |
| FrameCodec.EncodeDecode | firmware/features/speaker_assets/speaker_assets_protocol.cpp:175-242 | encodings are canonical: an accepted octet string is the one encoding of its frame |
| FrameCodec.WifiDamageIsRejected | firmware/host_test/speaker_assets_protocol_tests.cpp:145-190 | changing any one octet of an accepted Wi-Fi frame, in any way, makes it rejected |
| FrameCodec.UsbDamage | firmware/host_test/speaker_assets_protocol_tests.cpp:145-190 | changing any octet but the length of an accepted USB frame makes it rejected; a changed length survives exactly if bound, padding and checksum happen to fit |
| FrameCodec.LengthFlipCanSurvive | firmware/features/speaker_assets/speaker_assets_protocol.cpp:275-288 | two concrete frames show that one flipped length bit can turn an accepted USB frame into another |
| FrameCodec.DecodeEncodePlan | firmware/features/speaker_assets/speaker_assets_protocol.cpp:326-363 | a plan survives its 640-octet wire form |
| FrameCodec.EncodeDecodePlan | firmware/features/speaker_assets/speaker_assets_protocol.cpp:365-414 | an accepted plan is the one encoding of what it decodes to |
| FrameCodec.PlanDamageIsRejected | firmware/host_test/speaker_assets_protocol_tests.cpp:255-280 | changing any one octet of an accepted plan makes it rejected |
| FragmentAssembler.AssemblyIsJustified | firmware/features/speaker_assets/speaker_assets_protocol.cpp:584-621 | after any fragments the buffer is exactly the union of the accepted ones, and a conflicting one changes nothing |
| FragmentAssembler.OrderDoesNotMatter | firmware/features/speaker_assets/speaker_assets_protocol.cpp:584-621 | the same accepted fragments give the same buffer in any order |
| FragmentAssembler.FragmentsOfOneOriginal | firmware/host_test/speaker_assets_protocol_tests.cpp:319-441 | fragments of one original are all accepted in any order and overlap, exactly the octets they reach are known, and completion yields the original |
| FragmentAssembler.Assembler.AcceptFragment | firmware/features/speaker_assets/speaker_assets_protocol.cpp:584-621 | buffer, bitmap and count change in place exactly as the specification of one fragment says |
| FragmentAssembler.Assembler.FirstMissing | firmware/features/speaker_assets/speaker_assets_protocol.cpp:647-657 | the least uncovered offset |
| FragmentAssembler.Assembler.CompleteMeansAll | firmware/features/speaker_assets/speaker_assets_protocol.cpp:627-629 | the received count says complete exactly when every octet is there |
| HidReportQueue.Queue.PushClassified | firmware/components/keyboard/src/hid_report_queue.cpp:83-111 | class limit, coalescing and refusal exactly as specified, on the ring buffer in place |
| HidReportQueue.Queue.Push | firmware/components/keyboard/src/hid_report_queue.cpp:113-138 | the compatibility entry point with a caller-chosen reserve, never coalescing |
| HidReportQueue.Queue.PopIfSequence | firmware/components/keyboard/src/hid_report_queue.cpp:224-232 | only the report that was actually sent leaves |
| HidReportQueue.SequencesAreUnique | firmware/components/keyboard/src/hid_report_queue.cpp:224-232 | a sequence number names at most one queued report, across wrap-around |
| HidReportQueue.SealedIsKept | firmware/components/keyboard/src/hid_report_queue.cpp:10-28 | a full queue always ends in an all-released snapshot, whatever the classified traffic |
| HidReportQueue.AllReleasedIsRefusedOnlyForAnotherEndpoint | firmware/components/keyboard/src/hid_report_queue.cpp:140-188 | an all-released snapshot is refused exactly when the queue is full and ends in that of another endpoint |
| HidReportQueue.QueueIsFaithful | firmware/components/keyboard/src/hid_report_queue.cpp:190-214 | over any run, what is taken and then what is queued is what was accepted in order, minus snapshots that repeat their predecessor for the same endpoint |
| HidReportQueue.LastSurvives | firmware/components/keyboard/src/hid_report_queue.cpp:190-214 | coalescing never loses the newest snapshot |
| ReportOutlet.Outlet.Offer | firmware/components/keyboard/src/hid_report_queue.cpp:83-111 | a snapshot that differs from the last one is never coalesced, so it is taken exactly while its class has room, and an all-released one always is; everything taken is kept in order |
| ReportOutlet.Outlet.Take | firmware/components/keyboard/src/hid_report_queue.cpp:224-232 | the transport takes what was accepted, first in, first out |
| MouseWheelQueue.PushConserves | firmware/components/keyboard/src/hid_report_queue.cpp:248-309 | movement is conserved exactly when nothing had to be clamped |
| MouseWheelQueue.ConsumeConserves | firmware/components/keyboard/src/hid_report_queue.cpp:319-336 | what is consumed leaves the total, exactly |
| MouseWheelQueue.WheelQueue.Push | firmware/components/keyboard/src/hid_report_queue.cpp:248-309 | merging, fresh entry and refusal exactly as specified, on the ring buffer in place |
| BleInputScheduler.RetryDelayIsCappedDoubling | firmware/components/keyboard/src/ble_input_scheduler.cpp:253-264 | the retry delay is the period doubled per failure up to the shift limit, and capped |
| BleInputScheduler.Scheduler.Poll | firmware/components/keyboard/src/ble_input_scheduler.cpp:98-207 | the radio is asked exactly when something waits and the deadline has passed, about the right head; a failed attempt removes nothing; exactly a key report that the answer completes is finished; reports and movement are conserved |
| BleInputScheduler.Scheduler.SetConnectionInterval | firmware/components/keyboard/src/ble_input_scheduler.cpp:50-73 | the period is clamped, and a pending retry is never brought forward |
| BleInputScheduler.Drive | firmware/host_test/ble_input_scheduler_tests.cpp:128-341 | over any offers, answers, intervals and resets, judged by the events and their answers alone: reports finish in the order queued, movement is sent, dropped or still queued, every attempt keeps the period then in force or the backoff of the failures before it, and a waiting wheel is overtaken a bounded number of times |
| BleInputScheduler.GapIsBounded | firmware/components/keyboard/src/ble_input_scheduler.cpp:253-264 | the distance kept lies between the shortest period and the longest period or backoff |
| KeyboardToHost.OnlyOptionalIsDropped | firmware/main/platform/ble_hid.cpp:1413-1480 | a keyboard snapshot leaves the queue only when the host has accepted it |
| KeyboardToHost.AllKeysAccepted | firmware/main/platform/ble_hid.cpp:1836-1915 | if no keyboard snapshot was dropped, the host has accepted exactly those that left the queue, in order |
| KeyboardToHost.Run | firmware/main/platform/ble_hid.cpp:1836-1915 | over any keys, app traffic, wheel movement, reconnects and answers of the radio, the host of the current connection has accepted the keyboard snapshots kept for it, each once and in order, save those still queued, and the last one is all-zero once nothing is held, nothing is pending and the queue is empty |
| HeldKeyboard.SnapshotIsTheUnion | firmware/components/keyboard/src/held_keyboard_state.cpp:199-238 | the snapshot holds a key, a modifier or Fn exactly if some active source does |
| HeldKeyboard.ReleaseFits | firmware/components/keyboard/src/held_keyboard_state.cpp:104-144 | letting go never overflows the six keys |
| HeldKeyboard.Held.Press | firmware/components/keyboard/src/held_keyboard_state.cpp:56-102 | status and new state exactly, rejection leaving everything as it was |
| HeldKeyboard.Held.Release | firmware/components/keyboard/src/held_keyboard_state.cpp:104-144 | status and new state exactly |
| SnapshotDelivery.PressOnlyAdds | firmware/components/keyboard/src/keyboard_snapshot_delivery.cpp:93-102 | what is classed as a press never takes a key up, and only the empty snapshot is classed as all-released |
| SnapshotDelivery.ReleasesShrink | firmware/components/keyboard/src/keyboard_snapshot_delivery.cpp:93-102 | a release that presses nothing lets go of at least one source that was down as a whole |
| SnapshotDelivery.DrawnIsSpelled | firmware/components/keyboard/src/held_keyboard_state.cpp:199-238 | a snapshot composed of known contributions is made of those of them that are down as a whole |
| SnapshotDelivery.Delivery.MarkAccepted | firmware/components/keyboard/src/keyboard_snapshot_delivery.cpp:64-72 | only the generation last offered is acknowledged |
| SnapshotDelivery.Delivery.SetDesired | firmware/components/keyboard/src/keyboard_snapshot_delivery.cpp:39-51 | a superseded attempt can no longer be acknowledged |
| TransportLatch.Latch.SelectForSnapshot | firmware/components/keyboard/src/transport_routing.cpp:138-169 | the first key of a chord binds the chord, later snapshots keep its endpoint, and a lost endpoint suppresses it |
| TransportLatch.Latch.Observe | firmware/components/keyboard/src/transport_routing.cpp:171-195 | an endpoint gone or renewed is noticed exactly, and suppresses the chord |
| TransportLatch.UsbLifetime.MountedMeansUnbroken | firmware/components/keyboard/src/transport_routing.cpp:121-125 | a usable endpoint has been usable ever since its epoch began |
| TransportLatch.UsbLifetime.OnMount | firmware/components/keyboard/src/transport_routing.cpp:70-78 | a mount callback always starts a new epoch, unless the cable is known to be absent |
| TransportLatch.UsbLifetime.ObservePresence | firmware/components/keyboard/src/transport_routing.cpp:106-119 | losing the cable ends the lifetime, and its return alone never revives it |
| TransportLatch.EpochsDoNotRepeat | firmware/components/keyboard/src/transport_routing.cpp:131-136 | an epoch comes back only after the whole 32-bit round |
| BridgedHotkey.Delivery.MarkAccepted | firmware/components/keyboard/src/transport_routing.cpp:255-271 | only the pending transition is acknowledged, and at most two acceptances reach the desired state |
| BridgedHotkey.Delivery.SetDesired | firmware/components/keyboard/src/transport_routing.cpp:217-230 | what was sent stays an alternation of presses and releases of one hotkey at a time |
| BridgedHotkey.Delivery.ResetToDesired | firmware/components/keyboard/src/transport_routing.cpp:273-279 | a new endpoint is never replayed an old press |
| KeyboardPipeline.Pipeline.Flush | firmware/main/app_main.cpp:1370-1396 | a pending snapshot goes to the endpoint of its chord, or stays pending exactly if that queue has no room for its class; a chord ends only when every key is up |
| KeyboardPipeline.Pipeline.Dispatch | firmware/main/app_main.cpp:1398-1433 | one physical edge changes what is held as it should, and the new state is taken exactly if the queue of its chord has room for its class; letting go of everything always reaches it |
| KeyboardPipeline.Pipeline.Reconcile | firmware/main/app_main.cpp:1241-1297 | a chord whose endpoint is gone is given up, never moved, and a new endpoint starts with an empty queue |
| KeyboardPipeline.Pipeline.Offer | firmware/main/app_main.cpp:1324-1396 | the pending snapshot is taken exactly if its chord has no live endpoint or that endpoint's queue has room for its class; that all is released is always taken; whether the attempt was tidy or a swap is stated exactly |
| KeyboardPipeline.Pipeline.ReleaseAll | firmware/main/app_main.cpp:1634-1648 | nothing is held any more and the zero snapshot has gone out to a live chord |
| KeyboardPipeline.Pipeline.Command | firmware/main/platform/ble_hid.cpp:1342-1401 | app traffic on the Bluetooth queue is taken exactly while its class has room, and keeps the keyboard's invariant |
| KeyboardPipeline.Pipeline.NoStuckKey | firmware/host_test/transport_routing_tests.cpp:239-485 | once nothing is held and nothing is pending, the last snapshot accepted for every connected host is all-zero, and so is the last one taken once its queue is drained |
| KeyboardPipeline.Run | firmware/host_test/transport_routing_tests.cpp:239-485 | over any presses, releases, disconnects, reconnects, app traffic and draining, with the report queues refusing what they have no room for, every chord goes whole to one endpoint lifetime, no key stays stuck, and no key-up is refused while no release presses anything and at most eleven sources and app presses are down; with at most eleven fixed contributions and no app presses more are never down |
| KeyboardWitnesses.KeyReleaseCanBeRefused | firmware/main/app_main.cpp:1370-1433 | a concrete run: each release so far pressed the other key, thirty-one reports wait, and a key-up is refused although its press was taken |
| KeyboardWitnesses.AppReleaseCanBeRefused | firmware/components/keyboard/src/hid_report_queue.cpp:10-28 | and so is the release of an app key |
| FixedTextStream.FramesReassemble | firmware/components/keyboard/src/ble_fixed_text_stream.cpp:33-92 | the commands carry the indexes 0 to n-1 and read back as the text |
| FixedTextStream.TextIsTaken | firmware/components/keyboard/src/ble_fixed_text_stream.cpp:33-92 | with fewer than two reports queued a text report is always taken |
| FixedTextStream.Stream.Pump | firmware/components/keyboard/src/ble_fixed_text_stream.cpp:33-92 | chunks are added in order exactly while fewer than two reports are queued; a changed owner cancels only what was not yet queued |
| FixedTextStream.Stream.Start | firmware/components/keyboard/src/ble_fixed_text_stream.cpp:9-31 | busy, empty, invalid owner and too large exactly |
| FixedTextStream.Deliver | firmware/host_test/ble_fixed_text_stream_tests.cpp:29-184 | with any keyboard reports, draining and owner changes the text reaching the queue is its commands 0 to n-1 in order, a prefix of the text, and the whole text on completion |
| CaptureIdentity.DecodeEncode | firmware/components/keyboard/src/codex_slot_state.cpp:7-20 | an encodable capture comes back from its 64-bit name |
| CaptureIdentity.EncodeDecode | firmware/components/keyboard/src/codex_slot_state.cpp:22-44 | every accepted name is the one name of its capture |
| CodexSlot.SlotState.HandleInput | firmware/components/keyboard/src/codex_slot_state.cpp:76-164 | talking wins over playback; a capture ends only by its own key; a preemption names exactly the playback that was running; capture and playback exclude each other |
| CodexSlot.SlotState.BeginPlayback | firmware/components/keyboard/src/codex_slot_state.cpp:166-201 | accepted exactly for the slot, request and connection last asked for, once per press; duplicates and busy exactly |
| CodexSlot.SlotState.AcceptFrame | firmware/components/keyboard/src/codex_slot_state.cpp:213-235 | exactly the next frame is accepted; earlier, later, foreign and excess ones are told apart |
| CodexSlot.SlotState.MarkTransferComplete | firmware/components/keyboard/src/codex_slot_state.cpp:237-249 | only after all frames |
| CodexSlot.SlotState.MarkDrained | firmware/components/keyboard/src/codex_slot_state.cpp:251-261 | only for exactly the announced samples after the transfer |
| CodexSlot.SlotState.PendingFinished | firmware/components/keyboard/src/codex_slot_state.cpp:263-272 | the finish is reported only after begin, every frame in order, hand-over and the exact drain, unbroken |
| CodexSlot.SlotState.Disconnect | firmware/components/keyboard/src/codex_slot_state.cpp:293-320 | ends exactly what ran on that connection; zero stands for all |
| CodexSlot.CapturesConcat | firmware/components/keyboard/src/codex_slot_state.cpp:76-164 | capture starts and ends of a log are those of its parts |
| CodexDevice.Device.DrainAll | firmware/simulator/codex_device_simulator.cpp:65-74 | one finish goes out, at the moment the last sample was heard |
| CodexDevice.Run | firmware/host_test/codex_device_simulator_tests.cpp:15-133 | over any inputs, drops, lost acknowledgements and reconnects: capture starts and ends alternate and match, every finish reported was earned and fell outside a capture, and a running capture is always of the current connection |
| CodexDevice.Device.Press | firmware/simulator/codex_device_simulator.cpp:20-23 | letting go of the key being talked on always ends the capture, and nothing else a key does ends it |
| ImaAdpcm.AssetTotals | firmware/diagnostics/speaker_ima_adpcm_probe/ima_adpcm_decoder.cpp:90-160 | an accepted asset decodes to exactly the declared samples, all of 16 bits, in as many frames as they need |
| ImaAdpcm.OpenOneShot | firmware/diagnostics/speaker_ima_adpcm_probe/ima_adpcm_decoder.cpp:90-160 | opening accepts exactly the well-formed assets |
| ImaAdpcm.DecodeFrame | firmware/diagnostics/speaker_ima_adpcm_probe/ima_adpcm_decoder.cpp:172-230 | the buffer receives exactly the samples of the frame, and nothing else changes |
| ImaAdpcm.StreamDecoder.DecodeNext | firmware/features/speaker_assets/sound_asset_reader.cpp:623-746 | a failure changes nothing; the end comes exactly after the last sample of a well-formed asset, and what was emitted then is the one-shot decoding |
| ImaAdpcm.StreamDecoder.Reset | firmware/features/speaker_assets/sound_asset_reader.cpp:566-574 | decoding starts over from the first frame |
| ImaAdpcm.BuiltAssetIsOk | firmware/host_test/sound_asset_store_tests.cpp:200-239 | every asset the builder makes is accepted with exactly the declared totals |
| ImaAdpcm.BuildAsset | firmware/host_test/sound_asset_store_tests.cpp:200-239 | the appending loop builds the specified asset |
| Utf8.IsValidUtf8 | firmware/host_test/config_status_tests.cpp:12-50 | true exactly for concatenations of encoded scalar values |
| Utf8.FrontIsScalar | firmware/host_test/config_status_tests.cpp:12-50 | what is recognised at the front is exactly one scalar value's encoding |
| Utf8.ScalarIsFront | firmware/host_test/config_status_tests.cpp:12-50 | every scalar value's encoding is recognised at its full length |
| Utf8.EscapedIsUtf8 | firmware/components/keyboard/src/config_status.cpp:65-145 | whatever the input, the bounded escape is valid UTF-8 within its budget |
| Utf8.EscapeBounded | firmware/components/keyboard/src/config_status.cpp:65-145 | the loop computes the specified escape |

## Left out

- SHA-256, HMAC and AES-GCM themselves, key derivation and the Wi-Fi record layer: digests are arbitrary functions.
- The manifest grammar beyond length and digests: `validate_sound_manifest` is an arbitrary predicate of the environment.
- Store checkpoints: inside `SoundAssetStore` each storage call is one call; the division into permitted units is proved once in `ChunkedStorage` and `PermitExchange`.
- Faults of the flash: a mutation may stop after any prefix and report an error; a write that silently stores other bits than asked is not modelled, except as corruption between two runs.
- StoreHistory.DetectedIsDurable: damage after which some record reads as another one, or that takes the valid bank from under one half reclaimed, is not covered; `StoreHistory.Run` says nothing beyond such damage. Damage strikes between two lives of the store and is followed by a restart.
- SoundAssetStore.Store.AcquireActiveRead: by itself it states exactly when it pins the bank under update; that it never does needs the whole history, flash whose first generation is in bank A, and manifests that do not collide (`StoreHistory.Run`).
- StoreRuns.UpdateTakenUpAgain: that the first attempt leaves a bank which can be taken up is its condition, not its claim, because a valid bank may carry a complete header of unknown authorship that outlives its record.
- Reply layouts and the partial-activity counter of the session: replies are values that name their fields, and whether a frame made progress is an arbitrary input of the core.
- Timers of the runtime: whether a timeout has expired is an arbitrary input of every step.
- RuntimeCore.Core.RemoveReply: reply sequence numbers are unbounded, not reused after 2^32 replies.
- RuntimeSupervisor.Serve: the record that a transport keeps of its offered reply is abstracted to the oldest reply of its route; the transports' own buffers are not modelled.
- The boot sound's internal read job, `resolve_sound_asset` and `prepare_boot_read`: the supervisor knows only whether the core is held.
- KeyboardPipeline.Run: an endpoint lifetime is its sampled epoch, so a lifetime that ends and begins again under the same epoch between two samples is not seen; that the 32-bit USB counter does not repeat before a full round is `TransportLatch.EpochsDoNotRepeat`.
- KeyboardToHost.Run: an answer that the connection is gone ends the lifetime at once, and the keyboard sees it gone; the quarantine after a fatal answer is not modelled, the radio may go on being asked.
- KeyboardPipeline.Pipeline.Command: app traffic is any classified report; the synthetic taps and texts that USB adds to an empty keyboard queue, and the send that follows each push, are not modelled as such (a queue is drained by `TakenFrom` at any time).
- `UsbPhysicalPresenceMonitor` (debounce), BLE and USB drivers, tasks and locks.
- Status documents in `config_status.cpp` beyond bounded escaping, configuration, battery, LEDs, keymaps, power policy, audio arbitration.
- Windows scripts and the desktop application.
