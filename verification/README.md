# Tari Vault in Dafny

Tari Vault keeps an encrypted proof under a random record id and hands its caller a token: 48 octets,
the record id and the AES-256 key, in 64 base64url characters.  Whoever presents the token gets the proof
back, once.  This project models the vault and proves what it promises.  `dafny verify dfyconfig.toml`
checks everything.

## How it is laid out

| layer | files | what is there |
|---|---|---|
| texts | `Base64`, `ClaimId`, `Uuid`, `Calendar`, `Rfc3339` | the codecs in full, as executable functions, and the `ClaimId` class over octet buffers |
| stores | `Backend`, `JsonFile`, `LocalFile`, `Sqlite`, `Storage` | one abstract map of records; the JSON-file store and the SQLite store as classes, each refining it; either behind one interface |
| file store under concurrency | `FileProtocol`, `FileLinearizability`, `FileProgress`, `FileClaims` | any number of tasks in any number of processes, interleaved step by step, with I/O errors, dropped futures and process death; what a vault's claims get from it |
| vault | `VaultSpec`, `Vault` | the vault class over either store, one caller at a time |
| vault under concurrency | `ClaimProtocol`, `ClaimInvariant`, `ClaimSteps`, `ClaimTheorems` | calls as sequences of separate storage steps, interleaved with each other, with sweeps and with the clock |
| both at once | `FileVault`, `FileVaultProgress` | callers whose storage calls are runs of the file protocol, simulated by the claim protocol; that each can be answered |
| background sweep | `Cleanup`, `CleanupTiming` | tokens, ticker and loop as classes; the same task in time, among other callers |

The layers meet in five places.  `LocalFile` and `Sqlite` refine the map of `Backend`.  `FileLinearizability`
shows that the file store still behaves as that map when calls interleave: what each call was asked for takes
effect once, between the call and its return.  `FileVault.FileRunsAreClaimRuns` puts the vault's calls on top of
that: every run of callers over the interleaved file store, with every lock, failure, dropped future and crash, is
a run of `ClaimProtocol` in which a storage call is one step that works, fails without effect, or fails after
taking effect.  So all that `ClaimTheorems` proves holds of the vault file.  `ClaimTheorems.StepsUseTheBackend`
shows that calls use nothing but the map's operations and answers, in ways both stores can serve, and
`ClaimTheorems.SoloCallsAreSequential` that a call nobody interferes with is a call of the `Vault` class.
`FileClaims` proves single use and the right plaintext on the file protocol directly, by places in its log.

The AEAD is symbolic: a sealed text spells out key, nonce and plaintext and opens only under that key and
nonce.  Keys, nonces, record ids and clock readings are inputs; in a run no two store calls draw the same
record id.

## Where code and documentation disagree

The model follows the code.

- `README.md:11` and `docs/llm-context.md:13` say a proof is released exactly once.
  `retrieve_proof` fetches, decrypts and only then deletes, ignoring whether the delete found anything
  (`src/vault/proof_vault.rs:181`), so two overlapping retrievals can both return the proof
  (`ClaimTheorems.BothRetrieve`; exactly when, `ClaimTheorems.TwiceExactlyWhenBothInTime`).  What holds is
  that all successful claims of a record share an instant, and that of two claims that do not overlap at most
  one succeeds.
- A proof can also be released to nobody.  `set_permissions` runs after the rename
  (`src/storage/local_file.rs:178`), so the delete that ends a retrieval can take effect and still report an
  error, and then the caller gets the error and not the proof (`ClaimTheorems.ProofCanBeLost`).
- `store_proof` accepts any TTL whose expiry `chrono` can represent (`src/rpc/api.rs:13`,
  `src/vault/proof_vault.rs:106-113`), but from the year 10000 on SQLite rows do not keep it.  The text starts with
  a plus sign, so it does not parse on the way out (`src/storage/sqlite.rs:195`) and sorts before every other
  timestamp: such a proof cannot be retrieved and the next sweep deletes it.  A row outlives the sweeps before its
  expiry if and only if the expiry has a four-digit year (`Sqlite.RowsOutliveSweepsExactlyInRange`); everything else
  here is about such expiries.
- `src/vault/proof_vault.rs:47-49` says deleting needs the full token.  `delete_proof` uses the record id
  only, so any well-formed token that names the record will do (`ClaimTheorems.DeleteIgnoresTheKey`).
- `docs/architecture/data-flows.md:221-224` draws the token as 22 characters of record id and 42 of key.
  Character 21 carries two bits of the one and four of the other (`Claims.TokenBoundary`).
- Comparing timestamps as texts is sound with the `+00:00` suffix that SQLite rows use.  With the `Z` suffix
  that the JSON file uses it would not be (`Rfc3339.ZuluTextsAreNotOrdered`); the file store compares instants.

## Model

| member | source | states |
|---|---|---|
| `Base64.EncodeDecode` | src/domain/record.rs:86-93 | decoding inverts encoding at every length, padded and unpadded |
| `Base64.DecodeEncode` | src/domain/record.rs:86-93 | a text that decodes is the encoding of what it decodes to |
| `Base64.OneSpelling` | src/domain/record.rs:90-93 | each octet string has exactly one accepted text |
| `Base64.AcceptsCanonical` | src/domain/record.rs:90-93 | decoding accepts exactly the texts with alphabet symbols, correct padding and zero unused bits |
| `Base64.EncodeAt` | src/domain/claim_id.rs:44-49 | each character of an encoding is the symbol of its six bits |
| `Base64.SymbolsAreTheTables` | src/domain/claim_id.rs:44-49 | the symbol of each value is the character at its place in the table of section 5 of RFC 4648 for tokens and of section 4 for the file, both written out; one decodes as the other's inverse |
| `Base64.EncodesByTheBook` | src/domain/record.rs:86-93 | three octets are one 24-bit number in four digits of those tables; a tail of one octet is two digits and, padded, `==`, one of two octets three digits and `=` |
| `Base64.EncodedLetters` | src/domain/record.rs:86-93 | encoded texts hold letters, digits and `-` and `_`, or `+`, `/` and `=`, and have exactly the length of section 4 |
| `Claims.ClaimId.constructor` | src/domain/claim_id.rs:33-38 | a claim holds the given key and the drawn record id in its own buffers |
| `Claims.ClaimId.EncodeText` | src/domain/claim_id.rs:44-49 | encoding yields the token of the claim, 64 characters over the base64url alphabet |
| `Claims.ClaimId.DecodeText` | src/domain/claim_id.rs:55-75 | decoding succeeds exactly on such texts and gives the claim whose token they are |
| `Claims.ClaimId.Zeroize` | src/domain/claim_id.rs:93-98 | both buffers are overwritten |
| `Claims.TokenRoundTrip` | src/domain/claim_id.rs:44-75 | decode inverts encode for every claim |
| `Claims.AcceptsTokenTexts` | src/domain/claim_id.rs:55-75 | decode accepts exactly the 64-character base64url texts, and encode inverts it there |
| `Claims.TokensAreSixtyFourLetters` | src/domain/claim_id.rs:55-75 | a text is a token exactly when it is 64 letters, digits, hyphens and underscores |
| `Claims.TokenLocality` | src/domain/claim_id.rs:44-49 | characters 0-20 depend only on the record id, 22-63 only on the key |
| `Claims.TokenBoundary` | src/domain/claim_id.rs:44-49 | character 21 mixes two bits of the id with four of the key |
| `Claims.TamperedTail` | src/domain/claim_id.rs:55-75 | changing characters from 22 on keeps the record id and changes the key |
| `Uuid.KeysAreFaithful` | src/storage/local_file.rs:80 | hyphenated keys are injective and sort as the sixteen octets do |
| `Uuid.HyphenatedByTheBook` | src/storage/local_file.rs:80 | the key of an id is its sixteen octets in lower-case hexadecimal, first digit first, in groups of 8, 4, 4, 4 and 12 with hyphens between |
| `Calendar.CivilRoundTrip` | src/storage/sqlite.rs:195-203 | instants in years 0000-9999 to date and time fields and back, across leap years |
| `Calendar.FieldOrderIsTimeOrder` | src/storage/sqlite.rs:162-169 | comparing fields from the year down is comparing instants |
| `Calendar.MonthStarts` | src/storage/sqlite.rs:84-85 | the days from 1 January to the first of each month, in numbers, common years and leap years |
| `Calendar.DatesFollowOneAnother` | src/storage/sqlite.rs:84-85 | the date of the next day is the next date of the calendar, month lengths and leap rule written out |
| `Calendar.NewYear` | src/storage/sqlite.rs:84-85 | day 365y plus the leap days before is 1 January of the year y |
| `Calendar.FirstDays` | src/storage/sqlite.rs:84-85 | day 719528 is 1 January 1970 |
| `Calendar.TimesOfDay` | src/storage/sqlite.rs:84-85 | the fields count hours of sixty minutes of sixty seconds since the midnight before the instant, whose day is counted from 1970 |
| `Rfc3339.PrintParse` | src/storage/sqlite.rs:84-132 | parsing a printed timestamp gives the same instant, to the nanosecond |
| `Rfc3339.PrintInjective` | src/storage/sqlite.rs:84-85 | no two instants print alike |
| `Rfc3339.EpochText` | src/storage/sqlite.rs:84-85 | the text of the epoch is `1970-01-01T00:00:00+00:00` |
| `Rfc3339.PrintedInLetters` | src/storage/sqlite.rs:84-85 | a text is date, `T`, time of day, fraction, and `+00:00` or `Z` |
| `Rfc3339.DateInLetters` | src/storage/sqlite.rs:84-85 | the date is four digits of year and two each of month and day with hyphens between, read as decimal numbers |
| `Rfc3339.TimeInLetters` | src/storage/sqlite.rs:84-85 | the time is two digits each of hour, minute and second with colons between |
| `Rfc3339.FractionInLetters` | src/storage/sqlite.rs:84-85 | the fraction is absent, or a point and the fewest of three, six or nine digits that lose nothing |
| `Rfc3339.FractionsRoundDown` | src/storage/sqlite.rs:195-203 | any run of fraction digits is read as the nanoseconds it spells, rounded down |
| `Rfc3339.OffsetsShift` | src/storage/sqlite.rs:195-203 | a time with offset `+hh:mm` names the instant that much earlier, with `-hh:mm` later |
| `Rfc3339.StringOrderIsTimeOrder` | src/storage/sqlite.rs:162-169 | octet order of `+00:00` texts with 0, 3, 6 or 9 fraction digits is time order, strict and not |
| `Rfc3339.ZuluTextsAreNotOrdered` | src/domain/record.rs:23-27 | with the `Z` suffix every whole second sorts after its own fractions |
| `Rfc3339.BeyondTheYear` | src/storage/sqlite.rs:84-85 | the instants printed with a sign are exactly those from the year 10000 on |
| `Rfc3339.InRangeIsFourDigits` | src/storage/sqlite.rs:84-85 | the instants printed without a sign are exactly those of the years 0 to 9999 |
| `Rfc3339.DecimalSpells` | src/storage/sqlite.rs:84-85 | a year of more than four digits is written in decimal without leading zeros |
| `Rfc3339.BeyondSortsFirst` | src/storage/sqlite.rs:162-169 | their texts sort before every text with a four-digit year |
| `Rfc3339.BeyondDoesNotParse` | src/storage/sqlite.rs:195-203 | and are rejected when read |
| `Backend.SweepIsExact` | src/storage/local_file.rs:142-144 | a sweep leaves exactly the records without expiry or expiring later, unchanged and none expired, and counts those gone |
| `Backend.SweepsCompose` | src/storage/local_file.rs:133-154 | sweeping earlier and then later is sweeping later alone; the counts add up |
| `Backend.SweepVersusExpiry` | src/domain/record.rs:31-33 | the sweep and `is_expired` differ at the expiry instant and nowhere else |
| `JsonFile.RecordRoundTrip` | src/domain/record.rs:18-28 | a record written to the file's texts and read back is the same record |
| `JsonFile.WrittenInLetters` | src/domain/record.rs:18-28 | a written record's octets are padded base64 with `+` and `/`, its timestamps end in `Z`, and it has an expiry exactly when the record has |
| `JsonFile.EntriesInOrder` | src/storage/local_file.rs:160-168 | the entries of a file are in strict order of their keys |
| `JsonFile.ReadRendered` | src/storage/local_file.rs:160-168 | parsing the rendered entries, in key order, gives back the state |
| `JsonFile.ReadImage` | src/storage/local_file.rs:68-71 | reading the file of a map of records gives that map under string keys |
| `JsonFile.PrefixesDoNotRead` | src/storage/local_file.rs:68-71 | no proper prefix of any text that parses parses: a torn file never passes for a whole one |
| `JsonFile.ImageInjective` | src/storage/local_file.rs:160-168 | different maps of records have different files |
| `JsonFile.ByKeyRetain` | src/storage/local_file.rs:143 | retaining under string keys is sweeping the abstract map |
| `LocalFile.Directory.WriteAtomic` | src/storage/local_file.rs:160-182 | stopped anywhere, the file is the whole old text before the rename and the whole new one from it on; success means new |
| `LocalFile.LocalFileStore.constructor` | src/storage/local_file.rs:41-44 | a store on a new file holds no records |
| `LocalFile.LocalFileStore.Existing` | src/storage/local_file.rs:46-49 | a store on a file that is already there holds what the file does and leaves it alone |
| `LocalFile.LocalFileStore.Insert` | src/storage/local_file.rs:77-93 | success inserts, and means that nothing failed up to the change of permissions; an error or a crash leaves the old records or the new ones |
| `LocalFile.LocalFileStore.Fetch` | src/storage/local_file.rs:95-110 | returns the record, or says it is missing exactly when it is |
| `LocalFile.LocalFileStore.Delete` | src/storage/local_file.rs:112-131 | success removes and says whether it was there; otherwise old or new records |
| `LocalFile.LocalFileStore.DeleteExpired` | src/storage/local_file.rs:133-154 | success is the abstract sweep with its count; otherwise old or new records |
| `FileLinearizability.RunKeeps` | src/storage/local_file.rs:77-155 | the invariant of the concurrent file store holds after every run |
| `FileLinearizability.FileHoldsCommittedOperations` | src/storage/local_file.rs:77-155 | in every run the file reads as the committed operations applied in commit order: no torn file, no lost update |
| `FileLinearizability.CommitsWereAskedFor` | src/storage/local_file.rs:77-155 | every committed operation is the one some caller's call asked for, and is that call's only one |
| `FileLinearizability.AnswersAreAbstract` | src/storage/local_file.rs:77-155 | every call was made by one event of the run; what it answered is the abstract answer to what that event asked, committed once between the call and its return; early errors had no effect, late ones had it once |
| `FileLinearizability.SweepsReadTheClockInTime` | src/storage/local_file.rs:134-136 | the clock reading of a committed sweep lies between its call and its commit |
| `FileLinearizability.EffectsAreUnique` | src/storage/local_file.rs:77-155 | no call takes effect twice |
| `FileLinearizability.RealTimeOrder` | src/storage/local_file.rs:77-155 | a call that returned before another was made took effect first |
| `FileLinearizability.OneClosureInside` | src/storage/local_file.rs:82-90 | at most one closure is between acquiring and releasing the file lock, cancelled callers and dead processes included |
| `FileLinearizability.MutexAloneDoesNotExclude` | src/storage/local_file.rs:78-90 | a run with two closures of one process in flight: dropping a future frees the mutex while its closure holds the file lock |
| `FileLinearizability.SomeStepIsPossible` | src/storage/local_file.rs:77-155 | whenever a call is pending some successful step is possible |
| `FileLinearizability.StepsAdvance` | src/storage/local_file.rs:77-155 | each step moves its call strictly forward and no other call |
| `FileProgress.ErrorsAreFailures` | src/storage/local_file.rs:77-182 | dead processes aside, a call is in error exactly when one of its own steps failed: without a failure it is answered, and no failure is swallowed |
| `FileProgress.FailuresAreReported` | src/storage/local_file.rs:77-182 | a call whose lock, read, temporary file, write, rename or change of permissions failed never answers with success, even if the rename took effect |
| `FileProgress.AnyStepCanFail` | src/storage/local_file.rs:82-182 | in every state each of a call's steps can also fail, leaving the file as it is and the call with an error, late only after the rename; and an awaiting caller can go away |
| `FileProgress.EveryCallCanBeAnswered` | src/storage/local_file.rs:77-155 | from every reachable state successful steps of the store alone bring any awaited call to its end, and one that has not failed to an answer |
| `FileLinearizability.VaultChangesAtRenameOnly` | src/storage/local_file.rs:160-182 | the file changes only by a rename, from one operation's before to its after |
| `FileLinearizability.HalfWrittenFilesDoNotRead` | src/storage/local_file.rs:165-171 | a temporary file reads as nothing until it is complete, and then as the next state |
| `FileLinearizability.WritesExactlyWhenNeeded` | src/storage/local_file.rs:77-154 | under the lock inserts, deletes of a record that is there and sweeps with a record due go on to write; every other call has its answer and leaves the file alone |
| `FileClaims.FoundWasStored` | src/storage/local_file.rs:77-110 | a record any fetch returned, in any run of the file protocol, is one a store call built |
| `FileClaims.RightPlaintextFromTheFile` | src/vault/proof_vault.rs:74-191 | a record fetched for a token from the interleaved file and opened with its key gives the proof of the store call whose token it is |
| `FileClaims.ClaimsShareAnInstant` | src/vault/proof_vault.rs:147-244 | all claims of a record on the interleaved file, fetch and delete, span one common commit |
| `FileClaims.SingleUseOfTheFile` | src/vault/proof_vault.rs:147-244 | of two claims on the file, one of which had returned before the other asked, at most one goes through |
| `FileVault.StepSim` | src/vault/proof_vault.rs:74-245 | each step of callers over the file store is matched by steps of the claim protocol, a commit by a step that works or fails after, an early error by one that fails before |
| `FileVault.FileRunsAreClaimRuns` | src/vault/proof_vault.rs:74-245 | every run of callers over the interleaved file store is a run of the claim protocol with the same calls, answers and records, in which no step fails of a call whose storage calls did not fail |
| `FileVault.UnharmedCallersHearTheVerdict` | src/vault/proof_vault.rs:74-245 | a caller none of whose storage calls had a failing step hears no storage error: a claim hears what the records' history says, a store call its token unless the TTL is zero or over-wide, a cleanup how many records it removed |
| `FileVaultProgress.EveryCallerCanBeAnswered` | src/vault/proof_vault.rs:74-245 | from every state callers over the interleaved file can reach, whatever failed, was cancelled or died, any caller still there can be answered by storage steps that work, its own steps and other callers hearing their answers, before the clock moves |
| `FileVault.RetrievedFromTheFileIsStored` | src/vault/proof_vault.rs:74-191 | a proof any caller got from the file is what a caller stored under the token presented |
| `FileVault.OneDiscardFromTheFile` | src/vault/proof_vault.rs:232-235 | of the deletes of one record on the file at most one is told it deleted it |
| `FileVault.IssuedProofsStayInTheFile` | src/vault/proof_vault.rs:141-179 | a proof issued without TTL stays in the vault file until its token is presented or a delete names it |
| `Sqlite.RowRoundTrip` | src/storage/sqlite.rs:84-132 | a row read back is the record inserted |
| `Sqlite.RowInLetters` | src/storage/sqlite.rs:79-101 | a row holds the octets as they are and timestamps that end in `+00:00` |
| `Sqlite.DueIsSweepable` | src/storage/sqlite.rs:162-169 | the SQL text comparison selects exactly the records whose expiry has come |
| `Sqlite.RowsReadExactlyInRange` | src/storage/sqlite.rs:103-141 | a written row reads back, as the record it was written from, exactly when its expiry has a four-digit year |
| `Sqlite.FarRowsAreAlwaysDue` | src/storage/sqlite.rs:162-169 | a row expiring later than that is due at every sweep, long before its expiry |
| `Sqlite.RowsOutliveSweepsExactlyInRange` | src/storage/sqlite.rs:160-178 | a row outlives every sweep before its expiry if and only if the expiry has a four-digit year |
| `Sqlite.DeleteDueIsSweep` | src/storage/sqlite.rs:160-178 | the SQL sweep is the abstract sweep, rows and count |
| `Sqlite.SqliteStore.Insert` | src/storage/sqlite.rs:79-101 | inserts or replaces the record, or fails without effect |
| `Sqlite.SqliteStore.Fetch` | src/storage/sqlite.rs:103-141 | returns the inserted record, or says it is missing exactly when it is |
| `Sqlite.SqliteStore.Delete` | src/storage/sqlite.rs:143-158 | removes and says whether it was there |
| `Sqlite.SqliteStore.DeleteExpired` | src/storage/sqlite.rs:160-178 | the abstract sweep with its count |
| `Storage.AnyBackend.Insert` | src/storage/mod.rs:24-29 | either store meets the insert contract of the backend |
| `Storage.AnyBackend.Fetch` | src/storage/mod.rs:31-36 | either store meets the fetch contract |
| `Storage.AnyBackend.Delete` | src/storage/mod.rs:38-43 | either store meets the delete contract |
| `Storage.AnyBackend.DeleteExpired` | src/storage/mod.rs:45-50 | either store meets the sweep contract |
| `Storage.BackendsAgree` | src/storage/backend.rs:9-37 | on the same operations both stores give the same replies, those of the abstract map |
| `Vault.StandardVault.StoreProof` | src/vault/proof_vault.rs:74-135 | a sequential store call does what the specification says, all or nothing under storage faults; zero seconds and more than 9223372036854775807 are refused with nothing stored, and without faults every other TTL, and none, gets its token and a record that expires the TTL after the clock reading |
| `Vault.StandardVault.RetrieveProof` | src/vault/proof_vault.rs:137-191 | likewise a retrieval; an expired record is reported as such even if its delete fails |
| `Vault.StandardVault.DeleteProof` | src/vault/proof_vault.rs:204-245 | likewise a delete; an expired record is reported as such even if its own delete fails |
| `Vault.StandardVault.CleanUp` | src/vault/proof_vault.rs:193-202 | likewise a sweep |
| `VaultSpec.StoreAccepts` | src/vault/proof_vault.rs:79-122 | exactly zero seconds and more than 9223372036854775807 are refused; every other call gets its token and a record with the sealed proof that expires the TTL after the clock reading, or never |
| `VaultSpec.TtlsThatEndAreAccepted` | src/vault/proof_vault.rs:106-113 | no TTL but zero is refused whose expiry has a four-digit year |
| `VaultSpec.MalformedTokens` | src/vault/proof_vault.rs:141-147 | a text that is not 64 letters, digits, hyphens and underscores is refused as an invalid id by retrievals and deletes, and nothing changes |
| `VaultSpec.MissingAndExpired` | src/vault/proof_vault.rs:147-170 | a token without a record finds nothing; an expired record is reported as expired and is gone, for retrievals and deletes |
| `VaultSpec.WrongNonceLength` | src/vault/proof_vault.rs:172-179 | a record whose nonce is not twelve octets fails decryption and stays |
| `VaultSpec.StoreThenRetrieve` | src/vault/proof_vault.rs:74-191 | zero and over-wide TTLs are refused, all others accepted; until its expiry the proof comes back, once, and the store is as before |
| `VaultSpec.StoreThenDelete` | src/vault/proof_vault.rs:204-245 | storing and deleting, under whichever key, leaves the store as before |
| `VaultSpec.WrongKeyAlone` | src/vault/proof_vault.rs:172-179 | a wrong key fails decryption and leaves the store unchanged |
| `ClaimSteps.NextKeeps` | src/vault/proof_vault.rs:74-245 | every event of the claim protocol keeps its invariant |
| `ClaimSteps.RunKeeps` | src/vault/proof_vault.rs:74-245 | so it holds after every run from an empty store |
| `ClaimTheorems.StepsUseTheBackend` | src/vault/proof_vault.rs:124-232 | a step leaves the records alone or performs one backend operation, one both stores can serve, and goes on according to its answer or error |
| `ClaimTheorems.StorageErrorsAreFailures` | src/vault/proof_vault.rs:124-232 | a call reports a storage error exactly when a storage step it was awaited in failed, other than the delete of an expired record |
| `ClaimTheorems.UnfailedCallsReportNoStorageError` | src/vault/proof_vault.rs:124-232 | a call none of whose steps failed, in any run, reports no storage error |
| `ClaimTheorems.RecordsAreStorable` | src/vault/proof_vault.rs:115-124 | every record ever held is one both stores keep to the nanosecond |
| `ClaimTheorems.SuccessSpansTheRemoval` | src/vault/proof_vault.rs:147-190 | every successful claim has the removal of its record between its fetch and its delete |
| `ClaimTheorems.SuccessesShareAnInstant` | src/vault/proof_vault.rs:147-244 | all successful claims of a record share an instant, in every run |
| `ClaimTheorems.SingleUse` | src/vault/proof_vault.rs:147-244 | of two claims that do not overlap at most one succeeds |
| `ClaimTheorems.NothingAfterASuccess` | src/vault/proof_vault.rs:147-244 | a claim that reads after a success answers not found, or a storage error exactly if a storage failure hit it |
| `ClaimTheorems.OneDiscard` | src/vault/proof_vault.rs:232-235 | at most one delete reports success, overlapping or not |
| `ClaimTheorems.BothRetrieve` | src/vault/proof_vault.rs:147-190 | from any state with a takeable record, two overlapping retrievals that both return the proof |
| `ClaimTheorems.OneDeletes` | src/vault/proof_vault.rs:232-235 | from any such state, two overlapping deletes of which the first is told it deleted and the second that there was nothing to delete |
| `ClaimTheorems.StoringMakesTakeable` | src/vault/proof_vault.rs:74-135 | any accepted store call whose expiry has a four-digit year leads to a reachable state with a takeable record |
| `ClaimTheorems.ProofExactlyInTime` | src/vault/proof_vault.rs:137-191 | a retrieval with a record's token, none of whose steps failed, returns its proof exactly when it read the record while it was there and judged it unexpired |
| `ClaimTheorems.TwiceExactlyWhenBothInTime` | src/vault/proof_vault.rs:137-191 | two retrievals none of whose steps failed both return the proof if and only if both were in time |
| `ClaimTheorems.RetrievedIsServedOrLost` | src/vault/proof_vault.rs:181-190 | a record removed by a retrieval gave its caller the proof, unless storage reported an error or the caller was gone |
| `ClaimTheorems.AtMostOneStepAfterLeaving` | src/vault/proof_vault.rs:74-245 | in every run a call whose caller has gone takes at most the step it was in, and answers nobody |
| `ClaimTheorems.ProofCanBeLost` | src/storage/local_file.rs:170-179 | from any state with a takeable record, a run after which it is gone and nobody has had the proof |
| `ClaimTheorems.ClaimsAnswerTheVerdict` | src/vault/proof_vault.rs:137-245 | a claim answers a storage error if a storage failure hit it, and otherwise exactly what the record's history says, case by case |
| `ClaimTheorems.StoresAnswer` | src/vault/proof_vault.rs:79-124 | in every run a store call refuses exactly zero and over-wide TTLs, and otherwise answers its token unless a storage failure hit it |
| `ClaimTheorems.CleanupsAnswer` | src/vault/proof_vault.rs:193-202 | a cleanup answers the number of records it removed unless a storage failure hit it |
| `ClaimTheorems.ExpiredAccessRemoves` | src/vault/proof_vault.rs:152-170 | a claim that answers expired, and whose steps did not fail, has removed the record or found it gone |
| `ClaimTheorems.OpensToItsProof` | src/vault/proof_vault.rs:172-179 | a stored record opens under its own key only, to its own proof |
| `ClaimTheorems.RetrievedIsStored` | src/vault/proof_vault.rs:137-191 | a returned proof is what some store call was given, and the token presented is that call's |
| `ClaimTheorems.RightPlaintext` | src/vault/proof_vault.rs:74-191 | the proof returned for an issued token is the one stored under it, over any backend that is the abstract map |
| `ClaimTheorems.ExactlyOnceWithoutOverlap` | src/vault/proof_vault.rs:147-190 | of two retrievals with one token that do not overlap, the first to read it in time gets the proof and the second gets not found |
| `ClaimTheorems.Conservation` | src/vault/proof_vault.rs:153-235 | every inserted record is live or was removed once, by one of four causes; sweeps account for what they counted |
| `ClaimTheorems.CleanupCounts` | src/vault/proof_vault.rs:193-202 | a cleanup's count is the number of records it removed, all due |
| `ClaimTheorems.RemovalNeedsCause` | src/vault/proof_vault.rs:152-232 | a record goes only by its own token, by a delete that names it, or once its expiry has come |
| `ClaimTheorems.AvailableUntilExpiry` | src/vault/proof_vault.rs:141-179 | before its expiry a record stays, unchanged, through sweeps, other calls and malformed or wrong-key retrievals |
| `ClaimTheorems.AvailableForItsTtl` | src/vault/proof_vault.rs:106-122 | an issued proof is there for at least its TTL from the moment of the call |
| `ClaimTheorems.WrongKeyIsHarmless` | src/vault/proof_vault.rs:152-179 | in every run a wrong-key retrieval never succeeds and removes at most its own expired record |
| `ClaimTheorems.TamperedTokenIsHarmless` | src/domain/claim_id.rs:55-75 | the same for an issued token changed after its first 22 characters |
| `ClaimTheorems.SoloCallsAreSequential` | src/vault/proof_vault.rs:74-245 | run without interference every call answers and leaves what the sequential vault does |
| `ClaimTheorems.ServesItsToken` | src/vault/proof_vault.rs:137-191 | from any reachable state a live, unexpired proof is served to its token and removed |
| `ClaimTheorems.DeleteIgnoresTheKey` | src/vault/proof_vault.rs:204-235 | a delete succeeds with any token that names the record |
| `Cleanup.CancellationToken.Cancel` | src/vault/cleanup.rs:24-26 | cancelling a token leaves its parent alone |
| `Cleanup.CancellationToken.ChildToken` | src/vault/cleanup.rs:81-84 | a child is cancelled from the start exactly when its parent was |
| `Cleanup.TicksStayOnTheGrid` | src/vault/cleanup.rs:87-90 | ticks stay on the first one's grid; a tick missed by more than five milliseconds gives the first grid point still to come |
| `Cleanup.CleanupTask.constructor` | src/vault/cleanup.rs:73-90 | the cleanup task gets a child token and a ticker due at once |
| `Cleanup.CleanupTask.Stop` | src/vault/cleanup.rs:24-26 | stopping cancels the cleanup task and not its host |
| `Cleanup.CleanupTask.Sweeps` | src/vault/cleanup.rs:98-128 | without cancelling or faults, whatever was due at some sweep less than an interval before any turn past the first tick is gone; the loop sweeps at exactly the turns the biased select takes, unless the process dies in a faulty sweep, which is then its last; without faults the store ends as those sweeps leave it, and with any faults it loses only records due at one of them and keeps none due at a sound one |
| `Cleanup.NoSweepAfterCancel` | src/vault/cleanup.rs:99-106 | from the turn that cancels on, no sweep starts |
| `Cleanup.SweptExactlyWhenDue` | src/vault/cleanup.rs:98-128 | until somebody cancels, for intervals over five milliseconds, a turn starts a sweep exactly when it is the first at or past the first tick, or a grid point has passed since the last sweep |
| `Cleanup.SweepsKeepComing` | src/vault/cleanup.rs:98-128 | until somebody cancels, whatever the interval, no turn past the first tick comes a whole interval after the last sweep |
| `Cleanup.SweepsNeverPileUp` | src/vault/cleanup.rs:88-90 | for intervals over tokio's five milliseconds of slack, between any two sweeps lies a grid point, however late the loop runs |
| `Cleanup.ShortPeriodsPileUp` | src/vault/cleanup.rs:88-90 | for any shorter interval two sweeps can start at one instant |
| `Cleanup.SweepsKeepPace` | src/vault/cleanup.rs:88-90 | whatever the interval, no more sweeps start than ticks come due |
| `Cleanup.SweepsAreTheLastOne` | src/vault/cleanup.rs:108-126 | all the loop's sweeps together leave what the last one alone would |
| `CleanupTiming.RunKeeps` | src/vault/cleanup.rs:86-131 | the timing invariant holds after every run among other callers |
| `CleanupTiming.SweepsAreTheLoops` | src/vault/cleanup.rs:98-128 | the sweeps of every timed run are those the loop takes when polled at the same times |
| `CleanupTiming.TimeIsNeverStuck` | src/vault/cleanup.rs:98-128 | in every reachable state the clock can go on or the cleanup task can take its next step |
| `CleanupTiming.ExpiredRecordsGo` | src/vault/cleanup.rs:86-131 | a record is gone by its expiry plus the interval plus two sweeps plus the scheduling lag if the last sweep succeeded, and one gap later for each failure since the last success |
| `CleanupTiming.SuccessClears` | src/vault/cleanup.rs:108-126 | what was overdue when the last successful sweep started is gone, however many failed before or since |
| `CleanupTiming.CancelledTaskStops` | src/vault/cleanup.rs:42-50 | a cancelled task has stopped after one sweep and the lag |
| `CleanupTiming.NoSweepOnceCancelled` | src/vault/cleanup.rs:99-106 | once cancelled no sweep starts; the one in progress may complete |
| `CleanupTiming.StopResolves` | src/vault/cleanup.rs:28-34 | a cancelled task can always stop by its own steps: the rest of the sweep in progress and one poll |
| `CleanupTiming.ShutdownEndsTheTask` | src/vault/cleanup.rs:42-48 | after the host's shutdown so can the cleanup task |
| `CleanupTiming.StopEndsTheTaskAlone` | src/vault/cleanup.rs:42-50 | stopping the cleanup task brings it to its end and leaves the host's token as it was |

## Left out

- The JSON grammar inside a piece: a file is a sequence of pieces (the opening brace, entries with their commas
  and white space, the closing brace), and a write stops between pieces.
- chrono's more lenient readings of a timestamp (other separators, leap seconds), and years outside 0000-9999 except
  for how SQLite rows print and compare them: elsewhere a call that would need one does not go on.
- AES-GCM itself: secrecy, authentication failure by chance, and its plaintext length limit.
- The randomness behind keys, nonces and record ids, and a collision of two record ids.
- SQLite's engine, its journal and its migrations: one statement under the connection mutex is one step.
- `LocalFileStore::new` racing across processes: the concurrent model starts with the file in place.
- Opening a vault file that something else wrote.
- Durability after power loss: the file is flushed but not synced, so a crash is a process crash here.
- Panics of blocking closures and poisoned mutexes, which reach callers as I/O errors.
- Fairness: every awaited call can be brought to its end by the store's own steps, but which steps the scheduler takes
  is open.
- Memory wiping beyond `ClaimId`'s own buffers, and redacted debug output.
- `Claims.ClaimId.Zeroize`: says what the buffers hold afterwards, not that no copy is left elsewhere.
- HTTP and JSON-RPC serving, authentication, configuration, logging, start-up and error-code mapping.
- `CleanupTiming.ExpiredRecordsGo`: how many sweeps fail in a row is not bounded, since nothing in the program bounds it.
- `Vault.StandardVault.StoreProof`: does not cover a TTL whose expiry lies past the year 9999.  What the SQLite store does
  with one is `Sqlite.RowsReadExactlyInRange` and its neighbours; the file store keeps it, and a TTL past what `chrono`
  can represent panics.
