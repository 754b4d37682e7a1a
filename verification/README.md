# Verified model of UBOD

UBOD keeps documents under seal: a daemon receives uploads, an administrator admits, rejects and destroys, roles rename,
move, trash, restore and edit, an auditor sweeps, a console purges, and every operation but the purge writes to a
hash-linked audit log. This project models that custody system and proves what holds after every operation and over whole
runs, together with the protocols and codecs underneath it.

`dafny verify dfyconfig.toml` checks everything (Dafny 4.11).

## How the model is laid out

| files | what they model |
|---|---|
| `Documents`, `Paths`, `Store` | the records, the paths and files of the vault, and the class `VaultDb` over its in-memory state |
| `Custody` | what each operation computes over database and files, branch by branch, as functions |
| `Services`, `CustodyProcess` | the same operations as the services run them: classes and methods that change the database and the files step by step and flush where the code does, each proved to compute its function; the process over them, proved to take the steps of the machine |
| `Replay`, `Records`, `CustodyInvariant` | the log read as history, the claims of records on files, and the invariant |
| `CustodyRoles`, `CustodyAdmin`, `CustodyIntake`, `Sweep` | what each operation keeps and achieves |
| `CustodyOutcomes`, `CustodyDecisions` | each operation by its cases: the answer, and all that it changes, field by field |
| `CustodyMachine`, `CustodyTrace`, `CustodySteps` | operations, flushes and restarts as one machine; the trace each step leaves, and what it keeps |
| `CustodyRuns`, `CustodyDigests` | whole runs from the empty vault, and what holds in all their states |
| `CustodyOnDisk` | every run of the vault as a run of the single-writer protocol |
| `CustodyService`, `CustodyStaging`, `CustodyGrace` | what spares the files of the service folders and what takes them: the file that a submission waits for, and the grace period of a destruction up to its tombstone |
| `CustodyExamples` | runs that reach the states one might not expect |
| `AuditChain`, `SingleWriter` | the hash-linked log; the lock, the two-step flush and crashes |
| `Calendar`, `TimeText`, `Der`, `Timestamp`, `TokenParts` | calendar arithmetic in both directions, time texts, DER, time-stamp tokens, the elements of a token |
| `BlockFile` | the encrypted block file |
| `HttpText`, `Http`, `HttpResponse`, `HttpCuts`, `Utf8` | request and response framing over arbitrarily split reads, and what it refuses |
| `Query`, `Lockout`, `Pairing` | the search query, the PIN lockout, the pairing codes |
| `Common`, `Text` | options, results, decimal texts, trimming, text order |

The custody results rest on one invariant (`CustodyInvariant.Inv`): records are well placed and versions numbered; the log
verifies, is numbered, and replays to the index; documents are conserved; every record names its own file with the recorded
digests, no other file lies outside the service folders, and no document that was not destroyed has a tombstone. Each
operation is proved to keep it, and the statements about runs follow.

## What is assumed

- Hashes are arbitrary functions. Statements about the audit chain end in "or here is a collision or a preimage of the
  genesis value"; digests of file contents are never assumed to be injective.
- The cipher opens what it sealed and refuses other associated data (`BlockFile.Lawful`); a toy cipher shows that this can
  be met. PIN checks, certificates, signatures and object identifiers are parameters.
- New identifiers are new, and contain neither `_` nor `/` (they are hexadecimal). Clock readings are parameters.
- The system's verdict on a rename is a parameter. Other file operations fail only where the model says so: a missing file,
  a file in the place of a folder, a folder in the place of a file, a sealed file in the way.
- Lower-casing, the alphanumeric test and lossy UTF-8 decoding are library functions, with the laws stated where they are
  used (`HttpText.LibLaws`, `Query.LowerLaws`, `Query.KeyLaws`, `Paths.Alnum`).

## What the code does that one might not expect

- A rename or move to a free place that the system refuses (because the name is too long, say) comes after the unsealing and
  leaves the file unsealed, until the document is renamed or moved again (`CustodyRuns.UnsealedExactlyAfterRefusal`; a run
  that gets there is `CustodyExamples.RefusedRenameUnseals`). That nothing else leaves one holds because the model knows only
  this failure: that an unsealing, a sealing or a wipe fails in a rename, destruction or purge is not a parameter.
- The comment on `seal_document` says that one content never enters twice. A restore does not look for the content among
  the active documents, so two active documents can share a digest, and it is the only step that can bring that about
  (`CustodyDigests.DigestsStayDistinctIff`; a run that gets there is `CustodyExamples.TwinsAreReachable`).
- Equal uploads share one staging file. A pending submission loses its file when another one staged under that name is
  rejected, sealed or closed as a duplicate, and also when someone uploads the same content under an envelope with a wrong
  digest or size, which decides nothing; it cannot be admitted then until the content is sent again
  (`CustodyStaging.PendingLosesFileIff`; runs in `CustodyExamples.EqualUploadsShareOneFile` and
  `CustodyExamples.UntrueUploadTakesTheFile`).
- An admission that reclassifies and then finds its place taken returns before the flush, so a restart that
  comes before the next flush loses the entry on the reclassification (`CustodyRuns.UnsavedIff`; a run that does is
  `CustodyExamples.ReclassificationIsLost`). A restart also forgets every scheduled destruction, although its entry
  stays in the log (`CustodyRuns.RestartLoses`).
- A document may be named ".versiones". Coordinación cannot edit any document of its folder then, because the versions need
  a folder of that name (`CustodyOutcomes.EditAnswers`; a run that gets there is
  `CustodyExamples.DocumentBlocksItsVersions`).
- A query with an unknown key, category, status or year selects every document instead of none (`Query.UnknownKey`,
  `Query.CategoryQuery`, `Query.IntegrityQuery`, `Query.YearQuery`).
- `verify_audit_chain` does not cover the content of the last entry; only comparing heads does
  (`AuditChain.LastEntryNeedsTheHead`). An entry shares its canonical text with another of the same detail exactly when its
  timestamp, actor, action or subject holds the separator (`AuditChain.AmbiguousFieldsIff`), and a separator in the detail
  makes it ambiguous too (`AuditChain.AmbiguousTextIff`). The name of a device is an actor, and nothing keeps the separator
  out of it (`CustodyExamples.UploadEntryIsAmbiguousIff`).
- The block file does not notice records missing at its end (`BlockFile.OnlyPrefixesDecrypt`), nor records of another file
  under the same key at the same index (`BlockFile.SplicedBlobsDecrypt`).
- `parse_octet_string` panics on data cut by one octet (`Der.PanicsOneOctetShort`); `der_integer` writes negative numbers
  as large positive ones (`Der.IntegerIsUnsigned`); years beyond 9999 are misread (`TimeText.GeneralizedTimeReadable`).
- Setting the administrator PIN with the right current PIN does not reset the count of failures
  (`Lockout.PinGuard.SetAdminPin`). The lockout product exceeds 64 bits from the 65th counted failure on
  (`Lockout.OverflowsFrom65`), but no run gets there: the end of the lock no longer fits an `Instant` before, at the 63rd
  failure at the latest, the addition panics, and the lock around the service is poisoned
  (`Lockout.AtMost63Failures`, `Lockout.HaltTakesAges`).
- The codes and the authorised devices of the channel live in memory, and nothing reads back the devices that the database
  stores: after a restart of the daemon every paired device is refused until it is paired again
  (`Pairing.PairedThenRefused`).

## Model

The main results come first.

| member | source | states |
|---|---|---|
| CustodyRuns.LogRebuildsTheIndex | crates/vault-roles/src/lib.rs:235-406 | **Main result.** in every state of every run the audit chain verifies, its entries are numbered from 0, and folding it from nothing gives exactly the map from active vault ids to their paths; the replayed trash covers the real trash (a purge writes no entry) and shares no id with the active index |
| CustodyRuns.PathsNeverClash | crates/vault-fs/src/lib.rs:60-97 | **Main result.** in every state of every run two different records (active, trashed or version) have different path texts, and each names a file with the recorded digests |
| CustodyRuns.UnsealedExactlyAfterRefusal | crates/vault-roles/src/lib.rs:235-356 | **Main result.** in every state of every run the file of an active or trashed document is unsealed if and only if, at its last rename or move that passed all guards of the code (role, name, active document, other and free place), the system refused; the file of a version is always sealed |
| CustodyRuns.NoFileIsOrphaned | crates/vault-fs/src/lib.rs:27-107 | **Main result.** in every state of every run each file but those directly in the staging folder or the tombstone folder belongs to a record |
| CustodyRuns.DocumentsAreConserved | crates/vault-admin/src/lib.rs:444-677 | **Main result.** active + trashed + destroyed + purged documents are always admits + imports; the replayed trash exceeds the real one by exactly the purges; admitted submissions are as many as "admit" entries |
| CustodyRuns.DocumentsStayInPlace | crates/vault-fs/src/lib.rs:30-37 | **Main result.** every active or trashed document lies at its sanitised author, its category folder and its file name (sanitised, or as a rename gave it), through sealing, renaming, moving, trashing and restoring |
| CustodyRuns.VersionsAreKept | crates/vault-store/src/lib.rs:347-364 | **Main result.** at any time the k-th version of a document has number k, and at any later time it is still there, unaltered, with a file of the recorded digest, whatever happened to the document in between |
| CustodyRuns.EditIsRemembered | crates/vault-roles/src/lib.rs:415-493 | **Main result.** after a successful edit by Coordinación, at every later time a version holds the digest and metadata the document had just before that edit, under the number that came next, with a file of that digest |
| CustodyRuns.DecisionsAreFinal | crates/vault-store/src/lib.rs:402-413 | **Main result.** submissions are never lost, and one that was decided never changes again |
| CustodyRuns.SweepsAreClean | crates/vault-audit/src/lib.rs:32-88 | **Main result.** a sweep in any state of any run finds every active document sound: nothing missing, tampered, listed or repaired |
| CustodyRuns.UnsavedIff | crates/vault-admin/src/lib.rs:444-544 | **Main result.** after a step the memory holds something that the disk does not if and only if the step is an admission whose digests are right, whose class the rules overrule, whose content is not active and whose place is taken, or something was unsaved before and the step neither flushes nor restarts |
| CustodyRuns.RestartLoses | crates/vault-admin/src/lib.rs:240-270 | **Main result.** a restart goes back to the last flush: it loses nothing of the database but reclassification entries at the end of the log, keeps every file, and forgets all scheduled destructions |
| CustodyRuns.RunKeepsInv | crates/vault-roles/src/lib.rs:235-519 | **Main result.** the invariant holds in every state of every run from the empty vault |
| CustodySteps.StepKeepsInv | crates/vault-admin/src/lib.rs:91-175 | **Main result.** each of the sixteen kinds of step keeps the whole invariant (structure, history, conservation, files, submissions, seals, what is flushed), only adds versions and only advances submissions |
| CustodyOnDisk.RunIsOnDisk | crates/vault-store/src/lib.rs:170-234 | **Main result.** every run is one run of the single-writer protocol, growing step by step: a restart adds exactly exit, lock and reading; any other step adds only changes in memory, followed by the three stages of a flush exactly when it flushes. In each state the process that holds the lock has the database in memory, the file holds the one last flushed, and the commits of the protocol are the databases flushed so far, in order |
| CustodyProcess.Process.Work | crates/vault-roles/src/lib.rs:235-519 | **Main result.** executing the steps of any run ends in the last state of that run, so what is proved of runs is proved of the services as they run |
| CustodyRuns.ChangesAreTraced | crates/vault-roles/src/lib.rs:230-519 | **Main result.** in every run each step but a purge and a restart extends the log only by entries under the name of its actor, and a step that writes no entry changes nothing in the database; a purge leaves the log as it is |
| CustodyGrace.GraceIsKept | crates/vault-admin/src/lib.rs:576-635 | **Main result.** in any run: a destruction with a grace period was accepted, and since then neither scheduled anew nor forgotten by a restart. A walk over what is due leaves the document, if it is still active, if and only if its clock has not reached the time of the acceptance plus the grace period; otherwise it is destroyed and its tombstone stands |
| CustodyOutcomes.ReadersChangeNothing | crates/vault-core/src/lib.rs:93-150 | **Main result.** in any run a step of a Docente or a Director leaves index, trash, versions, submissions, files and scheduled destructions as they are, and writes at most the one entry about a view |
| CustodyStaging.PendingLosesFileIff | crates/vault-sync/src/server.rs:279-308 | **Main result.** in any state of any run a pending submission loses its staging file by the next step if and only if that step rejects a pending submission staged under the same name, or admits one with the right digests whose content is active or whose place is free, or is an upload of that content under a readable 1.0 envelope with a wrong digest or size |
| CustodyDigests.DigestsStayDistinctIff | crates/vault-store/src/lib.rs:324-333 | **Main result.** in every run, where the digests of the active documents are distinct, they are so after the next step if and only if that step does not restore a document whose digest is active |
| CustodyAdmin.ProcessDueKeepsInv | crates/vault-admin/src/lib.rs:616-635 | **Main result.** whatever the order of the walk, exactly the active documents whose grace period is over are destroyed, exactly those are forgotten, and the invariant is kept |
| CustodyIntake.AdmitAfterUpload | crates/vault-admin/src/lib.rs:444-544 | **Main result.** admitting a submission whose staging file holds its content never fails for want of the file or for its digests: it seals, or is a duplicate exactly when an active document has the declared digest, or finds a collision exactly when no active document has it and a file or folder lies at the sanitised target; a sealed document holds exactly the bytes received, under the declared digest, and the staging file is gone |
| CustodyDecisions.AdmissionOutcomes | crates/vault-admin/src/lib.rs:475-544 | **Main result.** a decidable admission by cases: closed as a duplicate with its file gone, refused for its place and still pending, or sealed with all fields as received; the rules of the institution overrule the category, with an entry |
| Paths.SanitizedKeepsCharacters | crates/vault-fs/src/lib.rs:125-142 | **Main result.** without outer white space a name keeps every letter, digit, hyphen, underscore, dot and parenthesis in its position and has an underscore everywhere else; only an empty or dot name becomes one underscore |
| Sweep.SweepFinds | crates/vault-audit/src/lib.rs:32-88 | **Main result.** with distinct ids and any files: the sweep completes iff no path names a folder; then checked = ok + missing + tampered, the problems are exactly the unsound documents in index order, every record gets the status its file deserves, and the log grows by exactly one entry for each unsound document in that order, saying whether it is missing or which digest was found, and the closing entry with the counts |
| AuditChain.TamperingIsDetected | crates/vault-store/src/lib.rs:532-545 | **Main result.** changing the canonical text of any entry but the last breaks verification, or the digest is broken in the same sense |
| AuditChain.AmbiguousFieldsIff | crates/vault-store/src/lib.rs:49-62 | **Main result.** for every entry: a different one of the same number, detail and link has the same canonical text if and only if the separator occurs in its timestamp, actor, action or subject |
| AuditChain.AmbiguousTextIff | crates/vault-store/src/lib.rs:49-62 | **Main result.** with details that are texts an entry is the only one of its canonical text if and only if none of its five texts holds the separator |
| SingleWriter.AtMostOneWriter | crates/vault-store/src/lib.rs:170-209 | **Main result.** over any interleaving of opens, changes, flushes in two steps, drops and crashes no two processes can write at once |
| SingleWriter.NoLostUpdate | crates/vault-store/src/lib.rs:170-234 | **Main result.** the disk always holds the last completed flush whole, and that is the initial state with every change of every completed flush applied once and in order |
| SingleWriter.SessionSaves | crates/vault-store/src/lib.rs:170-234 | **Main result.** after any history in which no one writes now: a process that opens, makes any changes and flushes leaves on the disk what was there with exactly these changes |
| Calendar.CivilFromEpochIsRight | crates/vault-core/src/lib.rs:392-409 | **Main result.** every second maps to a valid Gregorian date and time whose day number is the floored quotient and which recompose the second |
| Calendar.CivilRoundTrip | crates/vault-crypto/src/tsa.rs:277-285 | **Main result.** every valid civil time comes back unchanged from its second |
| TimeText.GeneralizedTimeReadable | crates/vault-crypto/src/tsa.rs:354-355 | **Main result.** from year 0 on the printed time is read back right if and only if the year has at most four digits |
| Timestamp.StampRoundTrip | crates/vault-crypto/src/tsa.rs:344-444 | **Main result.** parsing a stamped token returns exactly the stamped second and imprint, for every imprint, serial, certificate and signature, if and only if the token content is below 2^32 octets and the year has at most four digits (section 2.4.2 of RFC 3161) |
| TokenParts.WhatIsReadIsThere | crates/vault-crypto/src/tsa.rs:58-227 | **Main result.** for any bytes that the reader accepts, written by anyone: walking their elements finds those of a token in their places, and the time and the imprint read are those of the TSTInfo there |
| TokenParts.SignatureCoversAttributes | crates/vault-crypto/src/tsa.rs:372-421 | **Main result.** walking the elements of a stamped token: the signature is over the signed attributes exactly as carried, and these are the content type, the same time as in the TSTInfo and the digest of the certificate |
| BlockFile.BlobRoundTrip | crates/vault-crypto/src/dbcrypto.rs:75-130 | **Main result.** decrypting what was encrypted gives the plaintext back, the empty one included |
| BlockFile.PiecesDecryptInPlace | crates/vault-crypto/src/dbcrypto.rs:104-130 | **Main result.** any sequence of records under one key, whatever they were written for, decrypts if and only if each stands at its own index, and then to their blocks in order |
| Http.RequestRoundTrip | crates/vault-sync/src/client.rs:71-104 | **Main result.** a request as the client prints it is read by the server with the same method, path, headers and body, or refused exactly when it exceeds the limit (section 6.2 of RFC 9112) |
| Http.ServeUpload | crates/vault-sync/src/server.rs:280-288 | **Main result.** from the stream to the envelope and the file that were sent |
| HttpResponse.ResponseRoundTrip | crates/vault-sync/src/server.rs:463-478 | **Main result.** the server's response, split in any way into reads of at most 4096 bytes and whatever follows it, is read back with the same status and body |
| Query.SplitIsStable | crates/vault-index/src/lib.rs:557-601 | **Main result.** joining the parts of any query with " AND " and splitting again gives the same parts |
| Query.ConjunctionSelects | crates/vault-index/src/lib.rs:528-545 | **Main result.** a compound query matches a document exactly when both halves match it |
| Query.AuthorQuery | crates/vault-index/src/lib.rs:483-545 | **Main result.** a query "autor:v" (in either spelling, v a word or a quoted text) selects a document if and only if its author contains v, both lower-cased |
| Query.TextQuery | crates/vault-index/src/lib.rs:483-545 | **Main result.** a text query selects a document if and only if title, author, department, file name or the extracted text contains the value |
| Lockout.LockedExactly | crates/vault-admin/src/lib.rs:414-434 | **Main result.** in every run that is not halted the service is locked if and only if at least four failures were counted since the last reset and the clock is before the last of them plus 5 * 2^(n-3) seconds |
| Lockout.AttemptsAreJudged | crates/vault-admin/src/lib.rs:345-434 | **Main result.** what the next attempt of such a run does to the failures in a row, from the history alone: nothing without a PIN or under lock; then a wrong PIN counts in each of the three calls, and the right PIN clears the count, but for a new PIN |
| Lockout.FailuresAreSpaced | crates/vault-admin/src/lib.rs:226-434 | **Main result.** over any mix of attempts and for every n from 5 on the n-th counted failure since the last reset comes at least 10 * (2^(n-4) - 1) seconds after the fourth |
| Lockout.AtMost63Failures | crates/vault-admin/src/lib.rs:426-434 | **Main result.** in every run at most 63 failures are counted in a row, and the 63rd halts the service, because the end of its lock does not fit an instant |
| Pairing.PairingsNeverExceedCodes | crates/vault-sync/src/server.rs:89-128 | **Main result.** successful pairings never exceed consumed codes, nor those the codes issued, over any interleaving of connections and any clock readings |
| Pairing.ConsumedCodeWasFresh | crates/vault-sync/src/server.rs:100-107 | **Main result.** each accepted code was issued less than ten minutes before, not consumed in between, and the server was not restarted in between |
| Pairing.RequestsAreJudged | crates/vault-sync/src/server.rs:316-333 | **Main result.** what a pair request is answered, from the history alone, while the clock of the requests does not go back: without a device it is bad and uses no code; otherwise its code is accepted if and only if it was issued less than ten minutes before, and not used or forgotten since |
| Pairing.AuthorizedIsLatest | crates/vault-sync/src/server.rs:56-121 | **Main result.** over runs with restarts: a device is authorised with a fingerprint if and only if its latest successful pairing registered it and no restart came since |
| CustodyProcess.Process.Execute | crates/vault-admin/src/lib.rs:576-677 | one process with its services, database and files: executing any step leaves exactly the state that the machine prescribes, what is flushed included |
| CustodyStaging.StagedFileIsTakenIff | bins/vaultd/src/main.rs:330-423 | the same for every staging file and each of the sixteen kinds of step, under the invariant |
| CustodyExamples.EqualUploadsShareOneFile | crates/vault-sync/src/server.rs:289-308 | for any content, good envelope and two devices: both uploads and the rejection of the first are a run, the second submission is pending, and its admission fails for want of the file |
| CustodyExamples.UntrueUploadTakesTheFile | bins/vaultd/src/main.rs:345-355 | for any content: a good upload and one under an untrue envelope are a run that decides nothing, and the admission of the first fails for want of the file |
| CustodyExamples.TwinsAreReachable | crates/vault-store/src/lib.rs:324-333 | importing and trashing a content, importing it under another name and restoring the first is a run that ends with two active documents of one digest |
| CustodyExamples.RefusedRenameUnseals | crates/vault-roles/src/lib.rs:263-276 | for any import and any other valid name: importing and a rename that the system refuses are a run that ends with the document active at its place and its file unsealed |
| CustodyExamples.ReclassificationIsLost | crates/vault-admin/src/lib.rs:475-510 | importing a document, uploading another content of that name and author under another class, admitting it and restarting is a run whose last step loses exactly the entry of the reclassification |
| CustodyExamples.DocumentBlocksItsVersions | crates/vault-roles/src/lib.rs:432-464 | importing a document, renaming it to ".versiones" and editing it as Coordinación is a run whose last step is refused with an I/O error |
| CustodyGrace.TombstonesStay | crates/vault-admin/src/lib.rs:637-677 | no step of any kind removes a tombstone |
| CustodyRuns.RunGoesOnward | crates/vault-store/src/lib.rs:362-413 | between any two states of a run versions are only appended and submissions only advance |
| CustodyTrace.OnlyAdmissionsSkipTheFlush | crates/vault-roles/src/lib.rs:287-294 | under the invariant a step that changes the database flushes it, unless it is an admission or a restart |
| CustodyRuns.FirstImportIsSealed | crates/vault-gui/src/lib.rs:1506-1603 | runs get going: in the empty vault an import by a role that may import is possible and seals one document with the digest of its content |
| CustodyRoles.MoveDocumentKeepsInv | crates/vault-roles/src/lib.rs:263-294 | the shared end of rename and move keeps the invariant; the parent folder is never blocked; the answer is an I/O error exactly when the path is free and the system refuses the rename; then the file of this one record loses its seal, otherwise what was claimed keeps its seal and a new claim is sealed |
| CustodyRoles.RenameKeepsInv | crates/vault-roles/src/lib.rs:235-295 | a rename, with any name, session and verdict of the system, keeps the invariant, the trash, the versions and the submissions; the document loses its seal, with an I/O error, if and only if the guards hold (role, valid name, active document, other and free place) and the system refuses; it moves, sealed, if and only if they hold and the system does not |
| CustodyRoles.MoveChangesThePath | crates/vault-roles/src/lib.rs:319-329 | under the invariant a move to another category always changes the path, so the branch that would change the category without an entry is never taken |
| CustodyRoles.MoveToCategoryKeepsInv | crates/vault-roles/src/lib.rs:299-356 | as for a rename, with the guards of a move |
| CustodyRoles.SoftDeleteKeepsInv | crates/vault-roles/src/lib.rs:360-386 | a soft delete keeps the invariant, the same claims on the same files, versions and submissions, and succeeds exactly for Administración with the document active |
| CustodyRoles.RestoreKeepsInv | crates/vault-roles/src/lib.rs:389-406 | a restore keeps the invariant, the same claims on the same files, versions and submissions |
| CustodyRoles.RestoreUndoesSoftDelete | crates/vault-store/src/lib.rs:312-333 | restoring after a soft delete gives back the trash, the versions and the files as they were, and the document as it was at the end of the index |
| CustodyRoles.EditMetaKeepsInv | crates/vault-roles/src/lib.rs:415-493 | an edit changes exactly the fields it names; by Coordinación it first adds one version that freezes digest, metadata and content under the next number, otherwise the versions stay; a refused edit changes nothing |
| CustodyRoles.VersionNameIsInjective | crates/vault-roles/src/lib.rs:446-454 | a version file name determines the document and the number |
| CustodyRoles.VersionIsUnclaimed | crates/vault-roles/src/lib.rs:446-454 | no record of the vault claims the place where the next version goes |
| CustodyRoles.ViewKeepsInv | crates/vault-roles/src/lib.rs:504-519 | a view keeps the invariant, the index, every claim and every file |
| CustodyOutcomes.SoftDeleteAnswers | crates/vault-roles/src/lib.rs:360-370 | the answer by role and index: only Administración trashes, only an active document; any refusal changes nothing |
| CustodyOutcomes.SoftDeleteLeaves | crates/vault-roles/src/lib.rs:360-386 | the document leaves its place in the index for the end of the trash, with who, when and the trimmed reason; the files stay; one entry is written, and its fields are given |
| CustodyOutcomes.RestoreAnswers | crates/vault-roles/src/lib.rs:389-397 | only Administración restores, only what is in the trash; any refusal changes nothing |
| CustodyOutcomes.RestoreLeaves | crates/vault-roles/src/lib.rs:389-406 | the first trash entry of the id joins the end of the index; the files stay; the fields of the one entry are given |
| CustodyOutcomes.RenameAnswers | crates/vault-roles/src/lib.rs:235-276 | each answer of a rename by role, name, index, place and verdict of the system |
| CustodyOutcomes.RenameLeaves | crates/vault-roles/src/lib.rs:235-295 | an accepted rename to another, free name: the record gets the trimmed name, its file stands sealed under it in the same folder, and the fields of the one entry are given |
| CustodyOutcomes.MoveAnswers | crates/vault-roles/src/lib.rs:299-337 | each answer of a move by role, index, category, place and verdict of the system |
| CustodyOutcomes.MoveLeaves | crates/vault-roles/src/lib.rs:299-356 | an accepted move: the record gets the category, its file stands sealed in that folder, and the fields of the one entry are given |
| CustodyOutcomes.EditAnswers | crates/vault-roles/src/lib.rs:415-464 | only Administración and Coordinación edit, only an active document; an edit by Coordinación fails exactly when a document named ".versiones" stands where the folder of the versions would be; any refusal changes nothing |
| CustodyOutcomes.EditLeaves | crates/vault-roles/src/lib.rs:466-493 | an edit by Administración changes the fields it names of this record, and nothing else but the log, by the one entry given |
| CustodyOutcomes.VersionedEditLeaves | crates/vault-roles/src/lib.rs:436-493 | an edit by Coordinación also appends a version with the number after the last, the old digest and metadata, and a sealed copy of the content under that number |
| CustodyOutcomes.ViewAnswers | crates/vault-roles/src/lib.rs:504-519 | everyone may view an active document; the answer is the record, and the fields of the one entry are given |
| CustodyOutcomes.ReadOnlyRefuses | crates/vault-roles/src/lib.rs:140-147 | with the database open for reading every operation of the roles and the import change nothing: who may do it is told that it is read-only, anyone else that it is denied |
| CustodyDecisions.SealOutcomes | crates/vault-admin/src/lib.rs:91-175 | sealing by cases: duplicate of the first active document with the digest, collision, or one record with all its fields, one sealed file and one entry |
| CustodyDecisions.ImportOutcomes | crates/vault-gui/src/lib.rs:1506-1603 | an import by cases: denied but to Administración and Coordinación, empty, duplicate, collision, or sealed under the name of the user and the category of the rules |
| CustodyDecisions.UndecidableOutcomes | crates/vault-admin/src/lib.rs:444-474 | an admission that cannot be decided, by cases: no pending submission, no staging file, other digests (logged); nothing else changes |
| CustodyDecisions.RejectionOutcomes | crates/vault-admin/src/lib.rs:547-570 | a rejection needs a pending submission; it marks it, removes its file and writes the entry given |
| CustodyDecisions.UploadRefusals | bins/vaultd/src/main.rs:330-367 | each refusal of an upload by its cause, and whether the staging file stays |
| CustodyDecisions.UploadLeaves | bins/vaultd/src/main.rs:366-423 | an accepted upload: every field of the submission, its file, and the entry |
| CustodyDecisions.DestructionAnswers | crates/vault-admin/src/lib.rs:576-600 | a destruction is refused for its PINs or for want of an active document, without change; else it succeeds |
| CustodyDecisions.ScheduleLeaves | crates/vault-admin/src/lib.rs:591-605 | with a grace period the document is due at the time of the call plus the period, and nothing else changes but the log |
| CustodyDecisions.DestructionLeaves | crates/vault-admin/src/lib.rs:637-677 | without one the record and its file go, a sealed tombstone with the given text stays, and the entry is given |
| CustodyDecisions.DueAreLogged | crates/vault-admin/src/lib.rs:616-635 | a walk over due destructions logs each in order, with the reason that the grace period expired |
| CustodyDecisions.PurgeOutcomes | bins/vault-it/src/main.rs:504-520 | a purge succeeds exactly for what is in the trash, and otherwise changes nothing |
| CustodyDecisions.PurgeLeaves | bins/vault-it/src/main.rs:504-520 | the first trash entry of the id goes with its file, and nothing else changes |
| CustodyAdmin.SealDocumentKeepsInv | crates/vault-admin/src/lib.rs:91-175 | sealing with a fresh id either adds exactly one document with one entry of its action, its file sealed, keeping the invariant and all seals, or changes nothing |
| CustodyAdmin.SealedContentIsKept | crates/vault-fs/src/lib.rs:60-97 | after sealing, the place that was free holds exactly the given content under seal, a staged file is gone from staging, and every other file is as it was |
| CustodyDigests.SealKeepsDigestsDistinct | crates/vault-admin/src/lib.rs:115-122 | sealing never makes two active documents of one content |
| CustodyDigests.RestoreDigests | crates/vault-store/src/lib.rs:324-333 | the same for one restore, by its guards: the role, the trash entry, and an active document of its digest |
| CustodyAdmin.AdmitKeepsInv | crates/vault-admin/src/lib.rs:444-544 | an admission seals one document and marks the submission admitted, or closes it as a duplicate, or leaves it pending; it keeps the invariant, and the count of "admit" entries grows by one exactly when a document is sealed |
| CustodyAdmin.AdmitsNewIff | crates/vault-admin/src/lib.rs:444-544 | an admission adds a document if and only if the submission is pending, its staging file has the digests, no active document has them, and the place is free |
| CustodyAdmin.ImportsNewIff | crates/vault-gui/src/lib.rs:1506-1603 | an import adds a document if and only if the role may import, there is content, no active document has its digest, and the place is free |
| CustodyAdmin.ImportKeepsInv | crates/vault-gui/src/lib.rs:1506-1603 | an import keeps the invariant, adds a document exactly when it answers so, and writes no "admit" entry |
| CustodyAdmin.RejectKeepsInv | crates/vault-admin/src/lib.rs:547-570 | a rejection keeps the invariant and decides exactly the one pending submission |
| CustodyAdmin.UploadKeepsInv | bins/vaultd/src/main.rs:330-423 | an upload touches only the staging folder and at most appends one pending submission |
| CustodyAdmin.ExecuteDestructionKeepsInv | crates/vault-admin/src/lib.rs:637-677 | the destruction of an active document always succeeds, removes exactly that document and its file, leaves its sealed tombstone and nothing else, and keeps the invariant |
| CustodyAdmin.DestroyKeepsInv | crates/vault-admin/src/lib.rs:576-613 | a destruction is accepted exactly with both PINs right and the document active; without a grace period exactly that document leaves the index, with one nothing does and it is due then, and no other schedule changes |
| CustodyAdmin.PurgeKeepsInv | bins/vault-it/src/main.rs:504-520 | a purge takes exactly one trash entry, leaves index, log, versions and submissions alone, keeps the invariant, and is counted exactly when it succeeds |
| CustodyIntake.UploadAcceptedIff | bins/vaultd/src/main.rs:330-423 | an upload is accepted if and only if its envelope can be read, is of protocol 1.0, names the digest and the size of the content and a known category, and the staging file can be written; the submission then says what the envelope said and its staging file holds the content |
| Services.RoleService.Rename | crates/vault-roles/src/lib.rs:235-295 | rename, step by step: database, files and answer after the method are those of the specification on which the invariant is proved, and the database is flushed exactly when an entry was written |
| Services.RoleService.MoveToCategory | crates/vault-roles/src/lib.rs:299-356 | move, step by step: database, files and answer after the method are those of the specification on which the invariant is proved, and the database is flushed exactly when an entry was written |
| Services.RoleService.SoftDelete | crates/vault-roles/src/lib.rs:360-386 | soft delete: database, files and answer after the method are those of the specification on which the invariant is proved, and the database is flushed exactly when an entry was written |
| Services.RoleService.Restore | crates/vault-roles/src/lib.rs:389-406 | restore: database, files and answer after the method are those of the specification on which the invariant is proved, and the database is flushed exactly when an entry was written |
| Services.RoleService.EditMeta | crates/vault-roles/src/lib.rs:415-493 | edit, with the copy, the seal and the version before it: database, files and answer after the method are those of the specification on which the invariant is proved, and the database is flushed exactly when an entry was written |
| Services.RoleService.View | crates/vault-roles/src/lib.rs:504-519 | logged view: database, files and answer after the method are those of the specification on which the invariant is proved, and the database is flushed exactly when an entry was written |
| Services.RoleService.CopyAndSeal | crates/vault-roles/src/lib.rs:455-461 | copies a file and seals the copy, or changes nothing |
| Services.Seal | crates/vault-admin/src/lib.rs:91-175 | the one way into the vault: database, files and answer are those of the specification, and nothing is flushed |
| Services.Import | crates/vault-gui/src/lib.rs:1506-1603 | the import of the desktop application: as the specification says, with a flush exactly when it sealed |
| Services.Upload | crates/vault-sync/src/server.rs:279-308 | the channel writes the staging file, the daemon checks and queues it: as the specification says, with a flush exactly when it was queued |
| Services.Record | crates/vault-admin/src/lib.rs:365-392 | an entry that moves no document, and the flush after it |
| Services.Purge | bins/vault-it/src/main.rs:504-520 | unseals and removes the file of a purged entry and flushes: as the specification says |
| Services.AdminService.Admit | crates/vault-admin/src/lib.rs:444-544 | admission, with reclassification, sealing and the end of the submission: database, files, pending destructions and answer are those of the specification, and the database is flushed where the code flushes it; without the right to write the flush fails and so does the call |
| Services.AdminService.Reject | crates/vault-admin/src/lib.rs:547-570 | rejection: database, files, pending destructions and answer are those of the specification, and the database is flushed where the code flushes it; without the right to write the flush fails and so does the call |
| Services.AdminService.ExecuteDestruction | crates/vault-admin/src/lib.rs:637-677 | destruction of one document: database, files, pending destructions and answer are those of the specification, and the database is flushed where the code flushes it; without the right to write the flush fails and so does the call |
| Services.AdminService.Destroy | crates/vault-admin/src/lib.rs:576-613 | destruction, at once or scheduled: database, files, pending destructions and answer are those of the specification, and the database is flushed where the code flushes it; without the right to write the flush fails and so does the call |
| Services.AdminService.ProcessDue | crates/vault-admin/src/lib.rs:616-635 | collects the due destructions in one loop and executes them in another, stopping at the first error: database, files, pending destructions and answer are those of the specification, and the database is flushed where the code flushes it; without the right to write the flush fails and so does the call |
| Store.VaultDb.UpdateIntegrity | crates/vault-store/src/lib.rs:254-260 | every document with the id gets the status, and nothing else changes |
| Store.VaultDb.UpdateDocument | crates/vault-store/src/lib.rs:263-270 | the first document with the id is replaced |
| Store.VaultDb.RemoveDocument | crates/vault-store/src/lib.rs:367-374 | the first document with the id goes |
| Store.VaultDb.TrashDocument | crates/vault-store/src/lib.rs:313-321 | the document leaves the index and joins the trash |
| Store.VaultDb.RestoreTrashed | crates/vault-store/src/lib.rs:324-333 | the first trash entry with the id goes back to the index, or nothing happens |
| Store.VaultDb.PurgeTrashed | crates/vault-store/src/lib.rs:336-343 | the first trash entry with the id goes, or nothing happens |
| Store.VaultDb.UpdateSubmissionState | crates/vault-store/src/lib.rs:402-413 | the first submission with the id gets the state, or the call fails and nothing changes |
| Store.VaultDb.AppendAudit | crates/vault-store/src/lib.rs:472-497 | the new entry carries the next number and the hash of the last; a verified log stays verified |
| Store.VaultDb.Flush | crates/vault-store/src/lib.rs:219-234 | the file then holds the database as it is; without the right to write the call fails and the file stays as it was |
| Store.VersionsAreGapFree | crates/vault-store/src/lib.rs:351-360 | if each version was numbered when added, the versions of a document in order are 1 to n, all in the store, and the next number is n + 1 |
| Store.NumberedExtend | crates/vault-roles/src/lib.rs:436-445 | a version added under the next number keeps all versions numbered |
| Documents.DirNameRoundTrip | crates/vault-core/src/lib.rs:27-55 | each category folder name is read back as its category |
| Documents.ProtocolNameRoundTrip | crates/vault-core/src/lib.rs:41-55 | each protocol name is read back as its category |
| Documents.CategoryNames | crates/vault-core/src/lib.rs:41-55 | a text is read as a category exactly if it is its folder name, its protocol name or, for two categories, the folder name without its underscore |
| Paths.RenderRoundTrip | crates/vault-roles/src/lib.rs:254-260 | splitting the text of a path gives its components back, so different paths have different texts |
| Paths.SanitizedIsGood | crates/vault-fs/src/lib.rs:125-142 | a sanitised component is never empty, a dot name or split by a slash |
| Paths.GoodNamesAreLeft | crates/vault-fs/src/lib.rs:125-142 | a good name of such characters is left as it is |
| Paths.OuterSpacesAreDropped | crates/vault-fs/src/lib.rs:125-142 | spaces around a name are dropped |
| Paths.SanitizedOnce | crates/vault-fs/src/lib.rs:125-142 | sanitising twice is sanitising once |
| Paths.PlaceNamesTheDocument | crates/vault-fs/src/lib.rs:30-37 | a document whose author and file name are good names of such characters lies under just these names |
| Paths.Disk.MoveSealed | crates/vault-roles/src/lib.rs:267-276 | unseal, rename, seal: the file moves under seal, or a refusal leaves it unsealed where it was |
| Sweep.SweepVault | crates/vault-audit/src/lib.rs:32-88 | the sweep as it runs, over any index and any files, computes the fold of the specification; a path that names a folder ends it with an error |
| Sweep.SweepNext | crates/vault-audit/src/lib.rs:36-75 | the body of the loop judges one document as specified |
| Sweep.VerdictsAre | crates/vault-audit/src/lib.rs:40-56 | the verdicts by what lies at the path: missing if nothing does, unreadable if a folder does, sound if the file there has both digests |
| Sweep.SweepStops | crates/vault-audit/src/lib.rs:32-88 | a sweep that fails stopped at the first path that names a folder: the documents before it are assessed and reported, the others are as they were, and no closing entry is written |
| Sweep.SecondSweep | crates/vault-audit/src/lib.rs:32-88 | a second sweep of unchanged files reports the same with nothing repaired, and changes no record |
| Sweep.UntouchedVaultSweepsClean | crates/vault-audit/src/lib.rs:32-88 | under the invariant a sweep reports all documents sound and only appends its one entry |
| AuditChain.VerifyAuditChain | crates/vault-store/src/lib.rs:533-545 | accepts exactly the logs in which every link is the hash before it; otherwise names the first entry with a wrong link |
| AuditChain.VerifiedAppend | crates/vault-store/src/lib.rs:472-497 | appending an entry linked to the head keeps the chain verified |
| AuditChain.SameHeadSameChain | crates/vault-store/src/lib.rs:506-521 | two verified chains with one head have the same length and the same canonical text entry by entry, or two of their texts collide, or one is a preimage of the genesis value |
| AuditChain.LastEntryNeedsTheHead | crates/vault-store/src/lib.rs:515-545 | a changed last entry passes verification if and only if it keeps its link; its head then differs, or the digest is broken |
| AuditChain.AmbiguousIff | crates/vault-store/src/lib.rs:49-62 | for every entry: a different one with a link of the same length has the same canonical text if and only if a field before the detail holds the separator, or another detail prints the same or prints what follows a separator in this one |
| AuditChain.CanonicalDeterminesFields | crates/vault-store/src/lib.rs:49-62 | beside an entry without the separator before its detail, one of the same canonical text is without it too if and only if all its fields and the text of its detail are the same |
| CustodyExamples.UploadEntryIsAmbiguousIff | bins/vaultd/src/main.rs:412-418 | the "upload_received" entry of an accepted upload is ambiguous in this sense if and only if the clock text, the device name or the digest holds the separator |
| CustodyExamples.BarredDeviceIsAmbiguous | bins/vaultd/src/main.rs:412-418 | the entry of an upload from a device whose name holds the separator after "dev" has the text of another entry, which is given |
| SingleWriter.OpeningIsDecided | crates/vault-store/src/lib.rs:170-209 | after any history: a newcomer gets to write if and only if no one writes; otherwise it opens for reading, or not at all when it asked to write |
| SingleWriter.OpeningReadsTheDisk | crates/vault-store/src/lib.rs:187-209 | whoever opens sees the last completed flush |
| SingleWriter.FlushSaves | crates/vault-store/src/lib.rs:219-234 | a flush that is not interrupted puts the copy of the writer on the disk; that of a reader changes nothing |
| SingleWriter.FailedFlushKeeps | crates/vault-store/src/lib.rs:219-234 | a flush that fails at any stage leaves the disk and the changes in memory |
| SingleWriter.LeavingFrees | crates/vault-store/src/lib.rs:170-209 | a process that leaves in any state leaves the disk, and no one writes after the writer left |
| SingleWriter.DiskLogOnlyGrows | crates/vault-store/src/lib.rs:219-234 | the log on the disk always verifies and extends the log on the disk at any earlier time |
| SingleWriter.RunKeepsInv | crates/vault-store/src/lib.rs:170-234 | the lock, every handle and the lineage of flushes stay consistent over every run |
| Calendar.CivilFromDaysIsRight | crates/vault-core/src/lib.rs:395-404 | every day number maps to a valid date that days_from_civil maps back |
| Calendar.NextDateIsNextDay | crates/vault-crypto/src/tsa.rs:277-285 | day numbers count as the calendar does under the leap rule (Appendix C of RFC 3339): the epoch is day 0 and the next date is the next day |
| Calendar.DaysAreMonotone | crates/vault-crypto/src/tsa.rs:277-285 | day numbers follow the order of dates |
| TimeText.GeneralizedTimeRoundTrip | crates/vault-crypto/src/tsa.rs:229-274 | the time printed when stamping is parsed as the same second, for years 0000 to 9999 |
| TimeText.ParseDerTimeAccepts | crates/vault-crypto/src/tsa.rs:229-274 | a time is accepted if and only if it has at least 14 digits (12 for UTCTime), whatever stands between them |
| TimeText.UtcTimeReadable | crates/vault-crypto/src/tsa.rs:229-238 | a two-digit year is read as the year from 1950 to 2049 that ends so |
| TimeText.Rfc3339Shape | crates/vault-core/src/lib.rs:386-389 | for years 0000 to 9999 the text has its digits and separators in the fixed columns, with the fields of the civil time |
| TimeText.Rfc3339Order | crates/vault-core/src/lib.rs:386-389 | for years 0000 to 9999 the texts sort as the seconds do (section 5.1 of RFC 3339) |
| Der.DecodeLength | crates/vault-crypto/src/tsa.rs:97-112 | the loop over the length octets computes their big-endian value, or refuses |
| Der.LengthRoundTrip | crates/vault-crypto/src/derutil.rs:37-51 | a written length is read back whole if and only if it is below 2^32 |
| Der.LongLengths | crates/vault-crypto/src/tsa.rs:97-112 | of lengths that others wrote, one to four octets are read, with leading zeros or not; indefinite, longer and cut ones are refused |
| Der.LengthIsMinimal | crates/vault-crypto/src/derutil.rs:37-51 | length octets are minimal (section 10.1 of X.690) |
| Der.DerConstructed | crates/vault-crypto/src/derutil.rs:75-92 | SEQUENCE and SET hold the concatenation of their items |
| Der.IntegerIsUnsigned | crates/vault-crypto/src/derutil.rs:133-149 | the INTEGER written for a 64-bit number, read as two's complement (section 8.3 of X.690), is its unsigned value: right if and only if the number is not negative |
| Der.PanicsOneOctetShort | crates/vault-crypto/src/derutil.rs:100-109 | parse_octet_string panics if and only if the data is one octet shorter than its header says |
| Der.OctetStringRoundTrip | crates/vault-crypto/src/derutil.rs:60-109 | a written octet string is parsed back, whatever follows it |
| Der.Cursor.TakeTlv | crates/vault-crypto/src/tsa.rs:127-144 | one element is read and the position moves behind it, or nothing moves |
| Der.Cursor.Expect | crates/vault-crypto/src/tsa.rs:147-169 | one element of the expected tag is read, or nothing moves |
| Der.TakeAtAdvances | crates/vault-crypto/src/tsa.rs:127-144 | a successful read moves forward, stays inside the data, and returns the octets just before the new position |
| Timestamp.ParseToken | crates/vault-crypto/src/tsa.rs:58-94 | the token parser computes the specified nested reading |
| Timestamp.ParseTstInfo | crates/vault-crypto/src/tsa.rs:174-227 | the TSTInfo parser computes the specified reading |
| TokenParts.TokenNamesItsKind | crates/vault-crypto/src/tsa.rs:357-370 | the token says that it is signed data, that its content is a TSTInfo, and the policy of the authority |
| TokenParts.SerialAndCertificate | crates/vault-crypto/src/tsa.rs:345-436 | the token carries the certificate; the serial in the TSTInfo and the one with the signer are one number, the unsigned 64-bit pattern |
| BlockFile.EncryptBlob | crates/vault-crypto/src/dbcrypto.rs:75-101 | the loop writes the header and one record per block |
| BlockFile.DecryptBlob | crates/vault-crypto/src/dbcrypto.rs:104-130 | the loop always advances, stays in bounds, and computes the decryption record by record |
| BlockFile.OnlyPrefixesDecrypt | crates/vault-crypto/src/dbcrypto.rs:104-130 | any sequence of records of one blob decrypts if and only if it is a prefix of that blob in order, and then to that prefix of the plaintext |
| BlockFile.SplicedBlobsDecrypt | crates/vault-crypto/src/dbcrypto.rs:104-130 | records chosen from any number of encrypted files decrypt together if and only if the t-th is the t-th of its file: the associated data binds the index and not the file |
| BlockFile.CutFileIsRefused | crates/vault-crypto/src/dbcrypto.rs:104-130 | an encrypted file cut anywhere but between records is refused |
| BlockFile.ForeignFileIsRefused | crates/vault-crypto/src/dbcrypto.rs:104-110 | a file with another header is refused |
| BlockFile.BlocksAreFull | crates/vault-crypto/src/dbcrypto.rs:75-101 | all blocks but the last have 4096 octets |
| BlockFile.NoncesAreUsedOnce | crates/vault-crypto/src/dbcrypto.rs:85-98 | each record begins with the nonce drawn for it |
| BlockFile.ReadRecordBack | crates/vault-crypto/src/dbcrypto.rs:111-128 | a record opens at its own index and is refused at any other |
| BlockFile.BlockAadIsInjective | crates/vault-crypto/src/dbcrypto.rs:164-168 | different block indexes give different associated data |
| Http.ReadHttpRequest | crates/vault-sync/src/server.rs:390-457 | for any bytes split into reads in any way, the result is the one the bytes determine; only a head beyond 64 KiB leaves room for the splitting to matter |
| Http.UploadArrives | crates/vault-sync/src/client.rs:124-133 | however an upload is split into reads, the server reads POST /v1/upload with exactly its body |
| Http.UploadPartsRoundTrip | crates/vault-sync/src/server.rs:277-288 | the server splits an upload into exactly the envelope and the file, for every envelope without a newline |
| HttpResponse.ReadResponse | crates/vault-sync/src/client.rs:182-221 | for any bytes in any split the result is the one the bytes determine; only a head that may reach 64 KiB within one read leaves room for the splitting to matter |
| HttpCuts.CutRequestIsRefused | crates/vault-sync/src/server.rs:390-457 | a printed request cut anywhere, however split, is never taken for a request |
| HttpCuts.CutResponseIsRefused | crates/vault-sync/src/client.rs:182-221 | a printed response cut anywhere, however split, is never taken for a response |
| HttpCuts.ChunkedIsRefused | crates/vault-sync/src/server.rs:428-438 | a head that asks for a chunked body, in any case, is refused whatever follows |
| HttpCuts.TwoLengths | crates/vault-sync/src/server.rs:422-442 | of two declared lengths the server goes by the last, and takes none for one that is no number; the client goes by the first |
| HttpCuts.PathDefaultsToRoot | crates/vault-sync/src/server.rs:414-427 | a request line of one word asks for the root |
| HttpCuts.UploadHasParts | crates/vault-sync/src/server.rs:277-288 | an upload has an envelope and a file exactly when its body has a line feed |
| Utf8.DecodesExactly | crates/vault-crypto/src/tsa.rs:174-227 | the strict reader accepts exactly the encodings of texts (section 3 of RFC 3629): no overlong form, surrogate or stray octet |
| Text.WhitespaceCharacters | crates/vault-fs/src/lib.rs:125-142 | white space is the 25 characters with that Unicode property |
| Query.SplitAndLoop | crates/vault-index/src/lib.rs:557-601 | the two loops compute the parts as specified |
| Query.SplitConjunction | crates/vault-index/src/lib.rs:557-601 | splitting two queries joined by a connective (whatever lower-cases to "and" or "y") gives the parts of the first followed by those of the second, when the quotes of the first are paired |
| Query.Parse | crates/vault-index/src/lib.rs:483-526 | the loop over the parts yields their terms in order |
| Query.DepartmentQuery | crates/vault-index/src/lib.rs:483-545 | the same for the department |
| Query.FileNameQuery | crates/vault-index/src/lib.rs:483-545 | the same for the file name, in three spellings |
| Query.ExtensionQuery | crates/vault-index/src/lib.rs:483-545 | the extension is compared whole, without regard to ASCII case |
| Query.YearQuery | crates/vault-index/src/lib.rs:483-545 | a year selects the documents of that year; what denotes no 16-bit number selects every document |
| Query.CategoryQuery | crates/vault-index/src/lib.rs:483-545 | a category is selected by its folder name and by its protocol name; an unknown name selects every document |
| Query.IntegrityQuery | crates/vault-index/src/lib.rs:483-545 | each word for a status selects the documents of that status; any other selects every document |
| Query.FreeQuery | crates/vault-index/src/lib.rs:483-545 | a single word without a colon, or a quoted text without one, is such a text query |
| Query.UnknownKey | crates/vault-index/src/lib.rs:483-526 | a key that is not known selects every document |
| Query.FoundInOrder | crates/vault-index/src/lib.rs:549-555 | the result of a search is exactly the matching documents, each as often as in the index and in its order |
| Query.SearchNarrows | crates/vault-index/src/lib.rs:549-555 | a search for both halves is the search of one within the result of the other |
| Lockout.PinGuard.CheckLockout | crates/vault-admin/src/lib.rs:414-424 | refuses exactly while the lock lasts, and names the fewest seconds that are surely enough to wait |
| Lockout.PinGuard.RegisterFailure | crates/vault-admin/src/lib.rs:426-434 | counts the failure; from the fourth on locks for the exponential time, or panics exactly when the end of the lock does not fit an instant |
| Lockout.PinGuard.Verify | crates/vault-admin/src/lib.rs:681-695 | the PIN part of login and destroy: verdict, panic included, and new state for every attempt |
| Lockout.PinGuard.SetAdminPin | crates/vault-admin/src/lib.rs:345-368 | the PIN part of set_admin_pin, panic included; its success does not reset the count |
| Lockout.LoginAfterLock | crates/vault-admin/src/lib.rs:414-434 | the right PIN is refused as locked exactly while the lock is in force, and otherwise accepted, which clears the count |
| Lockout.HaltTakesAges | crates/vault-admin/src/lib.rs:426-434 | a halt comes no earlier than 2^62 - 5 seconds of the clock |
| Lockout.ProductNeverOverflows | crates/vault-admin/src/lib.rs:226-231 | in every run the product of next_lockout fits 64 bits |
| Lockout.OverflowsFrom65 | crates/vault-admin/src/lib.rs:226-231 | the product of next_lockout fits 64 bits if and only if at most 64 failures were counted |
| Pairing.SyncState.NewPairingCode | crates/vault-sync/src/server.rs:89-98 | from now until ten minutes later the code can be consumed; the state is that of the run with this event |
| Pairing.SyncState.ConsumePairingCode | crates/vault-sync/src/server.rs:100-107 | drops the expired codes and this one; succeeds exactly if an unexpired one was listed |
| Pairing.SyncState.RequestPairing | crates/vault-sync/src/server.rs:316-333 | the reply and the state are those of the run with this event; a code is consumed exactly when the request names a device and an unexpired code is listed |
| Pairing.SyncState.FinishPairing | crates/vault-sync/src/server.rs:333-350 | the reply and the state are those of the run with this event; a certificate that was issued is the latest pairing of the waiting device |
| Pairing.SyncState.IsAuthorized | crates/vault-sync/src/server.rs:116-121 | answers yes exactly when the latest successful pairing of the device, if any since the last restart, registered this fingerprint |
| Pairing.SyncState.Restarted | crates/vault-sync/src/server.rs:56-71 | a server that starts again knows no code and no device; its history goes on |
| Pairing.PairedThenRefused | crates/vault-sync/src/server.rs:56-71 | issuing a code, pairing a device and restarting is a run after which the device is refused |

## Left out

- User interface, web panel, command lines and scripts: they only call what is modelled.
- TLS, certificates, Argon2, SHA-256, BLAKE3, XChaCha20, base64 and JSON: library code, taken as parameters or as inverse pairs.
- Directories, permissions, chattr, Landlock, and empty folders: a folder exists in the model when a file lies below it, and a file carries one sealed bit.
- Crashes in the middle of an operation, between its file changes and its flush: the code keeps no journal, so the agreement of files and index is claimed for runs whose restarts come between operations; crashes at any point of opening and flushing are part of `SingleWriter`.
- A flush that fails, but for a process without the right to write; failing stages of a flush are part of `SingleWriter`.
- `process_due_destructions` flushes after each document; `Services` does so too, but a step of the machine shows only the last of these flushes.
- Interleaved uploads: the write of the staging file and its judgement are one step here. In the code the write comes before the lock of the service is taken (crates/vault-sync/src/server.rs:297-308), so two equal uploads can overlap between the two.
- Text extraction and the text index: the search takes the extracted texts as a map.
- Users, devices and settings are not part of the state. Logins, logouts, PINs, pairing codes and paired devices write entries that place nothing, which the runs include as `Recording`; the console's changes of users write none, so a run has no step for them, and its statements on what is traced do not speak of users.
- Failures of an unsealing, a sealing or a wipe inside a rename, an edit, a destruction or a purge.
- The destruction PIN's verdict, the panel's session table, mDNS, sockets and timeouts.
- Secure overwriting: a wiped file is a removed file.
- The detail of an audit entry is a record of its fields, printed by a parameter of the digest, not the formatted Spanish sentence.
- The document keeps the time of its token but not the token, and neither id number nor registration date, which nothing reads.
- The pairing request is modelled from its JSON fields on; the ping and manifest requests are not modelled.
- A head beyond 64 KiB: whether it is refused can depend on the splitting, and `Http.Answers` and `HttpResponse.Replies` allow both.
- Bytes that arrive in the same read after a request's body are dropped by the server; keep-alive pipelining is not modelled.
- An `Instant` holds signed 64-bit seconds, as on Unix; where it holds less, the panic of the lockout comes earlier.
- Version numbers are unbounded here and 32 bits wide in the code.
- Sweep.SweepFinds: says nothing of an index in which two documents share an id, because runs never reach one; `Sweep.SweepVault` covers it.
- Query matching uses lower-casing as a parameter; the ASCII-insensitive comparison of extensions is written out.
