# Verification of passalong's core

A Dafny model of the parts of passalong that are easy to get wrong, with
proofs of what they are for: downloads that never replace a file, changes of a
workspace's encryption that never lock it or lose an item, a list cache that
agrees with the store, retention, resumed downloads, tree removal over SFTP,
and the codecs these rest on.

`dafny verify dfyconfig.toml` checks everything.

## How the model is built

Code that changes things step by step is modelled as methods and classes; each
method is tied by its contract to a function, and the lemmas are about that
function. What comes from outside (clocks, randomness, the network, other
programs) is a parameter, or an arbitrary choice the proofs make no use of.

- **Downloads** (`DownloadNames`, `DownloadRuns`, `DownloadSafety`,
  `DownloadProgress`, `Downloads`). A directory maps names to inodes and
  inodes to content. Any number of runs and other programs take turns in it,
  one filesystem call at a time; every call may fail. `Downloads` carries out
  one run's loops. What others do before each of its calls, which of its calls
  fail, and its random numbers are a script the proofs hold for all of; it is
  shown to make only steps of the state machine the safety theorems are about,
  and to fail only where the script makes it. The digest is an arbitrary
  function. Other programs may add any file and delete any file except the
  part of a download in progress.
- **Encryption administration** (`EncryptionServer`, `EncryptionClient`,
  `EncryptionProtocol`, `EncryptionSafety`, `EncryptionConnection`,
  `EncryptionAdmin`, `EncryptionRecovery`, `EncryptionOutcomes`). The server
  is one state and refuses requests by the guards its API documents: a write
  names the key it expects, a rewrite session shuts out other writers, only
  its holder stages, commits, and aborts, a lease must end before another
  device takes over, and an aborted key never begins again. A device acts on
  any state the server was ever in; a request may arrive late, repeatedly, or
  never, and its answer may be lost. "Accepted" includes the arrival of a
  delayed copy. `EncryptionAdmin` carries out one device's operations over a
  connection whose script says what others do before and after each request,
  whether it arrives, and whether its answer comes back; the proofs hold for
  all scripts. Wrapping is ideal: a header opens with its words only, an id
  belongs to one key, and no key is made twice.
- **List cache** (`Listings`, `ListCaches`, `RefreshLoops`). The answers to a
  refresh's requests are one function of the id, so other devices may add and
  delete between any two requests.
- **Retention** (`Retention`, `ItemIds`). Ids are real texts in `ItemIds`;
  elsewhere an id is its rank, which `ItemIds` shows to be the same order and
  to name every id once.
- **Resumed downloads** (`HttpDownloads`). The network answers any attempt in
  any way, except that an answer from an offset is content from that offset.
- **Tree removal** (`RemoteTrees`). A class of files and directories whose
  connection carries any number of calls and then fails, with or without that
  call taking effect, and which counts the calls it refuses.
- **Codecs** (`WindowsArguments`, `ServiceUnits`, `Base64`, `TlsPins`, `Der`).
  The readers follow Microsoft's "Parsing C command-line arguments"; XML 1.0,
  sections 2.2, 2.11, and 4.6; RFC 4648, section 4; X.680, section 8; X.690,
  section 8.1; and RFC 5280, section 4.1.

## What turned out to need a condition

Each is stated as an exact condition.

- Escaped XML content comes back if and only if it holds no character XML
  forbids and no carriage return, which an XML processor rewrites
  (`ServiceUnits.ContentRoundTrip`).
- The Run key's command comes back if and only if the executable's path holds
  no double quote: it is put between quotes unescaped
  (`ServiceUnits.RunKeyRoundTrip`).
- Encoding undoes base64 decoding if and only if the dropped bits are zero,
  since the decoder takes text that is not canonical (`Base64.EncodeDecode`,
  `Base64.NonCanonicalAccepted`).
- "Nothing is left in the directory" after a failed download holds if and only
  if the part file's removal, whose error is ignored, succeeds
  (`DownloadSafety.FinishedRun`).
- Replaying a command's own changes into the cache follows the store if and
  only if its last call, the only one that can fail, did not change the list
  with its answer lost (`ListCaches.CommandFollowsExactly`,
  `ListCaches.LostAnswerLeavesTheCacheBehind`).
- A stopped rewrite is finished with the new words alone only if it is a
  migration; a rotation also takes the old key or the old words
  (`EncryptionSafety.ResumeExactly`, `EncryptionRecovery.CanBeFinished`).
- A refresh agrees with a full read if and only if the cached items still
  listed equal the store's (`ListCaches.RefreshAgreesWithRead`).

Where the code and its comments differ, the model follows the code: with three
attempts only the waits of one and two seconds of the documented "one, two,
then four" are reached; a rate-limited refusal is repeated whatever its
status, so "a 401 is never repeated" holds of other refusals only; and a
rewrite ended twice by the server is reported as the server's refusal, since
the message written for it stands after a loop that always returns earlier
(`EncryptionAdmin.Rewrite`).

## Model

| member | source | states |
|---|---|---|
| `DownloadNames.CandidatesDistinct` | crates/passalong-core/src/download.rs:174-181 | the name and its numbered forms are pairwise different |
| `DownloadNames.PartIsNoCandidate` | crates/passalong-core/src/download.rs:215-227 | no candidate of a download is a part file of a download of that name |
| `DownloadNames.ExtensionKept` | crates/passalong-core/src/download.rs:171-181 | the first candidate is the name itself; the number goes between stem and extension, and both are kept |
| `DownloadNames.NoExtension` | crates/passalong-core/src/download.rs:171-181 | a leading or a trailing dot begins no extension: the number then stands at the end |
| `DownloadNames.PartForm` | crates/passalong-core/src/download.rs:215-227 | a part is named after its download, eight hex digits of the random number, and the suffix |
| `DownloadRuns.AlwaysInvariant` | crates/passalong-core/src/download.rs:141-266 | over every interleaving: each run's part is its own file, what it holds is what was hashed, only checked content is linked, and a run's file has no other names than its part and its published path |
| `DownloadRuns.NextKeeps` | crates/passalong-core/src/download.rs:141-266 | every single call of a run, successful or failing, and every step of another program keeps that invariant |
| `DownloadSafety.NothingIsReplaced` | crates/passalong-core/src/download.rs:183-193 | a file seen in the directory at any time, unless it is the part of a download in progress, is there ever after with the same content until another program deletes it |
| `DownloadSafety.UntilDeleted` | crates/passalong-core/src/download.rs:183-193 | a file its run is done with is found under a name exactly until another program deletes that name, and never comes back |
| `DownloadSafety.FileStays` | crates/passalong-core/src/download.rs:196-266 | no single call replaces, removes, or writes to such a file |
| `DownloadSafety.PublishedIsWhole` | crates/passalong-core/src/download.rs:183-193 | every returned path was published by one link, under a name then free; the file is there from that link on exactly until another program deletes it, and while it is there it has its item's size and digest |
| `DownloadSafety.PathsDiffer` | crates/passalong-core/src/download.rs:183-193 | two runs return one path only if another program deleted the first file between the two links |
| `DownloadSafety.FinishedRun` | crates/passalong-core/src/download.rs:196-211 | a finished run's file is under its returned path exactly until that is deleted, under its part name exactly when the part could not be removed and until that is deleted, and nowhere else |
| `DownloadSafety.NoFreeNameMeansAllTaken` | crates/passalong-core/src/download.rs:243-266 | a run fails for want of a free name only if each of the 1000 candidates was taken when it was tried |
| `DownloadSafety.TriedInOrder` | crates/passalong-core/src/download.rs:244-264 | a run at its n-th candidate found each earlier one taken when it was tried |
| `DownloadSafety.FirstFreeName` | crates/passalong-core/src/download.rs:183-193 | the path a run returns is the first candidate it did not find taken |
| `DownloadProgress.UndisturbedDownload` | crates/passalong-core/src/download.rs:196-211 | undisturbed, a download of the item's own content leaves exactly one file more, under the first free candidate, with exactly that content, and no part file |
| `DownloadProgress.TriesAll` | crates/passalong-core/src/download.rs:244-247 | a candidate found taken is passed over without touching anything |
| `Downloads.CreatePart` | crates/passalong-core/src/download.rs:215-239 | a success has created a new file under a name that was free; at most 16 names are tried, and it gives up only when a call fails or all 16 were taken |
| `Downloads.StreamTo` | crates/passalong-core/src/download.rs:141-169 | a success has hashed exactly the whole content; each error has its cause: content that broke off, a failed call, or the wrong size or digest |
| `Downloads.LinkToFreeName` | crates/passalong-core/src/download.rs:243-266 | the loop over candidates makes only steps of the state machine and ends with a link, with a write error exactly when a call fails, or with all candidates tried |
| `Downloads.DownloadInto` | crates/passalong-core/src/download.rs:196-211 | whatever others do in between, a success is of the whole content, whole by size and digest, under the first free candidate; a failure is broken-off content, a wrong size or digest, a failed call, or names that were all taken, so whole content whose calls all work is published unless names run out |
| `EncryptionProtocol.AlwaysInvariant` | crates/passalong-https/src/admin.rs:4-14 | over every interleaving of devices, with requests delayed, repeated, or lost: header, key id, items, session, and staged copies fit together in every state the server is ever in |
| `EncryptionProtocol.NextKeeps` | crates/passalong-https/src/admin.rs:257-616 | every step of a device, of the server, and of time keeps that |
| `EncryptionProtocol.SentIsOk` | crates/passalong-https/src/admin.rs:384-615 | whatever a device sends on any earlier state of the workspace brings a header of the key it names, and a new key is in no earlier request |
| `EncryptionProtocol.ServeFollows` | crates/passalong-https/src/store.rs:8-9 | a request never brings an earlier key back, never reopens a rewrite, and changes nothing but the session while one is open |
| `EncryptionSafety.NeverLocked` | crates/passalong-https/src/admin.rs:140-216 | in every reachable state the header, and an open session's new header, opens with its words to the key whose id stands beside it, which every item, and every copy, is under |
| `EncryptionSafety.LastWordsJoin` | crates/passalong-https/src/admin.rs:432-453 | the words of the last accepted change of the header, and no others, give the current key |
| `EncryptionSafety.JoinExactly` | crates/passalong-https/src/admin.rs:432-453 | in any reachable state joining gives the key, or the refusal the state calls for; the header is never of another key than the one beside it |
| `EncryptionSafety.ResumeExactly` | crates/passalong-https/src/admin.rs:550-603 | in any reachable state a rewrite is resumed with its new words and, for a rotation, the old key or the old words, and with nothing less |
| `EncryptionSafety.NewWordsOpenTheSession` | crates/passalong-https/src/admin.rs:550-580 | the words an open rewrite was begun with, and no others, give its new key |
| `EncryptionSafety.OwnSession` | crates/passalong-https/src/admin.rs:140-184 | a session to a device's own new key has the header that device checked, is of its kind, and replaces the key it named |
| `EncryptionSafety.OwnKeySealed` | crates/passalong-https/src/admin.rs:384-430 | a workspace under a device's new key was first sealed with exactly the header that device made |
| `EncryptionSafety.AllOrNothing` | docs/architecture.md:328-341 | each request leaves an open rewrite and the workspace as they are, undoes it, or puts every item under the new key at once |
| `EncryptionSafety.LeaseKeepsOthersOut` | docs/architecture.md:347-350 | while a lease lasts no request of another device changes anything |
| `EncryptionSafety.NeverReopens` | docs/architecture.md:347-354 | a rewrite that ended, committed or aborted, is never open again, whatever delayed requests arrive |
| `EncryptionSafety.KeysMoveOn` | crates/passalong-https/src/store.rs:8-9 | a replaced key never comes back, nor does plaintext |
| `EncryptionSafety.NothingIsLost` | crates/passalong-https/src/admin.rs:4-14 | an item is there, or set aside by a fresh start, unless a device asked to delete it |
| `EncryptionRecovery.CanBeFinished` | crates/passalong-https/src/admin.rs:550-603 | from every reachable state of an open rewrite, a device with the new words, and for a rotation the old key or the old words, can read every item and, by holding the session (once another's lease has ended), copying each item, and committing, puts every item under the new key, which the new words then give |
| `EncryptionRecovery.CanBeUndone` | crates/passalong-https/src/admin.rs:605-615 | or, by holding the session and aborting, undoes it with no words at all, and the workspace is as before |
| `EncryptionConnection.Connection.Look` | crates/passalong-https/src/admin.rs:81-83 | what is seen is the newest state when it is read, and others go on meanwhile |
| `EncryptionConnection.Connection.Call` | crates/passalong-https/src/admin.rs:108-136 | a request is carried out or refused in the state it arrives in; the answer says which, unless the request or the answer is lost |
| `EncryptionAdmin.SetUp` | crates/passalong-https/src/admin.rs:384-409 | sends one request exactly when it saw an empty plaintext workspace, and returns its answer; a success means the words gave the new key |
| `EncryptionAdmin.StartFresh` | crates/passalong-https/src/admin.rs:411-430 | the same for a fresh start on any plaintext workspace |
| `EncryptionAdmin.ChangeWords` | crates/passalong-https/src/admin.rs:455-476 | sends one request exactly when the current words gave the key it saw, and returns its answer; a success means the new words then gave that key |
| `EncryptionAdmin.CopyItems` | crates/passalong-https/src/admin.rs:187-216 | reads and copies every item of a state read since it began, and goes on exactly while every copy is carried out; an item is unreadable only once the rewrite is over |
| `EncryptionAdmin.NeverIncomplete` | crates/passalong-https/src/admin.rs:187-216 | a commit behind a copy of every item of a state of the session finds every copy there |
| `EncryptionAdmin.Drive` | crates/passalong-https/src/admin.rs:187-216 | the commit is sent behind a copy of every item, all carried out, so it is never refused as incomplete; the result is that of its last call; a success is the commit, with every item copied |
| `EncryptionAdmin.Rewrite` | crates/passalong-https/src/admin.rs:137-184 | one beginning, driven to its end when it is accepted; a second exactly when the server ended the first, and under another key; a success means the words gave the new key and the rewrite to it was committed, of the kind and from the key asked for |
| `EncryptionAdmin.Migrate` | crates/passalong-https/src/admin.rs:478-489 | rewrites exactly when it saw plaintext, and otherwise sends nothing; a success committed a migration of a plaintext workspace |
| `EncryptionAdmin.Rotate` | crates/passalong-https/src/admin.rs:491-512 | rewrites exactly when it saw the device's own key, and otherwise sends nothing; a success committed a rotation from that key |
| `EncryptionAdmin.HoldSession` | crates/passalong-https/src/admin.rs:228-241 | renews the device's own session, and takes over another's; a success answers with a session this device holds |
| `EncryptionAdmin.ResumeRewrite` | crates/passalong-https/src/admin.rs:550-603 | without the words or the old key nothing is sent; otherwise it holds the session and drives it to its end; a success commits the session whose header the new words opened |
| `EncryptionAdmin.AbortRewrite` | crates/passalong-https/src/admin.rs:605-615 | holds the session and aborts that one; a success leaves the workspace as it was, and the key ended |
| `EncryptionOutcomes.SetUpAlone` | crates/passalong-https/src/admin.rs:384-409 | alone, set-up encrypts an empty plaintext workspace under a new key with these words, and changes no other |
| `EncryptionOutcomes.StartFreshAlone` | crates/passalong-https/src/admin.rs:411-430 | alone, a fresh start encrypts any plaintext workspace and sets its items aside, and changes no other |
| `EncryptionOutcomes.ChangeWordsAlone` | crates/passalong-https/src/admin.rs:455-476 | alone, in every reachable state the current words change the words and nothing else, and other words change nothing |
| `EncryptionOutcomes.BeginMigrateAlone` | crates/passalong-https/src/admin.rs:140-184 | alone, a migration opens a session of its own from plaintext only |
| `EncryptionOutcomes.BeginRotateAlone` | crates/passalong-https/src/admin.rs:140-184 | alone, a rotation opens a session of its own from the device's key only |
| `EncryptionOutcomes.UploadAlone` | docs/architecture.md:323-326 | alone, an upload adds its one item exactly when no rewrite is open and the device's key is the workspace's |
| `EncryptionOutcomes.DiscardAlone` | docs/architecture.md:323-326 | alone, a deletion removes its one item under the same condition |
| `EncryptionOutcomes.MigrationCompletes` | crates/passalong-https/src/admin.rs:478-489 | in every reachable plaintext workspace a device alone migrates every item to a new key, which the words then give |
| `EncryptionOutcomes.RotationCompletes` | crates/passalong-https/src/admin.rs:491-512 | in every reachable workspace a device alone that has its key rotates every item to a new one, which the new words then give |
| `EncryptionOutcomes.DeviceRefusesExactly` | crates/passalong-https/src/admin.rs:384-512 | what a device itself refuses to begin, and with which error, in terms of the session, the seal, and the items |
| `EncryptionOutcomes.ServerRefusesExactly` | docs/architecture.md:323-354 | each refusal of the server has exactly its cause |
| `ListCaches.ListCache.Refresh` | crates/passalong-core/src/cache.rs:152-178 | asks for new ids only, in the listing's order; on error the cache is unchanged |
| `ListCaches.RefreshedExactly` | crates/passalong-core/src/cache.rs:157-177 | whatever happens between its requests, a refreshed cache is strictly newest first and holds exactly the listed ids except those found gone or damaged |
| `ListCaches.RefreshAgreesWithRead` | crates/passalong-core/src/cache.rs:152-191 | with nothing changing meanwhile a refresh equals a full read exactly when the cached items still listed are the store's |
| `ListCaches.Recording.PerformAll` | crates/passalong-cli/src/list_cache.rs:172-207 | the changes collected are those of the calls that were answered, in order |
| `ListCaches.ReplayOne` | crates/passalong-cli/src/list_cache.rs:172-207 | replaying one call's change follows the store exactly when its answer was not lost after the change |
| `ListCaches.ReplayFollowsTheStore` | crates/passalong-cli/src/list_cache.rs:95-109 | when no answer is lost after a change, applying a command's changes to the listing before it gives the listing after it, deduplicated puts, failed deletes, and delete-then-put of one id included |
| `ListCaches.CommandFollowsExactly` | crates/passalong-cli/src/app.rs:356-360 | a command stops at its first failed call; the replayed cache is then the store's listing exactly unless that call's answer was lost and it changed the listing |
| `ListCaches.LostAnswerLeavesTheCacheBehind` | crates/passalong-cli/src/list_cache.rs:174-178 | an upload stored but not answered is missing from the replayed cache |
| `ListCaches.CacheFile.Apply` | crates/passalong-cli/src/list_cache.rs:95-112 | changes go to a saved cache of this store only, and keep its check time; a cache of another store stays as it is |
| `ListCaches.CacheFile.Refresh` | crates/passalong-cli/src/list_cache.rs:83-92 | brings a saved cache of this store up to date; without one, or when the store fails, the file stays as it is |
| `ListCaches.CacheFile.Read` | crates/passalong-cli/src/list_cache.rs:64-80 | refreshes a saved cache of this store when it may be reused, otherwise reads everything; a store error leaves the file |
| `RefreshLoops.BaseOfIdentity` | crates/passalong-core/src/cache.rs:91-106 | dropping the key of an identity gives back its base, whatever text that is |
| `RefreshLoops.IdentityNamesOneKey` | crates/passalong-core/src/cache.rs:91-98 | an identity names one base and one key |
| `RefreshLoops.Refresher.RefreshOnce` | crates/passalong-core/src/cache.rs:266-295 | the connection is kept exactly when the refresh succeeds; a cache of another key is dropped |
| `RefreshLoops.Refresher.Loop` | crates/passalong-core/src/cache.rs:216-264 | the loop is one check after another |
| `RefreshLoops.StepFile` | crates/passalong-core/src/cache.rs:239-248 | a check writes the file only when it succeeded, and then the cache it holds |
| `RefreshLoops.CheckFailsExactly` | crates/passalong-core/src/cache.rs:266-295 | a check fails exactly when the store does not open or when what it needs fails: for a cache of the connection's key the listing and the new ids' metadata, and otherwise the full list |
| `RefreshLoops.BetweenChecks` | crates/passalong-core/src/cache.rs:266-295 | the next check uses the same connection after one that worked and opens the store again after one that failed; a failed check changes neither the file nor a cache of the connection's key |
| `RefreshLoops.SavedCacheIsRefreshed` | crates/passalong-core/src/cache.rs:205-225 | a saved cache of the same store is refreshed rather than read again |
| `RefreshLoops.SavedUnderTheRightKey` | crates/passalong-core/src/cache.rs:205-215 | over every run, a saved cache is named by the identity of the key under which all its items were read |
| `RefreshLoops.LoopNeverMixesKeys` | crates/passalong-core/src/cache.rs:216-264 | the same from the saved file the loop starts with |
| `RefreshLoops.LoopSavesTheList` | crates/passalong-core/src/cache.rs:205-264 | over every run, a check that the store answers as it then is writes exactly that state's list, newest first, under the connection's key; only damaged items that were read before stay from a cache of that key |
| `Retention.SelectIgnoresOrder` | crates/passalong-core/src/retention.rs:56-83 | the order the items come in does not matter |
| `Retention.SelectedExactly` | crates/passalong-core/src/retention.rs:48-55 | an item is selected exactly when neither rule protects it |
| `Retention.SelectedByRules` | crates/passalong-core/src/retention.rs:64-82 | in numbers: beyond the newest `keep`, and made more than `older_than` before now, whatever the cutoff's limits |
| `Retention.NewestSurvive` | crates/passalong-core/src/retention.rs:48-55 | the newest `keep` items survive |
| `Retention.SelectionIsASuffix` | crates/passalong-core/src/retention.rs:71-82 | with ids' own times recorded, the selection is exactly what follows the survivors in the newest-first list |
| `Retention.DeleteEach` | crates/passalong-cli/src/commands/prune.rs:88-93 | deletes in order, stops at the first failure, and touches nothing else |
| `Retention.Prune` | crates/passalong-cli/src/commands/prune.rs:41-95 | deletes the selection, or its first part up to a failure, when asked to and confirmed, and nothing otherwise |
| `Retention.PruningAgainSelectsNothing` | crates/passalong-cli/src/commands/prune.rs:52-95 | after the selection is deleted, selecting again at the same time gives nothing |
| `ItemIds.ParseExactly` | crates/passalong-core/src/model.rs:215-233 | a text parses exactly when it is some id's own text, and to that id |
| `ItemIds.NewRoundTrip` | crates/passalong-core/src/model.rs:205-245 | ids print and parse back, keep key and second, and are refused outside 32 bits of seconds |
| `ItemIds.TextOrderIsTimeOrder` | crates/passalong-core/src/model.rs:186-194 | text order is the order of seconds, then keys |
| `ItemIds.RankIsOnto` | crates/passalong-core/src/model.rs:205-213 | every number below 2^80 is the rank of an id, so ranks stand for ids |
| `ItemIds.HexOrder` | crates/passalong-core/src/model.rs:205-213 | equally long hex texts are ordered as their numbers |
| `ItemIds.RekeyKeepsTheSecond` | crates/passalong-https/src/store.rs:259-271 | an item's id under another key has its old second |
| `ItemIds.RekeyKeepsOrder` | crates/passalong-https/src/store.rs:259-271 | re-keying keeps a newest-first list so, except within one second |
| `HttpDownloads.Send` | crates/passalong-https/src/client.rs:84-111 | sends up to the attempt that settles the request and no further, three at the most, with at most 120 seconds of waiting; a bad key is never sent again |
| `HttpDownloads.RepeatedExactly` | crates/passalong-https/src/error.rs:175-197 | exactly which failures are repeated, and after how long |
| `HttpDownloads.WaitBound` | crates/passalong-https/src/error.rs:175-197 | a repetition waits at most a minute, and a 401 is repeated only when rate limited |
| `HttpDownloads.ReadOne` | crates/passalong-https/src/store.rs:669-707 | an answer that is of use is handed on chunk by chunk, whole, or up to what the reader accepts exactly when it holds more; it fell short exactly when it broke off or ended before the total |
| `HttpDownloads.Download` | crates/passalong-https/src/store.rs:663-721 | what is delivered is a prefix, read to the end without an error it is the whole; at most 4 requests, 12 attempts, and 480 seconds; each request resumes where the last answer, handed on whole, fell short; it stops early only when the reader has taken all it accepts and there was more, and fails only with the last answer's own failure |
| `RemoteTrees.RemoveTree` | crates/passalong-ssh/src/sftp_fs.rs:104-148 | a success leaves exactly the tree without what was at and below `top`; it takes exactly one call, one for each file, and two for each directory, and fails only when the connection carries fewer; no call is ever refused, so every directory is removed empty; nothing outside is touched |
| `RemoteTrees.Clear` | crates/passalong-ssh/src/sftp_fs.rs:125-141 | one directory's files are removed and its subdirectories returned once each, in one call and one for each file |
| `RemoteTrees.Discover` | crates/passalong-ssh/src/sftp_fs.rs:123-141 | the worklist ends, with parents listed first |
| `RemoteTrees.AllFound` | crates/passalong-ssh/src/sftp_fs.rs:123-141 | then every directory of the tree is listed and every file of it gone |
| `RemoteTrees.ChildrenComeLater` | crates/passalong-ssh/src/sftp_fs.rs:142-147 | a directory's subdirectories stand behind it in the list |
| `RemoteTrees.RemoveDirs` | crates/passalong-ssh/src/sftp_fs.rs:142-147 | from the end of the list each directory is empty when its turn comes |
| `WindowsArguments.WindowsArg` | crates/passalong-cli/src/daemon.rs:361-384 | the loop with its backslash counter writes the quoted form |
| `WindowsArguments.UnchangedExactly` | crates/passalong-cli/src/daemon.rs:358-364 | an argument is left alone exactly when it is not empty and has no space, tab, or double quote |
| `WindowsArguments.CommandLineRoundTrip` | crates/passalong-cli/src/daemon.rs:311-315 | every list of arguments is read back from its command line |
| `WindowsArguments.OneBlankBetween` | crates/passalong-cli/src/daemon.rs:311-315 | arguments are joined by one blank |
| `WindowsArguments.ReadQuoted` | crates/passalong-cli/src/daemon.rs:365-384 | inside quotes the reader gives back every character, whatever backslashes and quotes there are |
| `ServiceUnits.EscapesAreSimultaneous` | crates/passalong-cli/src/service.rs:235-241 | the five successive replacements are one substitution per character |
| `ServiceUnits.ContentRoundTrip` | crates/passalong-cli/src/service.rs:235-241 | an XML processor gives escaped text back exactly when XML can carry it |
| `ServiceUnits.TaskArgumentsRoundTrip` | crates/passalong-cli/src/service.rs:67-72 | a task's program gets its arguments back exactly when XML can carry them |
| `ServiceUnits.ServeArgsAre` | crates/passalong-cli/src/service.rs:25-37 | serve's arguments in each of the four cases |
| `ServiceUnits.ServeArgsReachTheTask` | crates/passalong-cli/src/service.rs:26-37 | in particular serve's own arguments |
| `ServiceUnits.RunKeyRoundTrip` | crates/passalong-cli/src/service.rs:46-54 | the Run key names the program in quotes, and starts it with serve's arguments exactly when its path has no double quote |
| `Base64.Encode` | crates/passalong-core/src/config.rs:474-492 | the chunk loop writes the encoding |
| `Base64.Decode` | crates/passalong-core/src/config.rs:494-516 | the chunk loop reads it, and one bad chunk fails the whole |
| `Base64.AlphabetOfRfc4648` | crates/passalong-core/src/config.rs:471-472 | the alphabet, letter by letter, and the pad |
| `Base64.EncodeBytes` | crates/passalong-core/src/config.rs:474-492 | the four characters of a group, by its bytes |
| `Base64.DecodeEncode` | crates/passalong-core/src/config.rs:474-516 | decoding undoes encoding for every non-empty byte string |
| `Base64.DecodesExactly` | crates/passalong-core/src/config.rs:494-516 | a text decodes exactly when its length is a multiple of four, not zero, and it is digits with at most two pads at its end |
| `Base64.EncodeDecode` | crates/passalong-core/src/config.rs:494-516 | encoding undoes decoding exactly when the dropped bits are zero |
| `Base64.NonCanonicalAccepted` | crates/passalong-core/src/config.rs:494-516 | text that is not canonical is accepted |
| `TlsPins.ReadingsExclude` | crates/passalong-core/src/config.rs:438-443 | no text is a 32-byte pin under both readings |
| `TlsPins.ParseExactly` | crates/passalong-core/src/config.rs:433-451 | a pin is read from exactly its two forms, with any white space around them |
| `TlsPins.PinRoundTrip` | crates/passalong-core/src/config.rs:433-462 | every pin reads back from its printed form and from curl's, also when its base64 starts with a slash |
| `Der.Cursor.Next` | crates/passalong-https/src/tls.rs:280-305 | splits its input exactly, strictly shrinks it, and leaves it on error |
| `Der.Cursor.Sequence` | crates/passalong-https/src/tls.rs:308-313 | the content of a SEQUENCE |
| `Der.ReadExactly` | crates/passalong-https/src/tls.rs:280-305 | an element is read exactly when the bytes begin with one |
| `Der.ReadEncode` | crates/passalong-https/src/tls.rs:280-305 | what DER encodes, of any one-byte tag and any length below 2^32, is read back |
| `Der.SpkiPin` | crates/passalong-https/src/tls.rs:257-272 | hashes what the two cursors find |
| `Der.SpkiOfCertificate` | crates/passalong-https/src/tls.rs:257-272 | of any certificate, encoded by class, form, and number of its fields' tags, with or without a version, that is the SubjectPublicKeyInfo's own encoding |
| `Der.SpkiExactly` | crates/passalong-https/src/tls.rs:257-272 | and for any bytes at all it is the SEQUENCE behind five elements, or behind six when the first is tagged [0], inside the first SEQUENCE of the outer one; without it there is no pin |

## Left out

- `rename_to_free_name` and `free_target`: the documented race of checking a
  name and then renaming; runs where hard links are refused are not modelled.
- `write_verified`: uses one fixed part name, for a single run only.
- `create_absolute_dir_all`, symbolic links under `remove_tree`, and other
  programs in the tree while it is removed.
- A deletion of a download's part file by another program while the download
  runs: the model takes part files to be left alone.
- `run_rewrite`: its body, with the read-back of every copy, is not part of
  this model; a rewrite is copies followed by one commit.
- The server's implementation: its refusals are guards. Uploads in two parts
  are one request, and the partition of set-aside items cannot be emptied.
- Keys and wrapping: cryptography, key derivation settings, header parsing,
  and versions; keys never collide.
- `keep_lease` and `heartbeat_every`: renewals may come at any time.
- The texts and kinds of error messages, `store_error`'s mapping, logging, and
  `last_error`.
- `Refresh` and `Read` of the cache take the store's answers as one function
  of the id; file formats, permissions, `store_identity`, and `usable` are
  not modelled.
- `clean_staging` and other devices deleting while `prune` runs.
- `parse_age`, `sanitise_file_name`, and previews.
- `id_for`'s refusal of a SHA-256 that is not hex: content keys come from an
  arbitrary function of the digest.
- `PidLock`: mutual exclusion over all interleavings does not follow from it.
- `systemd_quote`: `$` and line breaks are not escaped, so no round trip holds.
- Networking, TLS handshakes, SSH, the clipboard, prompts, and tables.
