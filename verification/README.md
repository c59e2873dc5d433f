# What vmdeploy guarantees, in Dafny

vmdeploy builds a golden image, provisions a small cluster of virtual machines
from it, and keeps an encrypted registry of the hosts that a Go service serves.
This project models the protocols and codecs its guarantees rest on and proves
those guarantees for every input, run or reachable state. `dafny verify
dfyconfig.toml` checks all of it.

The modules, by subject:

- **The registry.** `Registry` is the upsert of both languages, the list built
  at deployment and the teardown transition. `Utf8`, `Json`, `Base64` and `Wire`
  are the payload: JSON as each language prints it, sealed, in base64, with one
  reference reader. `Storage` is a file system with volatile and synced contents
  that may crash; `Store` is the service's store as a class over system calls
  that may each fail; `StoreMachine` runs any number of its threads one system
  call at a time, and proves linearizability and crash safety over all runs.
- **The image and the cluster.** `VirtualBox` is the hypervisor behind
  VBoxManage, with commands that may fail after taking effect; `GoldenImage` is
  the build under `try/finally`; `Cluster` is serial provisioning and teardown;
  `Accounts` is the replacement of the bootstrap login; `OpticalSlot` is the
  search for the drive that seeds go into.
- **The build cache.** `CompileGate` is the source hash and the decision to
  recompile.
- **Printers.** `Merge` is configuration precedence; `Toml`, `Dictionary`,
  `TomlReload` and `Overlay` are the hand-written emitter, documents as
  dictionaries, and the local overlay; `Shell` is quoting against a POSIX
  tokenizer; `Seed` renders the cloud-init documents and `CloudConfig` reads
  them as YAML.
- **The download.** `Download` is the resumable pull of the image.

`Basics`, `Strings` and `Lookup` hold what they share.

Conventions. A command whose status is ignored may do its work or not; one that
raises may have done it all the same; a timeout always raises. Reads are
truthful when they answer. AES-256-GCM is a seal and open pair with the laws of
sections 7.1 and 7.2 of NIST SP 800-38D and nothing else; SHA-256 is injective.
Time, randomness, addresses and what a network or a guest answers are
nondeterministic or parameters. Every state the hypervisor or the template guest
passes through is kept in a ghost log, so that what holds "at every step" is
said about every entry of it. Every call or command is kept in a ghost record
with its outcome, so that contracts can say which were made, in what order, and
that an operation fails only where one of them does (`Basics.InOrder`).

## Where the code falls short of its word

The model follows the code. Each item is a lemma with the exact condition or a
concrete run.

- A rollback is said to restore the template exactly
  (`src/vmdeploy/provision.py:75-79`). It does for certain exactly when no
  leftover snapshot of that name holds another disk, or, where its unchecked
  removal was carried out, there is but one leftover
  (`GoldenImage.RollbackIsCertainExactly`, `GoldenImage.ReplacingIsCertainExactly`);
  a leftover whose removal failed may win (`VirtualBox.LeftoverMayWin`), and
  building again after a failed rollback deletes the last good copy
  (`GoldenImage.RebuildGivesUpTheDisk`).
- `disable_bootstrap_account` says that neither a key nor a password can reach the
  account, but checks none of its commands (`Accounts.DisablingShutsOutExactly`).
  An account that existed without a login shell is created "successfully" and
  fails the verification (`Accounts.CreationWorksExactly`); so is a new one with a
  dot in its name, whose rule sudo passes over (`Accounts.DottedNameIsPassedOver`).
  No name is validated before its sudoers file is installed
  (`Accounts.UnvalidatedNameLocksOut`).
- Rerunning provisioning while another guest is half-configured runs two of them
  at once (`Cluster.SerialRunsExactly`). Repeated hostnames pass validation
  and lose an address (`Cluster.RepeatedHostnamesPass`,
  `Cluster.AnAddressPerGuestExactly`).
- White space beside a key code that is not ASCII loads in Go and not in Python
  (`Wire.KeyFilesLoadExactly`); white space around a payload opens in Go and not
  in Python (`Wire.PaddedPayloadsExactly`).
- The hostname and account patterns end in `$`, which lets a final line break
  through (`CloudConfig.FinalBreakSlipsThrough`).
- The overlay emitter escapes nothing (`TomlReload.ReloadsExactly`), and turns
  arrays, floats and dates of an existing overlay into strings
  (`Overlay.OtherKindsBecomeText`, `Overlay.ArrayIsLost`).
- The compile gate needs the binary and its hash to be written together, and the
  sources to hold still meanwhile (`CompileGate.TornInstallIsUnsound`,
  `CompileGate.EditDuringBuildIsUnsound`, `CompileGate.UploadIsRightExactly`);
  `CompileGate.TornInstallHealsExactly` says when the next deployment repairs it.
- The pull script's advice to run it again never helps a file that is too long
  (`Download.TooLongIsNeverRepaired`).

## Model

| member | source | states |
|---|---|---|
| `Registry.UpsertPython` | src/vmdeploy/inventory.py:297-316 | the loop over a copied list returns the list with the first record of that hostname overwritten where it stands, or with the candidate appended if there is none, and every other record where it was |
| `Registry.UpsertGo` | goservice/inventory.go:155-180 | the flag-and-break loop has the same contract, so both languages produce the same list |
| `Registry.UpsertsKeepLastWrite` | goservice/inventory.go:153-180 | after any run of upserts from nothing each hostname is listed once, in first-seen order, with its last-written record |
| `Registry.FirstSeenIsASet` | src/vmdeploy/inventory.py:297-316 | the reference order lists exactly the hostnames that occur, each once |
| `Registry.FirstSeenKeepsOrder` | src/vmdeploy/inventory.py:297-316 | and in the order of their first occurrence |
| `Registry.UpsertAllConcat` | src/vmdeploy/inventory.py:297-316 | a second run of upserts continues the first |
| `Registry.UpsertAllOfDistinct` | src/vmdeploy/inventory_service.py:519-530 | upserting records with distinct hostnames one by one rebuilds the list as given |
| `Registry.BuildRecords` | src/vmdeploy/inventory_service.py:496-530 | the hostnames in first-seen order, and for each the role of the last configured host of that name, its resolved addresses, Deployed and Active if it has one, Unreachable and Inactive if not, since now; with distinct hostnames exactly one record per host in configuration order |
| `Registry.MarkManifestRemoved` | src/vmdeploy/inventory_service.py:612-668 | the two accumulator loops return what the next row says |
| `Registry.TeardownManifest` | src/vmdeploy/inventory_service.py:612-668 | after teardown: the manifest's hosts in first-seen order, then configured hosts it lacked, each once; every record is Removed and Inactive with both timestamps now; role, IPv4 and IPv6 are those of the last record of that name in the manifest, or the configured role and no addresses |
| `Registry.MarkRemovedGo` | goservice/manifest.go:112-130 | the in-place loop sets each record to Removed and Inactive with both timestamps now; hostname, role and both addresses stay, as do order and length |
| `Registry.GoMatchesTeardownExactly` | goservice/manifest.go:112-130 | the Go transition and the Python teardown write the same manifest if and only if the manifest lists every configured host and repeats none |
| `Registry.TeardownIsIdempotent` | src/vmdeploy/inventory_service.py:612-668 | tearing down again, with either tool, changes nothing but timestamps |
| `Base64.RoundTrip` | src/vmdeploy/inventory.py:236 | decoding inverts encoding on every octet string |
| `Base64.RoundTripGo` | goservice/crypto.go:87-107 | Go's decoder, which skips line breaks, reads back what either language encodes |
| `Base64.DecodesOnlyCode` | src/vmdeploy/inventory.py:259-262 | and nothing is decoded but what encoding writes, up to the unused bits before padding |
| `Base64.SameBits` | src/vmdeploy/inventory.py:236 | the four characters of a group carry the 24 bits of its three octets, most significant first |
| `Base64.Alphabet` | goservice/crypto.go:87-90 | by the characters of the standard alphabet |
| `Base64.Examples` | goservice/crypto.go:87-90 | with padding, on the test vectors of section 10 of RFC 4648 |
| `Wire.PaddedPayloadsExactly` | goservice/crypto.go:97-106 | white space around a stored payload makes no difference to Go, which trims it, and makes the payload unreadable for Python, which trims nothing |
| `Utf8.RoundTrip` | src/vmdeploy/inventory.py:228-230 | decoding inverts encoding on every string of Unicode scalar values |
| `Utf8.DecodesExactly` | src/vmdeploy/inventory.py:277-280 | octets are decoded exactly if they are the encoding of a string: surrogates, overlong forms and stray octets are refused |
| `Utf8.Examples` | src/vmdeploy/inventory.py:228-230 | one character of each length, octet by octet, the one from section 7 of RFC 3629 among them |
| `Json.EscapeRoundTrip` | src/vmdeploy/inventory.py:228 | a string escaped the way either language escapes it is read back, surrogate pairs included |
| `Json.EscapesExactly` | src/vmdeploy/inventory.py:228 | a character is printed as it is if and only if it is neither quote nor backslash and is printable ASCII for Python, or neither a control character nor special to HTML for Go |
| `Json.EscapedIsSafe` | goservice/inventory.go:107 | so all that Python prints of a string is ASCII, and all that Go prints of it is safe in HTML |
| `Json.EscapeExamples` | src/vmdeploy/inventory.py:228 | three characters as each language writes them |
| `Json.ParsePrinted` | goservice/inventory.go:107 | what either language's indenting printer writes, the reference reader reads back as the same document |
| `Json.PrintedShape` | goservice/inventory.go:107 | how a list of one object stands on its lines, at two spaces a level |
| `Wire.ToyIsLawful` | goservice/crypto.go:60-74 | the two laws assumed of the cipher are consistent: an instance meets them |
| `Wire.DecodeEntries` | src/vmdeploy/inventory.py:287-294 | the appending loop computes the records or the first bad entry's error |
| `Wire.EntriesStop` | src/vmdeploy/inventory.py:287-294 | a bad entry decides the outcome whatever follows it |
| `Wire.PythonField` | src/vmdeploy/inventory.py:97-120 | a field is read exactly if the object has a member of its name and the last one is a text, or null, which becomes None |
| `Wire.GoField` | goservice/inventory.go:16-25 | a field is read exactly if every member of its name is a text or null; the last text counts, and where there is none the field is empty |
| `Wire.RecordMeans` | src/vmdeploy/inventory.py:97-120 | a record is read exactly if all its eight fields are, and each comes from its own name |
| `Wire.EntriesMean` | src/vmdeploy/inventory.py:287-294 | a list is read exactly if every entry is, and the records keep its order |
| `Wire.DocumentsReadExactly` | src/vmdeploy/inventory.py:282-294 | which documents each language reads: for Python lists of objects with all eight fields, for Go also null and missing fields |
| `Wire.RecordRoundTrip` | src/vmdeploy/inventory.py:85-120 | a record written with one language's key order is read back by the other |
| `Wire.FieldsOnTheWire` | src/vmdeploy/inventory.py:85-120 | each field stands under its own key, in struct order for Go and sorted for Python |
| `Wire.EncryptRoundTrip` | goservice/crypto.go:76-119 | opening inverts sealing, and the length guard rejects no genuine payload |
| `Wire.PayloadLayout` | goservice/crypto.go:76-91 | a sealed payload is base64 of the nonce, then the ciphertext and tag of the UTF-8 text of the printed list |
| `Wire.OpensByLayout` | goservice/crypto.go:97-119 | opening takes the first 12 of at least 28 octets as the nonce and opens the rest under it |
| `Wire.SealedOpens` | src/vmdeploy/inventory.py:210-294 | every record list, the empty one included, sealed by either language opens in either to the same list in the same order; a key of the wrong length is refused on both sides |
| `Wire.NilGuardIsNeeded` | goservice/inventory.go:102-105 | an unguarded nil slice would print as null, which Python refuses; guarded, it opens as the empty list |
| `Wire.KeyFilesLoadExactly` | src/vmdeploy/inventory.py:157-186 | whatever stands around the code, the file loads as the key if and only if the key has the right length and all that stands there is white space the language strips, which for Python must also be ASCII; a file that is not ASCII is an error for Python |
| `Wire.KeyRoundTrips` | src/vmdeploy/inventory_service.py:484-493 | written key files and the uploaded form, with its final line break, give the key back |
| `Storage.CrashKeepsAWholePayload` | goservice/inventory.go:116-151 | after a power failure the path holds, whole, some payload it may have held since the directory last reached the medium |
| `Store.Store.Load` | goservice/inventory.go:58-87 | one read of the path, and the answer outright: CannotRead exactly if that call failed, otherwise the meaning of what the path holds now, absent and empty files being the empty registry, or the error of a payload that cannot be opened |
| `Store.Store.RawCiphertext` | goservice/inventory.go:186-198 | one read of the path: an error exactly if that call failed, otherwise the stored payload as it is, empty when there is none |
| `Store.Store.Replace` | goservice/inventory.go:116-151 | create, write, sync, close, chmod, rename: success means that the six calls went through in order and the path names the new synced file; it fails only where a call does, and then the path names what it named; other files are untouched, and no temporary file is left unless its removal failed |
| `Store.Store.Save` | goservice/inventory.go:90-151 | it succeeds if and only if the key has its length and no call failed; success means that the datastore now reads back as the records; any error leaves payload and meaning as they were; a crash-readable datastore stays crash-readable |
| `Store.Store.Upsert` | goservice/inventory.go:153-180 | it succeeds if and only if the datastore could be opened, the key has its length and no call failed; success returns, and leaves stored, the upsert of the list held on entry; any error leaves the datastore unchanged |
| `StoreMachine.StepKeepsInv` | goservice/inventory.go:58-198 | every step of every thread keeps the invariant: reader and writer exclusion, what each thread has in hand, and its phase in the history |
| `StoreMachine.StoreIsLinearizable` | goservice/inventory.go:58-198 | for any number of threads and any interleaving of lock, read, write, rename and unlock steps, each call takes effect exactly once between call and return, answers as the atomic store does at that moment, and the path ends holding what the atomic store holds |
| `StoreMachine.FailsExactly` | goservice/inventory.go:58-198 | a step makes its call fail if and only if a system call fails in it, what was read cannot be opened, or the key has the wrong length |
| `StoreMachine.EntersExactly` | goservice/inventory.go:58-62 | a waiting reader may enter if and only if no writer is inside, a waiting writer if and only if nobody is |
| `StoreMachine.SomeCallGoesOn` | goservice/inventory.go:58-198 | there is no deadlock: while a call is under way, it or one inside the lock that it waits for has a step that is no failure and brings it closer to its return |
| `StoreMachine.StepsRunOut` | goservice/inventory.go:58-198 | of which every call has at most thirteen |
| `StoreMachine.ReplayIsOutcome` | goservice/inventory.go:153-180 | the atomic store holds the result of exactly the saves and upserts that succeeded, in order |
| `StoreMachine.NoWriteIsLost` | goservice/inventory.go:153-180 | at any time the registry read from the path is the outcome of all successful writes so far |
| `StoreMachine.NothingFailsByItself` | goservice/inventory.go:58-198 | in a run in which no system call fails, on a readable datastore with a key of the right length, no call fails |
| `StoreMachine.UpsertsAccumulate` | goservice/inventory.go:153-180 | while nobody saves a whole list the outcome is the run of accepted upserts |
| `StoreMachine.OnlyUpserts` | goservice/inventory.go:153-180 | so concurrent upserts list each hostname once, in first-effect order, with the record accepted last |
| `StoreMachine.LoneWriterCommits` | goservice/inventory.go:116-151 | a thread that writes and meets no failure replaces the datastore by exactly what the sequential store's replacement makes of it, in six steps |
| `StoreMachine.StepCommits` | goservice/inventory.go:102-151 | a step either leaves the committed history alone or adds one readable payload to it |
| `StoreMachine.CrashIsSafe` | goservice/inventory.go:102-151 | power may fail at any step of any run: the path is left with a whole payload of recent history, readable if the datastore was |
| `StoreMachine.CrashLeavesOldOrNew` | goservice/inventory.go:102-151 | around a single write the crash leaves the whole previous or the whole new payload |
| `StoreMachine.AlwaysReadable` | goservice/inventory.go:65-87 | a readable datastore stays readable through any number of crashes and restarts |
| `Merge.DeepMerge` | src/vmdeploy/config.py:368-388 | the recursive in-place algorithm on heap dictionaries returns a new dictionary that spells the merge; base and overlay still spell what they spelled, untouched entries are shared with the base, and two trees that share nothing give a tree |
| `Merge.MergeLookup` | src/vmdeploy/config.py:368-388 | at every depth: the overlay's scalar wins, tables merge key by key, nothing lies below an overlay scalar, and untouched base paths survive |
| `Merge.EmptyIsIdentity` | src/vmdeploy/config.py:368-388 | the empty table is a left and right identity |
| `Merge.OverlayIsIdempotent` | src/vmdeploy/config.py:368-388 | applying an overlay twice is applying it once |
| `Merge.CoversExactly` | src/vmdeploy/config.py:368-388 | a merge adds nothing to the overlay if and only if the overlay covers the base |
| `Merge.MergeIsAssociativeExactly` | src/vmdeploy/config.py:368-388 | merging three documents is associative if and only if nowhere a scalar of the middle one stands between two tables that would have merged to something else |
| `Merge.EnvironmentIsAnOverlayExactly` | src/vmdeploy/config.py:445-455 | the environment's user acts as one more overlay exactly when it is set and the merged document has an ssh table, and not at all otherwise |
| `Merge.Precedence` | src/vmdeploy/config.py:445-455 | for every path: the environment decides the user and what would be below it, the ssh table is the merged one but for the user, and any other path holds what the merge of overlay over base holds |
| `Merge.AssignUser` | src/vmdeploy/config.py:451-455 | the assignment in place writes to the document's ssh table only, which whoever shares that table then sees, and leaves the document spelling the intended one if that table occurs nowhere else in it |
| `Merge.TreesUseTheirTablesOnce` | src/vmdeploy/config.py:451-455 | as is so in every tree |
| `Merge.LoadConfig` | src/vmdeploy/config.py:445-455 | loading, from files parsed into trees: the merge and then the assignment leave a tree that spells the document of the precedence laws; of what was parsed only its ssh table may have changed, and that is the base's own where the overlay has none |
| `CompileGate.FramingIsInjective` | src/vmdeploy/inventory_service.py:89-98 | for NUL-free names and contents the hashed stream determines them, for lists of any lengths |
| `CompileGate.FrameExample` | src/vmdeploy/inventory_service.py:89-98 | the stream of two small files, octet by octet |
| `CompileGate.NulsCollide` | src/vmdeploy/inventory_service.py:89-98 | with a NUL allowed in the contents, any two names give two different file sets with one stream |
| `CompileGate.InjectiveOnAllContentsExactly` | src/vmdeploy/inventory_service.py:89-98 | over arbitrary contents the framing is injective if and only if the list has at most one file |
| `CompileGate.ComputeSourceHash` | src/vmdeploy/inventory_service.py:72-98 | the updating loop hashes the whole stream, and fails exactly when a file is missing |
| `CompileGate.SameHashSameSources` | src/vmdeploy/inventory_service.py:58 | equal source hashes mean equal sources |
| `CompileGate.GateIsSound` | src/vmdeploy/inventory_service.py:303-342 | over every run of edits, failures and deployments, save a failure between the two writes or an edit during a build, a deployment returns only when the installed binary is the compilation of the current sources |
| `CompileGate.DeploymentRestoresCoherence` | src/vmdeploy/inventory_service.py:303-342 | from any guest at all a deployment that skips leaves it as it is, and one that does not ends with the binary of the local sources, their hash beside it and coherence restored |
| `CompileGate.UploadIsRightExactly` | src/vmdeploy/inventory_service.py:269-278 | a deployment that uploaded one version and records the hash of the local one ends with the right binary, and coherent, if and only if the two are the same |
| `CompileGate.TornInstallHealsExactly` | src/vmdeploy/inventory_service.py:303-342 | after an install torn between its two writes the next completed deployment sets things right if and only if the local hash differs from the recorded one |
| `CompileGate.TornInstallIsUnsound` | src/vmdeploy/inventory_service.py:269-278 | a run that edits, fails between the two writes and reverts ends with the wrong binary and a deployment that skips |
| `CompileGate.EditDuringBuildIsUnsound` | src/vmdeploy/inventory_service.py:269-278 | so a run that edits the sources while they are built returns with the binary of the sources from before the edit |
| `CompileGate.RemoteGuest.BuildService` | src/vmdeploy/inventory_service.py:225-279 | upload, compile, install and record, in that order, failing only where a command does; success leaves the compilation of the sources with their hash, failure before the install changes nothing |
| `CompileGate.RemoteGuest.EnsureServiceBinary` | src/vmdeploy/inventory_service.py:303-342 | on a coherent guest it returns only with the right binary, recompiles exactly if the one there was not current, skips without changing anything otherwise, raises only where a command fails, and leaves coherence unless that was between the install and its record |
| `Toml.AppendTable` | src/vmdeploy/setup.py:219-222 | one table's turn appends its header, its pairs and a blank line |
| `Toml.EmitToml` | src/vmdeploy/setup.py:195-223 | the two loops over one list emit the document, scalars first |
| `TomlReload.ReloadsExactly` | src/vmdeploy/setup.py:195-223 | the reference reader gives the document back, scalars first, and equally the same dictionary in any order, if and only if its keys are bare and its values are integers, booleans and strings free of quotes, backslashes and control characters |
| `TomlReload.ReadIsDistinct` | src/vmdeploy/setup.py:585-589 | whatever text is read, no key comes out twice and every key is bare |
| `TomlReload.UnprintableIsMisread` | src/vmdeploy/setup.py:208-213 | any other value is misread or refused, whatever part of its text stays on the line |
| `TomlReload.EmitShape` | src/vmdeploy/setup.py:223 | stripping the joined text removes its final blank line and nothing else |
| `TomlReload.EmitExample` | src/vmdeploy/setup.py:195-223 | a table and then a number, line by line |
| `TomlReload.ReadLinesGrows` | src/vmdeploy/setup.py:195-223 | reading defines only bare keys and never redefines one |
| `Overlay.OverlayFile.WriteLocalOverlay` | src/vmdeploy/setup.py:571-612 | whatever parser reads the file: an overlay that does not parse or has an ssh entry that cannot be copied is refused and left alone, and otherwise it fails only where a file call does; a completed write leaves a text whose reload gives the new user and key path and everything else as before if and only if all that is printed reads back, and then writing again changes nothing |
| `Overlay.RewritingPreserves` | src/vmdeploy/setup.py:591-612 | for every overlay that can be updated, with values of any kind: reloading the rewritten text gives the new user and key path, and every other entry as it was, if and only if everything that is printed reads back |
| `Overlay.OtherKindsBecomeText` | src/vmdeploy/setup.py:206-213 | an array, a float or a date at the top level never survives: where its text form and all else can be printed, the rewritten overlay reloads with that text, a string, in its place |
| `Overlay.ArrayIsLost` | src/vmdeploy/setup.py:585-606 | the overlay `x = [1]` is accepted and comes back as `x = "[1]"` |
| `Overlay.ReadIsFaithful` | src/vmdeploy/setup.py:585-589 | the parsers these are stated over exist: the reference reader is one |
| `Overlay.RewritingTwiceChangesNothing` | src/vmdeploy/setup.py:591-612 | rewriting a text that reloads, with the same identity, gives the same text |
| `TomlReload.FindReordered` | src/vmdeploy/setup.py:214-222 | printing scalars before tables moves no entry out of reach |
| `Shell.QuoteReads` | src/vmdeploy/setup.py:44-56 | outside other quotes a quoted string adds exactly itself to the word it stands in |
| `Shell.QuotedIsOneWord` | src/vmdeploy/website.py:151-163 | between blanks in any command a quoted string is read as exactly one word equal to it and the rest is read as on its own; a command with a NUL in the string is refused |
| `Shell.ScanContinues` | src/vmdeploy/setup.py:298-314 | what a command means up to a blank that ends a word does not depend on what follows |
| `Shell.QuotedAtTheEnd` | src/vmdeploy/setup.py:44-56 | the same where the command ends with the quoted string |
| `Shell.SudoShScript` | src/vmdeploy/ssh_client.py:271-280 | the script handed to the inner shell arrives unchanged, both in the passwordless command and in the one that reads a password |
| `Seed.RendersExactly` | src/vmdeploy/seed.py:89-151 | a user-data document is written if and only if the hostname is a label and the account name a portable one, each with at most a line break after it, and the trimmed key is one line of a known type |
| `CloudConfig.UserDataReadsBack` | src/vmdeploy/seed.py:154-200 | for all accepted inputs a YAML reader finds eight entries: hostname, fresh host keys, password and root login shut, and one key-only account of that name with its shell, its sudo rule and exactly the trimmed key, if and only if neither name ends in a line break and the key holds no control character; otherwise it reads nothing |
| `CloudConfig.MetaDataReadsBack` | src/vmdeploy/seed.py:203-225 | the same for the instance id and the hostname, looked up under their keys |
| `Seed.AcceptedHostname` | src/vmdeploy/seed.py:89-102 | an accepted hostname without a line break is a host label |
| `CloudConfig.FinalBreakSlipsThrough` | src/vmdeploy/seed.py:45-49 | the pattern's dollar sign lets a final line break through, and then the reader refuses the document |
| `Download.Disk.PullImage` | scripts/pull-image.ps1:136-176 | the loop over the growing file computes the reference run, with at most the given number of transfers |
| `Download.PulledMeansWhole` | scripts/pull-image.ps1:160-176 | success is reported if and only if the loop ended with the whole blob on disk |
| `Download.OutcomesMean` | scripts/pull-image.ps1:136-176 | what each outcome says of the file, the attempts made and what the network answered to them, and that a corrupt file is removed |
| `Download.PrefixNeverShrinks` | scripts/pull-image.ps1:136-158 | from any part of the blob a run leaves a part at least as long, and never finds it corrupt |
| `Download.PartialDownloadsAccumulate` | scripts/pull-image.ps1:134-158 | over any number of runs, interrupted in any way, the file stays a part of the blob and never shrinks |
| `Download.TwoCleanRunsSufficeExactly` | scripts/pull-image.ps1:136-176 | two uninterrupted runs finish if and only if the file is no longer than the blob and not missing where the blob is empty |
| `Download.TooLongIsNeverRepaired` | scripts/pull-image.ps1:165-167 | a file longer than the blob stays as it is, whatever the message advises |
| `OpticalSlot.SearchOpticalSlot` | src/vmdeploy/virtualbox.py:358-395 | the nested loops compute the reference search |
| `OpticalSlot.FoundExactly` | src/vmdeploy/virtualbox.py:358-395 | a slot is found if and only if some controller has an optical slot or a free IDE slot, an optical one first; a hard disk is never found |
| `OpticalSlot.FoundIsEarliest` | src/vmdeploy/virtualbox.py:375-389 | no optical slot comes earlier, or no free IDE slot where that is what is found, with controllers and the slots of each in listed order |
| `OpticalSlot.FilledSlotIsFirst` | src/vmdeploy/virtualbox.py:397-423 | once the found slot holds an optical medium it is the first such slot |
| `OpticalSlot.SlotIsStable` | src/vmdeploy/virtualbox.py:397-450 | over any run of inserting images and ejecting, the slot found is found again, no other slot changes, and every hard disk stays |
| `Accounts.PathsNameTheirOwner` | src/vmdeploy/setup.py:123-146 | files named after one account are never files of another |
| `Accounts.ForeignCommandKeepsWorking` | src/vmdeploy/setup.py:110-192 | a working account goes on working whatever is done to another |
| `Accounts.Template.IssueAll` | src/vmdeploy/setup.py:110-192 | a list of commands for one account leaves the other account and sudo alone at every step, and the guest is what the commands carried out make of it |
| `Accounts.DisablingMeans` | src/vmdeploy/setup.py:173-192 | for every choice of the five commands that take effect: locked, shell, sudo group, rule file and key file, each by its own command |
| `Accounts.CreatingMeans` | src/vmdeploy/setup.py:110-151 | all commands of a creation make an account, or add an existing one to the group, with its directory, its key file and its rule, by contents, owner and mode |
| `Accounts.EnablingMeans` | src/vmdeploy/setup.py:489-529 | all commands of re-enabling leave it unlocked, with a shell, in the group, with its key and its rule |
| `Accounts.Template.CreateAdminUser` | src/vmdeploy/setup.py:110-151 | the commands that the account's absence or presence calls for are issued in their order and checked, then the rule's syntax; it fails only where one fails; success leaves the account, its directory, its key file and its rule with contents, owner and mode, and all else as it was; no step touches the other account |
| `Accounts.Template.VerifyAdminAccess` | src/vmdeploy/setup.py:154-170 | the answer is positive if and only if the session held and login and root work |
| `Accounts.Template.DisableBootstrapAccount` | src/vmdeploy/setup.py:173-192 | the five commands are issued in order, unchecked, failing only where the session does; afterwards the account is locked, without shell, group, rule file and key file, each exactly if it was so before or its command took effect, and all else stays; no step touches the other account |
| `Accounts.Template.RunSetup` | src/vmdeploy/setup.py:677-714 | the steps come in order and it fails only where one does; in every state some locally held key logs in and reaches root; before the verification the bootstrap account is unaltered, after it the new account is; a finished setup has left each of the bootstrap account's rule, group, shell, password and key exactly if the command against it did not take effect, and the account open exactly as far as that leaves it a key or a password |
| `Accounts.RuleKeepsSudoExactly` | src/vmdeploy/setup.py:137-151 | installing an account's rule keeps sudo working if and only if sudo parses it or passes over its file, as it does where the name has a dot or a final tilde; if not, nobody reaches root until it is gone |
| `Accounts.UnvalidatedNameLocksOut` | src/vmdeploy/setup.py:126-142 | no name is validated first: creation for an existing account named `ops=admin` ends in that state |
| `Accounts.DisablingShutsOutExactly` | src/vmdeploy/setup.py:173-192 | disabling shuts out an account that could log in, by key or by password, if and only if the shell change took effect, or else the key removal if it had a key and the password lock if it had a password |
| `Accounts.CreationWorksExactly` | src/vmdeploy/setup.py:126-142 | a fully created account works if and only if it is new or already had a login shell, and its rule is one that sudo reads and parses, or else is passed over while the account has a password for sudo |
| `Accounts.DottedNameIsPassedOver` | src/vmdeploy/setup.py:137-142 | so a new account named `john.doe` does not work: sudo ignores the file of its rule |
| `Accounts.EnablingUndoesDisabling` | src/vmdeploy/setup.py:489-529 | re-enabling an account whose rule is harmless makes it work again, however much of the disabling took effect |
| `VirtualBox.LeftoverMayWin` | src/vmdeploy/virtualbox.py:557-558 | a leftover whose removal failed silently may be what the rollback restores |
| `VirtualBox.Host.PowerOff` | src/vmdeploy/virtualbox.py:231-263 | the button, queries while there is time, and a forced cut only if all of them showed it running; it fails only where a command or the last query does; success means stopped; machines only drift whatever the outcome |
| `VirtualBox.Host.StartHeadless` | src/vmdeploy/virtualbox.py:468-481 | started only if not reported running, and success means that it runs; at most that machine starts, and nothing else changes |
| `VirtualBox.Host.TakeSnapshot` | src/vmdeploy/virtualbox.py:543-559 | the list is asked for a leftover, one that is found is deleted without a check, then the new one is taken; it fails only where the list, a timeout or the taking does; the disk is untouched; on success a snapshot of that name holds it, and it is the only such disk if the one leftover was found and removed |
| `VirtualBox.Host.RestoreSnapshot` | src/vmdeploy/virtualbox.py:561-579 | it restores unless the machine is reported running; success means that the machine was stopped and now has the disk of a snapshot of that name |
| `VirtualBox.Host.DeleteSnapshot` | src/vmdeploy/virtualbox.py:581-589 | the deletion is issued, and only a timeout raises; one snapshot of that name goes exactly if it was carried out, and the disk stays |
| `VirtualBox.Host.ExportAppliance` | src/vmdeploy/virtualbox.py:265-295 | a running machine is refused, an old file removed first; success means a complete export of the disk as it is; the file at the path is otherwise the old one, absent, or left by a failed export |
| `VirtualBox.Host.ImportAppliance` | src/vmdeploy/virtualbox.py:297-319 | without an appliance it fails at once; at most one new, stopped, unconfigured machine with the appliance's disk is registered |
| `VirtualBox.Host.Destroy` | src/vmdeploy/virtualbox.py:483-526 | an unregistered name is left alone, a registered one powered off and then deleted in at most the given attempts; it fails only where a command does or the attempts run out; success means that the name is gone; at every step all other machines are still there |
| `GoldenImage.DropInsPassTheirChecks` | src/vmdeploy/setup.py:371-393 | the two drop-ins written are what the verification accepts |
| `GoldenImage.RemoteHost.SanitizeImage` | src/vmdeploy/setup.py:260-357 | nine steps in order, seven of them free to fail; it fails only where the session does or a key is found, and success means that no authorized_keys is left under /root or /home |
| `GoldenImage.RemoteHost.VerifyNoAuthorizedKeys` | src/vmdeploy/setup.py:339-357 | an answer is positive exactly if no such file is left |
| `GoldenImage.RemoteHost.ArmCloudInit` | src/vmdeploy/setup.py:396-442 | the opt-outs, the clean, the two drop-ins and the check, in order, failing only where one does; no login is added, and success means that both opt-outs are gone and both drop-ins say what they must |
| `GoldenImage.RemoteHost.VerifyCloudInitArmed` | src/vmdeploy/setup.py:445-486 | an answer is positive exactly if the image is armed |
| `GoldenImage.BakeAndExport` | src/vmdeploy/provision.py:101-122 | the six steps of the guarded part in order, failing only where one does; the snapshots stay, and nothing but a publishable disk is ever exported completely |
| `GoldenImage.RollBack` | src/vmdeploy/provision.py:123-127 | power off, restore, delete, in order, failing only where one does; completing means stopped, restored, the deletion issued, and one snapshot of the name fewer where it was carried out; while the snapshot is unambiguous the disk is never lost |
| `GoldenImage.BuildGoldenTemplate` | src/vmdeploy/provision.py:72-127 | the rollback is run whatever the guarded part came to; other machines only drift; the file at the appliance path is the old one, absent, left by a failed export, or a complete export of a publishable disk; a completed rollback leaves the template stopped, with the snapshots it started from if none had the name and the deletion was carried out, and with the disk it started from if no leftover of the name held another or the one leftover was found and removed; until then a snapshot still holds that disk |
| `GoldenImage.RollbackIsCertainExactly` | src/vmdeploy/virtualbox.py:543-579 | seen from before the build, with a removal that may fail silently: the rollback brings the present disk back for certain if and only if no leftover of the name holds another |
| `GoldenImage.ReplacingIsCertainExactly` | src/vmdeploy/virtualbox.py:543-579 | and with the removal carried out: if and only if, besides, there is but one leftover |
| `GoldenImage.RebuildGivesUpTheDisk` | src/vmdeploy/virtualbox.py:557-558 | after a failed rollback, building again deletes the last copy of the template's disk |
| `Cluster.SetSizeFindsDuplicates` | src/vmdeploy/config.py:362-364 | comparing a list's length with its set's size finds repeats, and only those |
| `Cluster.ParseBackends` | src/vmdeploy/config.py:325-365 | success gives every table in order, complete, at least two, machine names distinct; each error means its own cause, the first malformed table first |
| `Cluster.AcceptsExactly` | src/vmdeploy/config.py:512-537 | validation accepts if and only if machine names are unique, the template's is not among them and the two ports differ |
| `Cluster.StaysOnlyHalf` | src/vmdeploy/provision.py:302-307 | if no other guest was half-configured, at most one is in any state that one machine's work passes through |
| `Cluster.SerialRunsExactly` | src/vmdeploy/provision.py:153-176 | no run of commands on one machine ever has two half-configured guests at once if and only if no other one was half-configured at the start; the undisturbed run of provisioning is serial on the same condition |
| `Cluster.UndisturbedIsARun` | src/vmdeploy/provision.py:153-176 | which is a run that one machine's commands can take |
| `Cluster.ProvisionHost` | src/vmdeploy/provision.py:130-189 | the steps of one guest in order, failing only where one does; what is passed through is a run of commands on that one machine, in which every other machine only drifts; success means a new clone of the appliance with its own seed that was seen half-configured and finished first boot under its own hostname, and the answer is its address |
| `Cluster.ProvisionCluster` | src/vmdeploy/provision.py:301-323 | the hosts in configuration order, failing only where a step of one does; machines outside the cluster only drift; at most one half-configured guest runs in every state, if at the start none but the jump station's was; on return every guest stands, none is half-configured, and each hostname has the address of the last host configured under it |
| `Cluster.TeardownCluster` | src/vmdeploy/provision.py:326-335 | one destruction per host in configuration order, ending early only where one fails; machines outside the cluster only drift in every state, none is added, and on return no cluster name is registered |
| `Cluster.Operate` | src/vmdeploy/provision.py:301-335 | over any sequence of provisioning and teardown, failing or not, the template is there in every state with its disk and snapshots |
| `Cluster.CanAllStandExactly` | src/vmdeploy/config.py:523-525 | all guests can stand at once if and only if no machine name is given two hostnames, which validation guarantees |
| `Cluster.AnAddressPerGuestExactly` | src/vmdeploy/provision.py:319-323 | the returned mapping has an entry per guest if and only if no hostname is repeated |
| `Cluster.RepeatedHostnamesPass` | src/vmdeploy/config.py:512-537 | which validation does not check: a configuration it accepts repeats one |

## Left out

- Inside of AES-GCM and SHA-256, key generation, and whether nonces repeat; nothing is claimed about secrecy.
- Writers outside the service process: seeding over SFTP, and a separate `manifest mark-removed`, which loads and saves under two lock acquisitions.
- Lock fairness: the read-write lock of `StoreMachine` admits whoever may enter; that a waiting writer holds back new readers is not modelled, and a waiting call may be overtaken for ever.
- Store.Store.Save: the class runs one call at a time and does not take the lock, which is a matter of `StoreMachine`.
- Go's replacement of malformed UTF-8 and lone surrogates by U+FFFD, and its case-insensitive matching of JSON keys: records hold Unicode scalar values under the exact keys.
- JSON numbers and booleans, and Python's `str()` of nested values: no registry contains them, and the reader refuses them.
- Payloads and key files are texts of characters; Go trims octets.
- Reading TOML: the overlay's parser is a parameter that agrees with the reference reader on what that reads, and an array, a float or a date it returns is kept as the text the emitter prints for it. The reference reader refuses multi-line strings, arrays, dotted or quoted keys and inline tables. An ssh entry that is an array of pairs, which the code would copy, is an error here unless it is empty.
- The wording of the overlay's header: any comment lines stand for it.
- Shell expansions, comments and here-documents: the tokenizer refuses them.
- YAML beyond the shape of the rendered documents: scalars over several lines and double quotes are refused by the reader.
- The page cache of a guest whose power is cut, what a running machine writes to its disk between commands, and what shutting down writes.
- Whether the ssh server takes passwords, and which passwords are known: parameters of `Accounts`, the same for all commands.
- Partly written account files: a key or a rule is installed or not. Account names that a shell would split: commands act on the name as given.
- Reads under `|| true` when sudo itself is refused, as the code assumes working sudo.
- Which of several snapshots of one name a command by name acts on: left open, so results hold for every choice.
- Guest addresses: any address may be given to a running machine, which then keeps it, and a session reaches the machine whose address was reported; leases that change and conflicts are not modelled.
- `export_golden_template`, which exports without sanitising, and the memory, processor and adapter settings of a clone.
- Attaching a seed goes through `OpticalSlot` in the code; `Cluster` only keeps which hostname the attached seed carries.
- The remote Go toolchain: installing it, and what a compiler does; a compilation stands for its sources, with one Go version.
- Preflight checks, port ranges beyond backends, readiness polling, the HTTP and HTML side, table printing, argument parsing, Apache and systemd texts, ISO writing, file permissions and ownership.
