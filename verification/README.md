# Paperboat CLI: a Dafny model of its protocols and algorithms

The project models the parts of the `pb` command line whose correctness cannot be read off one function
body, and proves what they promise for every input, every interleaving or every sequence of interrupted runs.

| module | what it models |
|---|---|
| `ExecStream` | the event loop of `pb exec`, which follows a remote log through carriers that can be lost |
| `ExecInput` | standard input of `pb exec`: the shared carrier reference, half-closes and the forwarder |
| `TunnelJournal`, `DomainList`, `TunnelCreate` | `pb tunnel create`: the durable journal, the list of custom domains, and any number of interrupted runs |
| `LaunchGate` | concurrent callers that start the local daemon at most once |
| `TreeRemoval` | uninstall cleanup that keeps preserved paths |
| `WindowsUninstall` | launcher and detached helper on Windows, coupled by a plan and a status file |
| `EnvRecovery` | recovery-key files and the three ENV commands that depend on them |
| `EditDistance` | the distance that suggests near-miss session names |
| `MarkerSearch` | the benchmark's search for markers in a terminal stream cut into reads |
| `JsonKeys` | the two walkers that refuse repeated JSON keys |
| `TunnelSelector` | resolving a tunnel, a route or a domain over a paged listing |
| `TunnelRoute` | building and patching tunnel routes from flags |
| `SshTargetCache` | the on-disk cache of SSH targets |
| `EnvironmentETag` | printing and parsing environment-variable entity tags |
| `TerminalSequence` | the compare-and-swap record of the last terminal sequence |

Code that changes things step by step is modelled by classes and methods with loops (`PtySession`, `FileSystem`,
`Decoder`, `Session`, `Machine`, `CacheFile`, `ExecConnectionRef`, `TlsRecord`). Concurrent code is modelled as a
state machine: `Enabled` says which atomic steps are possible, `Step` what they do, `IsRun` what a run is.
Clocks, reads, dials, server replies, failures, crashes and user actions are parameters that are quantified over.

## What the code does not do

Some properties hold only under a condition. For each the project states the exact condition and proves it.

* The edit distance indexes its rows by byte offset. It is the Levenshtein distance on all ASCII text. When the second
  text has a wide character the result is the least distance from a proper tail of the first text to what follows that
  character: never more than the distance, and right exactly if no such tail is nearer. When only the first text has
  one, the result is never less than the distance, and right exactly if some best path meets the second text at no more
  than its true cost.
* Store-then-lookup of the SSH cache holds exactly when the file was absent or named no version or the current one: a
  file that names another version keeps it through every store and is never served. A file without a version is not
  served either, but the next store takes its entries over as current.
* An entity tag determines its scope up to one clash of a negative version with a machine identifier that ends in
  a dash; tags that the parser accepts have no clash.
* The marker search loses nothing exactly for markers no longer than the buffer limit less one read, plus one. Every
  longer marker is lost on some stream.
* The two JSON walkers differ exactly on values without repeated keys that are nested more than 128 deep.
* The uninstall status keeps its order in every run in which no launch is reported as failed while it is still under
  way. Once such a launch is reported and its plan is still there, the helper can always start and upset the order.
* A written recovery key reads back exactly if it is at most 255 bytes long and has no blank or tab in it; the writer
  does not check for that.

## Model

| member | source | states |
|---|---|---|
| `ExecStream.ActionRemoteExec` | cmd/pb/main.go:7571-7666 | Whatever carriers are lost: what is written is a prefix of the remote log in order, without gap or repetition, with "started" at most once; at most two reattachments; exit 0 only with a terminal event seen, and then the status that event calls for. Every carrier is read to its end, a lost one is replaced while attempts are left, and each other end has its reason: the first dial failed for good, or the next event could not be written |
| `ExecStream.Consume` | cmd/pb/main.go:7572-7622 | Reads everything one carrier hands over up to its first terminal event, in step with the log, and stops short only at an event that could not be written; a terminal event ends it with the carrier's own result, and otherwise the error is the one its ending calls for |
| `ExecStream.Turn` | cmd/pb/main.go:7571-7666 | One turn reads a carrier to its end and stops, or attaches the next carrier right after what all carriers so far have shown |
| `ExecStream.ReadEvent` | cmd/pb/main.go:7576-7599 | One event advances the written prefix by exactly the next log event, or by nothing for "started", or ends it |
| `ExecStream.HandleInOrder` | cmd/pb/main.go:7576-7599 | The three kinds of event a carrier may hand over all keep the order |
| `ExecStream.Resume` | cmd/pb/main.go:7632-7637 | The position asked for on reattachment is the one right after what was written |
| `ExecStream.ResumeIndex` | cmd/pb/main.go:7634-7637 | Attaching after the last number seen skips nothing and repeats nothing although numbers have gaps |
| `ExecStream.NoWrap` | cmd/pb/main.go:7634-7637 | The next position is one more than the last, except after the greatest 64-bit number, where it starts over |
| `ExecStream.Reattach` | cmd/pb/main.go:7638-7657 | Every dial of a reattachment is counted, never more than two in all; the result is what that dial connected to and carries the log from the position asked for; it gives up early only on an attempt that allows no other |
| `ExecStream.FirstDial` | cmd/pb/main.go:7434-7447 | The first dial is made at most three times, every dial before the last left the start uncertain, and an uncertain result is returned only after the third |
| `ExecStream.SuccessNeedsTerminal` | cmd/pb/main.go:7689-7723 | Success is reported if and only if a terminal event was seen, no error came and the status is zero |
| `ExecInput.ExecConnectionRef.Set` | cmd/pb/main.go:7813-7824 | Wakes every waiter there is, each once, and nobody who comes later; owes a half-close exactly after end of input |
| `ExecInput.ExecConnectionRef.Clear` | cmd/pb/main.go:7826-7834 | Takes away only the carrier it names; wakes every waiter if it does and nobody otherwise |
| `ExecInput.ExecConnectionRef.CloseInput` | cmd/pb/main.go:7852-7860 | Marks end of input, wakes nobody and returns the carrier to half-close |
| `ExecInput.ExecConnectionRef.Look` | cmd/pb/main.go:7836-7850 | A waiter finds a carrier or an open channel, so that it sleeps until the next change |
| `ExecInput.Replay` | cmd/pb/main.go:7796-7888 | The object driven by any schedule takes every step that is possible when its turn comes and no other, and goes through a run of the system, so what is proved of every run holds of it |
| `ExecInput.RunKeeps` | cmd/pb/main.go:7796-7888 | Every interleaving of event loop, forwarder and scheduler keeps the three invariants on channels, half-closes and bytes |
| `ExecInput.HalfClosedExactlyOnce` | cmd/pb/main.go:7813-7860 | When no call is outstanding, a carrier was half-closed once if and only if it was current at or after end of input; never twice |
| `ExecInput.AfterEofMeans` | cmd/pb/main.go:7813-7860 | The set of carriers owed a half-close is exactly those current in some state after end of input |
| `ExecInput.NoDoubleCloseNoLostWake` | cmd/pb/main.go:7813-7850 | No channel is closed twice, and no forwarder stays blocked on an old channel while a carrier is installed |
| `ExecInput.NoWriteAfterHalfClose` | cmd/pb/main.go:7852-7888 | Once a half-close is decided the forwarder is finished |
| `ExecInput.InputInOrder` | cmd/pb/main.go:7862-7888 | The accepted bytes are an ordered subsequence of standard input, none twice. A stretch is missing if and only if a failed write left it unsent; it begins where that write stopped, ends at the end of its buffer with no read ending inside it, and the gaps are one for each failed write that left something. With no failed write everything arrives before the half-close |
| `ExecInput.TilesIncrease` | cmd/pb/main.go:7862-7888 | Pieces that tile the input give strictly increasing offsets, all of them if none was dropped |
| `TunnelJournal.RecordsExtend` | internal/hostruntime/tunnelcreatejournal/journal.go:147-194 | A record that is accepted leaves a valid journal that extends the old one, so the check before each write never refuses it |
| `TunnelJournal.ExtendsTransitive` | internal/hostruntime/tunnelcreatejournal/journal.go:147-194 | Extending is transitive: keys, request and expiry fixed, identifiers kept, stages not going back |
| `TunnelJournal.Session.RecordDomainAt` | internal/hostruntime/tunnelcreatejournal/journal.go:175-194 | However the write ends, the file is a valid journal that takes back nothing; success means that journal and file hold the new identifier |
| `TunnelJournal.Session.RecordTunnelAs` | internal/hostruntime/tunnelcreatejournal/journal.go:147-161 | The same for the tunnel and operation identifiers |
| `TunnelJournal.Session.RecordReady` | internal/hostruntime/tunnelcreatejournal/journal.go:163-173 | The same for readiness of the connector |
| `TunnelJournal.Session.Complete` | internal/hostruntime/tunnelcreatejournal/journal.go:196-222 | The file goes only if nothing was created, or if readiness and every domain are on record |
| `DomainList.CollectDomains` | cmd/pb/tunnel_command.go:1353-1366 | Accepts exactly flags that are valid and distinct once cleaned, and returns them in increasing order |
| `DomainList.IncreasingUnique` | cmd/pb/tunnel_command.go:1366-1366 | An increasing list is determined by its members |
| `DomainList.PermutedFlagsAgree` | cmd/pb/tunnel_command.go:1353-1366 | Two command lines work on the same list if and only if their flags give the same host names |
| `TunnelCreate.StepKeeps` | cmd/pb/tunnel_command.go:1371-1481 | Every step of every run, with any reply, failed write or stop, keeps the invariant and only extends journals |
| `TunnelCreate.RunKeeps` | cmd/pb/tunnel_command.go:1371-1481 | The invariant holds in every reachable state |
| `TunnelCreate.OneKeyOneBody` | cmd/pb/tunnel_command.go:1388-1393 | In the life of one journal all tunnel create calls carry one key and one body; no key is ever used with two bodies or for a tunnel and a domain |
| `TunnelCreate.OneKeyOneHostname` | cmd/pb/tunnel_command.go:1447-1464 | A domain key belongs to one host name of one tunnel over all runs, and within a journal key and host name determine each other |
| `TunnelCreate.NoSecondActivation` | cmd/pb/tunnel_command.go:1416-1431 | After readiness is on disk the connector is never activated again, and a completed journal is never used again |
| `TunnelCreate.NothingIsForgotten` | internal/hostruntime/tunnelcreatejournal/journal.go:147-194 | Between any two moments of any run every journal only extends: recorded identifiers never change |
| `TunnelCreate.EndIsComplete` | internal/hostruntime/tunnelcreatejournal/journal.go:341-357 | A run that reaches its end is never refused completion, and then readiness and every domain are on record |
| `TunnelCreate.RerunResumes` | internal/hostruntime/tunnelcreatejournal/journal.go:82-139 | A rerun of the same request takes up the stored journal of its host and name without new keys; another request for the name does nothing |
| `TunnelCreate.Replay` | cmd/pb/tunnel_command.go:1371-1481 | The commands, with the session that they hold, driven by any schedule take every step that is possible when its turn comes and no other, and go through a run of the system: the file, also between commands, and the held journal are those of the run |
| `LaunchGate.MutualExclusion` | cmd/pb/main.go:1473-1524 | At most one caller holds the gate, and the gate is empty exactly when none does, so every acquire is released |
| `LaunchGate.LaunchBound` | cmd/pb/main.go:1482-1524 | Launches number at most one plus those whose caller returned an error plus crashes of a ready daemon |
| `LaunchGate.LaunchAfterProbe` | cmd/pb/main.go:1500-1519 | Each launch follows a failed probe by the same caller inside the gate, with no launch in between |
| `LaunchGate.RunKeeps` | cmd/pb/main.go:1441-1524 | Gate and launch count invariants hold after every run of any number of callers |
| `TreeRemoval.RemovePathPreserving` | cmd/pb/main.go:2495-2545 | Nothing inside a preserved path changes even on error; success leaves exactly the preserved subtrees and their ancestors. Without failures exactly these are left in any case, and it succeeds exactly when those ancestors are directories |
| `TreeRemoval.RemoveChildren` | cmd/pb/main.go:2532-2545 | The same for the loop over a listing in any order, which goes on after an error |
| `TreeRemoval.AnyWithin` | cmd/pb/main.go:2500-2514 | The scans of the preserved list decide whether the root is inside or above a preserved path |
| `TreeRemoval.RemoveRoots` | cmd/pb/main.go:2440-2447 | The loop over all roots keeps what one removal keeps; without failures it leaves exactly what every removal would, and succeeds exactly when every root is safe and sound in the tree as it was at the start |
| `TreeRemoval.WithinIsPrefix` | cmd/pb/main.go:2547-2550 | The test through relative paths is the component prefix test, save for one exactly stated family of names |
| `TreeRemoval.RemoveAgain` | cmd/pb/main.go:2495-2545 | A second removal after one that succeeded, or that met no failures, changes nothing; without failures both report the same |
| `TreeRemoval.CleanStaysClean` | cmd/pb/main.go:2495-2545 | Whatever fails, a removal changes nothing in a tree that holds only what should remain |
| `TreeRemoval.OrderDoesNotMatter` | cmd/pb/main.go:2440-2447 | Without failures two loops over the same roots in any order leave the same tree and report the same |
| `TreeRemoval.SoundKept` | cmd/pb/main.go:2440-2447 | Removing some roots does not change whether another can be removed |
| `TreeRemoval.KeptWellFormed` | cmd/pb/main.go:2495-2545 | What remains is again a tree: every node sits in a directory |
| `WindowsUninstall.RemovalAfterEveryExit` | cmd/pb/uninstall_product_windows.go:390-451 | Nothing is removed before every process of the plan has exited, in any interleaving, with crashes and lost status writes |
| `WindowsUninstall.LauncherNeverSeesRemoval` | cmd/pb/uninstall_product_windows.go:501-525 | A live launcher never reads `removing` or `completed`, and hands over only on a helper seen waiting |
| `WindowsUninstall.StatusOrder` | cmd/pb/uninstall_product_windows.go:132-153 | The status history is in order if and only if no failed launch is reported beside a helper that reports too |
| `WindowsUninstall.OrderWithoutLateStart` | cmd/pb/uninstall_product_windows.go:139-153 | It is in order in every run in which no helper starts after its launch was reported as failed |
| `WindowsUninstall.OrderUnlessAbandoned` | internal/windows/elevation/bridge_windows.go:147-161 | It is in order in every run in which no launch is reported as failed while it is still under way |
| `WindowsUninstall.AbandonedAlwaysBreaks` | internal/windows/elevation/bridge_windows.go:147-161 | From every reachable state in which such a launch has been reported and its plan is still there, the helper can start, read the plan and announce itself, and the history is then out of order |
| `WindowsUninstall.LateStartBreaksOrder` | internal/windows/elevation/bridge_windows.go:147-161 | A reachable state in which `waiting_for_parent` follows `failed` |
| `WindowsUninstall.WaitForHandoff` | cmd/pb/uninstall_product_windows.go:501-525 | The first reading that is not `scheduled` decides, and there is no verdict exactly when there is none |
| `WindowsUninstall.WaitForProcess` | cmd/pb/uninstall_product_windows.go:694-723 | Success exactly if the process identifier is no longer in use, or on an exit reported after turns that neither expired nor were cancelled; every other end is told apart |
| `EnvRecovery.WriteThenRead` | cmd/pb/env_control_command.go:899-970 | A written key reads back as itself if and only if it is short and has no blank; otherwise the file is refused |
| `EnvRecovery.ReadFromWritten` | cmd/pb/env_control_command.go:944-970 | Only the key itself, with or without a line end, is read as that key |
| `EnvRecovery.CallsAreEarned` | cmd/pb/env_control_command.go:363-382 | What the gate means: before each activation, rotation or reset its key was read back from a file and then confirmed |
| `EnvRecovery.Machine.RunAll` | cmd/pb/env_control_command.go:305-382 | Any sequence of interrupted commands keeps the gate and only adds to the log. Every file that the user does not change meanwhile is there unchanged, and a file that is new stands at an output path of one of the commands |
| `EnvRecovery.Machine.WriteRecovery` | cmd/pb/env_control_command.go:899-942 | Never changes an existing file; on success the new file holds the key; a failure leaves nothing new, or at that path a plain file with a beginning of the text; without failures it says exactly what happens |
| `EnvRecovery.Machine.ReadRecovery` | cmd/pb/env_control_command.go:944-970 | Returns exactly what a plain file of this text is read as |
| `EnvRecovery.Machine.EnsureRecovery` | cmd/pb/env_control_command.go:862-882 | On success the file holds the key, new or old; without failures it succeeds on an absent or matching file |
| `EnvRecovery.Machine.VerifyRecovery` | cmd/pb/env_control_command.go:884-897 | Succeeds only on a file read as this very key |
| `EnvRecovery.Machine.Confirm` | internal/environmentmanager/enrollment.go:208-246 | Confirms only a text that stands for the pending key, and keeps the gate when that text was read from a file |
| `EnvRecovery.Machine.InitializeAuthority` | cmd/pb/env_control_command.go:305-388 | Makes no call, or one at the end with a key it read back itself in this run, even if the answer is lost; none when the authority is active; finishes, also as a rerun, when nothing fails |
| `EnvRecovery.Machine.RecoverAuthority` | cmd/pb/env_control_command.go:769-844 | Makes no call, or one at the end with a key it read back itself in this run, even if the answer is lost and whether or not an earlier run confirmed it; a supplied old key must be the one the interrupted preparation was begun with; finishes when nothing fails and the old key and the output serve |
| `EnvRecovery.Machine.PrepareRecovery` | cmd/pb/env_control_command.go:779-812 | Takes up the interrupted preparation, or begins one with the old key read from its file; an imported key is never replaced by another; without failures it succeeds exactly when there is an imported key or the file holds a fitting one |
| `EnvRecovery.Machine.ImportFrom` | cmd/pb/env_control_command.go:785-808 | Imports only a key read from the given file, and without failures exactly when that file holds a key that fits the imported one, if there is one |
| `EnvRecovery.Machine.ResetGate` | cmd/pb/env_control_command.go:578-606 | Passes only a confirmed key, read back in this run whenever an output is given; without an output only one confirmed earlier; passes when nothing fails and the key is confirmed or the output serves |
| `EnvRecovery.Machine.ResetAuthority` | cmd/pb/env_control_command.go:540-638 | Makes no call, or one at the end with a key that passed that gate, even if the answer is lost, and none without the typed phrase; finishes when nothing fails |
| `EditDistance.EditDistance` | cmd/pb/main.go:6813-6831 | Equals the recursive Levenshtein distance when byte offsets are indices; on all other texts it says what the result is and exactly when that is the distance |
| `EditDistance.NextRow` | cmd/pb/main.go:6819-6829 | From the column after the last wide character on, one new row obeys the cell recurrence, and that column itself stays zero |
| `EditDistance.LeastRow` | cmd/pb/main.go:6819-6829 | The recurrence carries rows of least costs to rows of least costs |
| `EditDistance.LevIsLeast` | cmd/pb/main.go:6813-6831 | The Levenshtein distance is the least cost of crossing the first character of the second text and going on from there |
| `EditDistance.NarrowMeans` | cmd/pb/main.go:6813-6831 | Against one-byte text the result is never below the distance, and equals it exactly if some best path crosses that character at its true cost |
| `EditDistance.WideMeans` | cmd/pb/main.go:6813-6831 | Against text with a wide character the result is the least distance from a proper tail of the first text to what follows it, never above the distance |
| `EditDistance.TailIsNear` | cmd/pb/main.go:6813-6831 | Some proper tail is as near to the end of a text as the whole is to the text |
| `EditDistance.AsciiIsCovered` | cmd/pb/main.go:6813-6831 | All ASCII text is in the exact case |
| `EditDistance.WideCharacterBreaksDistance` | cmd/pb/main.go:6813-6831 | Two different one-letter texts come out at distance 0 |
| `EditDistance.Symmetric` | cmd/pb/main.go:6813-6831 | The distance is symmetric |
| `EditDistance.ZeroOnlyOnEqual` | cmd/pb/main.go:6813-6831 | It is zero exactly on equal texts |
| `EditDistance.Triangle` | cmd/pb/main.go:6813-6831 | It obeys the triangle inequality |
| `EditDistance.NoShorterChain` | cmd/pb/main.go:6813-6831 | No chain of single edits is shorter than the distance |
| `EditDistance.ShortestChain` | cmd/pb/main.go:6813-6831 | A chain of exactly that many edits exists |
| `MarkerSearch.PtySession.Bulk` | tools/terminal-comparison-benchmark.py:413-433 | However the stream is cut into reads, the collector returns exactly the bytes between the first begin marker and the first end marker after it; it returns none only if these had not both arrived before the last read |
| `MarkerSearch.PtySession.WaitMarker` | tools/terminal-comparison-benchmark.py:147-156 | Finds the first occurrence in the whole stream and leaves exactly what follows it |
| `MarkerSearch.PtySession.Collect` | tools/terminal-comparison-benchmark.py:414-432 | Returns everything before the first end marker although it moves bytes out of the buffer as it goes |
| `MarkerSearch.PtySession.ReadOnce` | tools/terminal-comparison-benchmark.py:122-138 | Appends the next stretch of the stream and trims the front to the limit |
| `MarkerSearch.PtySession.Consume` | tools/terminal-comparison-benchmark.py:140-145 | Cuts the buffer right after the first occurrence, or leaves it |
| `MarkerSearch.TrimLosesNothing` | tools/terminal-comparison-benchmark.py:122-138 | Trimming after a read never hides a marker within the bound |
| `MarkerSearch.LongMarkerIsLost` | tools/terminal-comparison-benchmark.py:122-138 | The bound is exact: for every longer marker that the buffer could hold there are a buffer and one more read that lose it although it has wholly arrived |
| `MarkerSearch.HugeMarkerIsLost` | tools/terminal-comparison-benchmark.py:122-138 | A marker longer than the buffer is never found |
| `MarkerSearch.FindStable` | tools/terminal-comparison-benchmark.py:140-156 | A first occurrence stays the first however the stream goes on |
| `JsonKeys.RejectDuplicateKeys` | cmd/pb/tunnel_runtime.go:271-332 | Accepts exactly the token streams of one value without repeated keys at any level, nested at most 128 deep |
| `JsonKeys.WalkTree` | cmd/pb/tunnel_runtime.go:282-332 | On the tokens of any value the walk consumes exactly that value, or refuses it |
| `JsonKeys.WalkIsTree` | cmd/pb/tunnel_runtime.go:282-332 | Whatever the walk accepts is the token stream of some value followed by the rest |
| `JsonKeys.BoundedAccepts` | cmd/pb/tunnel_runtime.go:271-332 | Both directions together for whole inputs |
| `JsonKeys.WalkJsonValue` | cmd/pb/tunnel_runtime.go:282-332 | The recursive walker on a decoder computes that walk and stands right after it |
| `JsonKeys.WalkAccessValue` | cmd/pb/access_tunnel_command.go:249-305 | The second walker computes the walk without a depth limit |
| `JsonKeys.RejectAccessDuplicates` | cmd/pb/access_tunnel_command.go:249-305 | Accepts exactly the token streams of one value without repeated keys, at any depth |
| `JsonKeys.WalkersDiffer` | cmd/pb/access_tunnel_command.go:249-305 | The walkers differ exactly on values without repeated keys nested deeper than 128 |
| `JsonKeys.WalkersAgree` | cmd/pb/access_tunnel_command.go:249-305 | On every token stream what the first walker accepts the second does, and what only the second accepts is nested deeper than 128 |
| `TunnelSelector.Resolve` | cmd/pb/tunnel_command.go:1544-1601 | Against any paging it stops within ten pages; it returns an item only if the listing was read to its end and only one identifier matches, and agrees with a scan of all pages. Each error has its reason in the pages read: two identifiers match, a page failed, a cursor came back, or there were ten pages and still more |
| `TunnelSelector.ResolveTunnelSelector` | cmd/pb/tunnel_command.go:1544-1601 | The same with the direct lookup of an identifier counted as a match |
| `TunnelSelector.ResolveTunnelRoute` | cmd/pb/tunnel_command.go:2463-2500 | The same for routes |
| `TunnelSelector.ResolveTunnelDomain` | cmd/pb/tunnel_command.go:2554-2591 | The same for domains, compared without regard to case |
| `TunnelSelector.ScanPage` | cmd/pb/tunnel_command.go:1578-1585 | The matches kept are exactly the matching identifiers so far, and a second one stops the scan |
| `TunnelSelector.ListingFollowsChain` | cmd/pb/tunnel_command.go:1565-1599 | A complete listing can only continue the pages read so far |
| `TunnelSelector.NoListing` | cmd/pb/tunnel_command.go:1594-1600 | A repeated cursor or too many pages means that no complete listing exists |
| `TunnelSelector.AmbiguityStands` | cmd/pb/tunnel_command.go:1578-1585 | Two matches on a part of the pages are two matches in every complete listing |
| `TunnelRoute.AddExact` | cmd/pb/tunnel_command.go:1986-2070 | A route is built exactly from flags that describe a well-formed route, and it is that route |
| `TunnelRoute.RouteAdd` | cmd/pb/tunnel_command.go:1986-2070 | The command computes that route |
| `TunnelRoute.UpdateExact` | cmd/pb/tunnel_command.go:2094-2258 | An update is accepted exactly when the asked-for route is well formed, and keeps well-formedness |
| `TunnelRoute.UpdateTouchesOnlyFlags` | cmd/pb/tunnel_command.go:2094-2258 | Fields without a flag keep their value |
| `TunnelRoute.RouteUpdate` | cmd/pb/tunnel_command.go:2094-2258 | The patch sent turns the current route into that update, and the current TLS record is not changed |
| `TunnelRoute.ApplyOriginFlags` | cmd/pb/tunnel_command.go:1718-1805 | Merges the flags into a copy, accepts exactly when the result fits its scheme, and leaves the given record alone |
| `TunnelRoute.HistoryWellFormed` | cmd/pb/tunnel_command.go:1986-2258 | After an add and any sequence of updates every route is well formed: TLS exactly for https, custom CA exactly with a reference, private TCP only as allowed |
| `SshTargetCache.LookupExact` | cmd/pb/ssh_target_cache.go:51-73 | A lookup hits exactly when the latest store under the alias is for this server, machine and generation and at most five minutes old |
| `SshTargetCache.StoreReflects` | cmd/pb/ssh_target_cache.go:75-111 | A store, pruning included, keeps the file in step with the history, so pruning drops nothing a lookup could serve |
| `SshTargetCache.StoreThenLookup` | cmd/pb/ssh_target_cache.go:51-111 | A store is found again if and only if the file was absent or named no version or the current one |
| `SshTargetCache.UnversionedRevives` | cmd/pb/ssh_target_cache.go:58-104 | A file without a version is never served, but a store takes its entries over as current |
| `SshTargetCache.CacheFile.Store` | cmd/pb/ssh_target_cache.go:75-111 | Writes exactly that file, or nothing when the target is incomplete or the write fails |
| `SshTargetCache.CacheFile.ResolveFast` | cmd/pb/main.go:7219-7244 | A target from the fast path is the server's answer for this server, machine and generation, now or at most five minutes ago; it says exactly when there is none, when the caller falls back, also for want of a client, and what is stored: a usable answer of this call and nothing else |
| `SshTargetCache.ResolveAll` | cmd/pb/main.go:7219-7244 | Over any sequence of calls on a file without earlier stores, with a clock that does not run backwards, every target given is the live answer of that call or of an earlier one for the same server, machine and generation, at most five minutes before; a call that the server answers always gives a target |
| `SshTargetCache.Prune` | cmd/pb/ssh_target_cache.go:93-104 | The loop over the entries drops exactly the old ones |
| `EnvironmentETag.ParseIsInverse` | internal/api/environment_variables.go:213-241 | A text parses to a version if and only if it is that version's printed tag, within the limits |
| `EnvironmentETag.PrintedParses` | internal/api/environment_variables.go:213-241 | Printing and parsing give the version back |
| `EnvironmentETag.ValidExactlyCanonical` | internal/api/environment_variables.go:195-206 | The check accepts exactly the canonical tag of the version |
| `EnvironmentETag.TagDeterminesScope` | internal/api/environment_variables.go:236-241 | Two tags are equal if and only if scope and version are, but for one clash of a negative version |
| `EnvironmentETag.AcceptedTagsUnique` | internal/api/environment_variables.go:213-241 | A tag accepted under two machine identifiers shows that they are the same, with the same version |
| `EnvironmentETag.ParseFormat` | internal/api/environment_variables.go:213-241 | Decimal text reads back as its number |
| `TerminalSequence.RunKeeps` | cmd/pb/main.go:8162-8170 | In every interleaving of the swap loop the record never decreases |
| `TerminalSequence.NeverBehind` | cmd/pb/main.go:8162-8170 | From the moment a call has returned the record covers its value |
| `TerminalSequence.MaximumAtRest` | cmd/pb/main.go:8394-8394 | When every call has returned the record is the greatest value, which is where a reconnect continues |

## Left out

- Commands that only collect flags, call one endpoint and print: they would add easy members.
- Timing: deadlines, poll intervals and back-off are the order of steps, not durations.
- Hashing: the request digest of `TunnelCreate` is taken to determine the request, and fresh keys to be new.
- Host-name cleaning in `DomainList` is a parameter: any function that trims, lower-cases and validates one name.
- The route identifier sent with a domain in `TunnelCreate`: it is read from the service in each run.
- JSON text: `JsonKeys` starts at the decoder's tokens, and the cache and journal files are values, not text.
- Case-insensitive paths on Windows and drive letters in `TreeRemoval`: paths are sequences of names.
- Links in `TreeRemoval`: containment is lexical, as in the source, and a link is never followed, so a preserved path that is
  reached through a linked parent is not protected under its other name.
- Recovery of expired uninstall helpers and the removal of the helper's own directory.
- Cryptography of the ENV authority: a key is a number, its export a text, and a text stands for at most one key.
- Commands of `EnvRecovery` follow one another; two of them at the same time are not modelled, nor is a user who
  changes the very file that is being written.
- `env recovery recover` compares cleaned paths; `EnvRecovery.Machine.RecoverGate` compares the paths as given.
- ExecStream.Consume: a cancellation is one choice per carrier, not a race at each event.
