# Verified model of AzureDNSForwarder

AzureDNSForwarder runs unbound from one configuration file, keeps that file in
step with peers by last-writer-wins merging, and answers some zones through a
least-latency proxy. This project models those parts in Dafny and proves what
they keep: key by key, over whole runs of a mesh, and under every interleaving
of savers and poller, of probes, rebuilds and queries; and where something is not kept, exactly when.

`dafny verify dfyconfig.toml` checks everything.

| file | component |
|---|---|
| `Text`, `Order`, `Decimal`, `HostPort` | strings, picking in order, decimal printing, upstream keys, host and port |
| `Config`, `Validation`, `Files`, `Grammar` | the configuration file, its acceptance, the object edited in place, acceptance as a grammar |
| `Merge`, `Admission`, `Convergence`, `Repeats`, `Arrivals`, `Ties`, `Exchange`, `Quiescence` | envelopes, merging, when replicas agree and come to rest |
| `Deletion`, `Mesh`, `Header`, `Resurrection`, `Comeback`, `Telling`, `Settling` | the two-pass delete, the mesh as a state machine, deleted keys staying deleted or coming back, how a delete reaches others, runs that settle |
| `Store`, `Outcomes`, `Twins`, `Savers`, `Sharing` | load, poll, save; which drafts are saved; savers and poller interleaved; the shared list of peers |
| `Pinger`, `Selection`, `Proxy`, `Probes`, `Queries` | pings, selection, answers, the zone table, probes and queries in flight |
| `Unbound`, `Readback`, `Printout` | the generated unbound.conf, a reader for it, and what it says in terms of the items |
| `Audit`, `PeerList` | the audit log, peer-list normalisation |

Clock readings, ping results, upstream replies, system-call outcomes and
environment variables are parameters. Instants are naturals with 0 as the zero
time. YAML, JSON and SHA-256 are function parameters with a stated law: parsing
undoes printing for files the store publishes, encoded audit entries are
non-empty single lines that decode to themselves, hashes are injective. A
goroutine pool is a set from which the next finisher is picked arbitrarily.

Where the code and its documentation differ, the model follows the code, and
the difference is a theorem:

- A file with no upstream defaults is documented as valid, and loading accepts
  it (`Outcomes.ZonesOnlyFileExists`), but cloning it for a save makes the empty
  list a missing one, which validation refuses: exactly such files cannot be
  saved again (`Outcomes.ZonesOnlyFileIsFrozen`), until a merge brings a live
  default (`Outcomes.MergeThawsOnlyWithDefault`).
- Merging does not preserve validity. `Outcomes.MergeSavedIff` says exactly when
  the merged file is saved. One zone name entered on two nodes under two IDs is
  an example: each refuses what the other sends exactly while the zone is in the
  clock window (`Twins.TwinZonesRefusedIff`), which is for ever only without a
  window or a stamp (`Twins.TwinZonesForEverIff`).
- Requests that edit the list of peers write into an array that the draft shares
  with the published file, so a refused save can still show: exactly when is
  `Sharing.RefusedUnseenIff`, and over whole runs `Sharing.FaithfulIff`.
- A poll that reads before a save commits and publishes after it puts the old
  file back in memory, and the next save builds on it
  (`Savers.StalePollLosesUpdate`); without such a poll no update is lost
  (`Savers.NoLostUpdate`), and `Savers.InStepIffNoStalePoll` is the exact
  condition.
- A query releases the lock before it reads its entry's records, three times. So
  an answer can carry a time to live taken from other records than its own
  (`Queries.TornAnswer`; `Queries.TornTtlIff` and `Selection.TornReplyIff` say
  when), and a probe of an entry that a rebuild has dropped is seen by queries
  that still hold it (`Queries.StaleProbeSeen`; `Queries.StaleFinishSeenIff`
  says when).
- Files may repeat a key, and then merging an envelope twice need not be merging
  it once; exactly when it is, is `Repeats.IdempotentIff`.
- The clock window is documented as a test on envelopes; merging applies it to
  every item's own stamp (`Exchange.BootstrapMatchesManifest`).
- A deleted item's tombstone is spliced out right after it is saved, which
  leaves the key absent (`Deletion.RemovedIsAbsentIff`); an absent key returns
  with any admitted live copy (`Deletion.AbsentKeyReturns`), and
  `Comeback.DeletedKeyComesBack` is a run in which the deleted version does.
  Other nodes hear of the delete only through an envelope exported before the
  splice (`Telling.UntoldStaysLive`).
  `Arrivals.AbsentKeyDeliveries` says when the arrangement of deliveries matters.
- Equally stamped versions need not converge. When the second node answers after
  hearing the first, `Exchange.PairConverges` has the exact condition; when both
  send first it is `Exchange.SimultaneousExchange`, which is stricter: tied
  zones stay apart (`Exchange.TiedZonesNeverMeet`) and tied defaults with
  different notes trade places for ever (`Exchange.TiedDefaultsSwap`).
- An address pinged twice can lose the best result to a slower reply
  (`Pinger.SurvivesEveryOrder`).
- A list of peers made of blanks reaches nobody before normalisation and
  everybody after it (`PeerList.NormalisingPreservesVerdict`).
- A bare IPv6 upstream loses its last group to the port
  (`HostPort.SplitKeepsUpstream`, `HostPort.BareIPv6Loses`), a least-latency zone is found by some
  question exactly when its name has no upper-case letter
  (`Proxy.Server.FoundIffLowerCase`, `Proxy.UpperCaseZone`), and printing the
  minimum 64-bit integer gives only the sign (`Decimal.PrintedParses`).

## Model

| member | source | states |
|---|---|---|
| `Merge.MergeSlice` | internal/sync/sync.go:231-287 | the loop with slice, side index and counters computes the fold of the last-writer-wins order over admitted items, and the counters are those of each item's fate |
| `Admission.NewIsInWindow` | internal/sync/sync.go:236-246 | whatever a merge adds was sent, is not private, and bears a stamp at most the window before or after the clock |
| `Admission.TimelyIsLetIn` | internal/sync/sync.go:236-287 | and a timely version that is not private counts: live, it gets an absent key in; a held key ends no older than it |
| `Admission.OnlyCopyGetsIn` | internal/sync/sync.go:248-256 | a single timely version of an absent key gets in as it is, unless it is dead |
| `Admission.ReplacesIff` | internal/sync/sync.go:259-286 | in stamps and flags: replaced by a later version, by a tombstone as late, or by a default as late with another switch or note |
| `Admission.CountedAs` | internal/sync/sync.go:235-287 | in stamps and flags, the exact condition for each counter |
| `Admission.CountedOnce` | internal/sync/sync.go:146-153 | each item moves its own counter by one and no other |
| `Admission.MatchedBy` | internal/sync/sync.go:362-364 | zones and records are matched by ID, defaults by address up to case and port |
| `Merge.Merge` | internal/sync/sync.go:162-360 | in place, all three slices and the settings block become the merged file; the report is the tally of fates |
| `Admission.SettingsTakenIff` | internal/sync/sync.go:353-357 | the settings block is taken over iff it is sent, not kept back here, and the sender's clock is past the file's last change; the rest of the header stays |
| `Header.KeptSettingsStay` | internal/sync/sync.go:137-140 | over any run in which its own edits leave them alone, a node that keeps its settings to itself keeps them as they are and sends none |
| `Merge.Decide` | internal/sync/sync.go:259-286 | the branch table for a held key replaces exactly when the incoming version is lexicographically newer by (time, tombstone) or ties with a differing default, and moves the matching counter |
| `Merge.BuildIndex` | internal/sync/sync.go:231-234 | the side index maps exactly the keys present, each to its last position |
| `Merge.TallyBalances` | internal/sync/sync.go:172-226 | per slice: counters sum to the incoming items, growth equals Added, live change equals Added + Updated - Deleted, for any slice and envelope |
| `Merge.MergeConserves` | internal/sync/sync.go:146-153 | the same for whole files: six counters, total growth and total live items |
| `Convergence.SliceMergeRefinesJoin` | internal/sync/sync.go:235-287 | for every key, what the slice holds after merging is the plain per-key join of what it held with the incoming copies in order |
| `Convergence.MergeKeepsPositions` | internal/sync/sync.go:253-264 | old positions keep their keys, only new keys are appended, distinct keys stay distinct whatever the envelope repeats |
| `Convergence.HeldKeyTakesNewest` | internal/sync/sync.go:162-349 | after any finite list of envelopes a held key is at a lexicographic maximum of its own and all admitted copies |
| `Convergence.OrderAndRepetitionDoNotMatter` | internal/sync/sync.go:162-349 | two lists with the same admitted copies of a held key leave the same version, in any order and with any repeats |
| `Convergence.AbsentKeyOrder` | internal/sync/sync.go:186-196 | for the copies of a key not held, the live outcome is the same in every order if and only if no tombstone is as new as the newest live copy |
| `Arrivals.AbsentKeyDeliveries` | internal/sync/sync.go:162-349 | the same for files and lists of envelopes: all lists that bring the same admitted copies, however arranged, show the same live version iff no tombstone is as new as the newest live copy |
| `Repeats.IdempotentIff` | internal/sync/sync.go:231-287 | where the tie rule lets no version replace an equally stamped one: merging the same items twice is merging them once, into every slice, iff for no key a tombstone before the first live copy is newer than all copies from there on |
| `Repeats.ZonesAndRecordsIdempotentIff` | internal/sync/sync.go:231-287 | for zones and records that condition is exact without further hypothesis |
| `Repeats.MergeIdempotent` | internal/sync/sync.go:162-349 | in particular merging an envelope with distinct keys twice is merging it once |
| `Repeats.RepeatedKeyIff` | internal/sync/sync.go:249-264 | and a tombstone followed by a live copy of its key is harmless iff the live copy is later |
| `Repeats.TiedTombstonesUnsettled` | internal/sync/sync.go:220-225 | why ties are kept out: equally stamped tombstones of a default with alternating notes end at one and then at another |
| `Convergence.ExchangeSlices` | internal/sync/sync.go:235-287 | one exchange each way leaves neither side anything to learn; live views agree iff no shared key was stuck on a tie |
| `Exchange.FilterForExport` | internal/sync/sync.go:113-142 | the envelope holds, in order, exactly the items meant for the peer, and settings unless withheld |
| `Admission.EligibleIff` | internal/config/config.go:159-173 | an item goes to a peer iff it is not private and lists no peers or that one, up to case and blanks |
| `Admission.ExportPicks` | internal/sync/sync.go:119-136 | per kind the envelope holds exactly those items, in order |
| `Header.ExportedHeader` | internal/sync/sync.go:113-142 | sender, sequence number and time are the given ones; settings are in it iff they are not kept back |
| `Exchange.BuildManifest` | internal/sync/sync.go:85-107 | the counts are the live items of the envelope for the same peer |
| `Exchange.BootstrapMatchesManifest` | internal/sync/sync.go:85-142 | an empty node gets exactly the eligible live in-window items in order; as many as the manifest says iff all are in window |
| `Exchange.PairConverges` | internal/sync/sync.go:113-349 | two nodes, one exchange each way: no later exchange at any time, window or peer name changes an item; live views agree iff no shared key is held in two equally stamped live versions kept apart by the tie rule |
| `Settling.SavedPairConverges` | cmd/dnsforwarderd/main.go:166-195 | the same with the save around each merge: once both are accepted, no later exchange, saved or refused, changes an item, under the same exact condition for the live views |
| `Ties.SimultaneousSlices` | internal/sync/sync.go:235-287 | when both sides send first, live views agree iff shared keys with equally stamped live versions hold equal items |
| `Ties.TiedRounds` | internal/sync/sync.go:220-225 | over any number of such rounds a tied pair stays where it is if the tie rule keeps it, and otherwise trades places in every round |
| `Exchange.SimultaneousExchange` | internal/sync/sync.go:113-349 | the condition of `Ties.SimultaneousSlices` on whole files, exported, filtered and merged |
| `Exchange.TiedZonesNeverMeet` | internal/sync/sync.go:281-284 | two zones tied at one key stay apart after any number of rounds, whatever else the nodes hold |
| `Exchange.TiedDefaultsSwap` | internal/sync/sync.go:220-225 | two defaults tied with different notes or switches have changed places after every odd number of rounds and are back after every even one |
| `Quiescence.ChangesAreBounded` | internal/sync/sync.go:235-287 | over any batches merged into one slice, no more of them change it than there are versions, when key and stamp determine the version |
| `Quiescence.AtRestLiveViewsAgree` | internal/sync/sync.go:235-287 | two slices that learn nothing from each other show the same live items iff no shared key is stuck on a tie |
| `Quiescence.MeshAtRestAgrees` | internal/sync/sync.go:113-349 | any number of nodes of which none learns anything from any other show one live view |
| `Settling.SyncChangesAreBounded` | internal/sync/sync.go:113-349 | in any run of exports, losses, repeats and deliveries, refused saves included, no more steps change an item of a kind than there are pairs of a node and a version |
| `Settling.RestingMeshAgrees` | internal/sync/sync.go:113-349 | once every delivery between any two nodes is saved and changes nothing, all nodes show one live view |
| `Deletion.TombstonePass` | internal/server/server.go:379-391 | the first matching item becomes a tombstone stamped now (a default is switched off too); nothing named is an error and changes nothing |
| `Deletion.NamesIff` | internal/server/server.go:379-391 | a request names a default by address and port as written, others by ID |
| `Deletion.FirstPassSays` | internal/server/server.go:379-391 | field by field: one item changes, and is dead, stamped with the request's time and author, switched off if a default, else as it was |
| `Deletion.RemovePass` | internal/server/server.go:400-412 | the first matching item is spliced out, everything else stays |
| `Deletion.RemoveKeepsOthers` | internal/server/server.go:681-718 | hard-deleting one key leaves what every other key holds |
| `Deletion.RemovedIsAbsentIff` | internal/server/server.go:400-412 | the second pass leaves the key absent iff the position it removes is the only one with that key; always so with distinct keys |
| `Deletion.AbsentKeyReturns` | internal/sync/sync.go:248-256 | an absent key becomes present by a merge iff an admitted live copy came in |
| `Comeback.DeletedKeyComesBack` | internal/server/server.go:379-412 | two nodes with equal items: one sends, the other deletes in both passes and then receives; the key is absent in between and live again afterwards, as the version that was deleted |
| `Telling.UntoldStaysLive` | internal/server/server.go:377-412 | over any run in which no node exports while it holds a tombstone of a key, every node that holds the key live and leaves it alone keeps a live version, whatever is deleted elsewhere and delivered |
| `Telling.ToldIsDead` | internal/sync/sync.go:259-267 | a node that lets such a tombstone in, no older than its version, holds the key live no longer |
| `Mesh.RunSafe` | internal/sync/sync.go:119-136 | over every run of edits, deletes, exports, losses, repeats and merges: a private version is in no envelope and only where it was edited, every version comes from a local edit up to fields saving fills in, and no default lacks a port |
| `Mesh.SavedFromDraft` | internal/config/store.go:335-361 | whatever a save leaves was in the draft up to a missing stamp, author or port |
| `Resurrection.NoResurrection` | internal/sync/sync.go:247-276 | once no node and no envelope holds a live version of a key, no run of other edits, deletes, exports, losses, repeats and merges makes one |
| `Resurrection.HeldVersionNeverAges` | internal/sync/sync.go:258-287 | a node whose own edits and deletes do not drop a key or date it back never moves it to an older version, so a tombstone stamped t never yields to a live version stamped t or earlier |
| `Files.ConfigFile.Validate` | internal/config/config.go:190-327 | accepts iff the declarative predicate holds, leaving the file normalised; otherwise names a problem the file really has and leaves exactly the fields filled in that come before it |
| `Files.ConfigFile.CheckDefaults` | internal/config/config.go:200-218 | sets missing ports in place, up to the bad entry when there is one; accepts iff every live default is well formed, counts something iff one can serve |
| `Files.CheckZones` | internal/config/config.go:233-288 | accepts iff every zone is well formed and live clean names are pairwise distinct |
| `Files.CheckRecords` | internal/config/config.go:290-325 | accepts iff every record is well formed and live (lower name, upper type) pairs are pairwise distinct |
| `Grammar.AcceptsIff` | internal/config/config.go:175-327 | without the model's predicates: accepted are exactly the files whose items have the shapes of a grammar over letters, digits, dots and colons, whose live names are pairwise different, and which have a zone or a live enabled default |
| `Grammar.IPv4Is` | internal/config/config.go:175-188 | four dot-separated runs of one to three digits |
| `Grammar.DomainIs` | internal/config/config.go:175-188 | labels of 1 to 63 characters and a top-level one of letters, after an optional `*.` |
| `Grammar.AcceptedRecordValue` | internal/config/config.go:309-322 | in an accepted file an A value has four octets and no colon, an AAAA value only hexadecimal digits and colons, a CNAME value two or more labels |
| `Grammar.EachTypeHasValues` | internal/config/config.go:309-322 | and each type has values |
| `Files.ConfigFile.StampItems` | internal/config/store.go:335-361 | fills stamp and author exactly where they are missing, in all three slices |
| `Header.SavedStamps` | internal/config/store.go:335-361 | every saved item has the draft's stamp and author, or the save's where the draft had none, and the draft's flags |
| `Header.SavedHeader` | internal/config/store.go:214-218 | time, author and version of a saved file are the save's; settings and peers are filled in |
| `Header.RunComplete` | internal/config/store.go:335-361 | over any run whose saves have a clock and an actor no version anywhere lacks a stamp, an author or a port |
| `Header.FilledInAndCopied` | internal/config/config.go:190-346 | what acceptance fills in and what a copy changes, and that nothing else moves |
| `Header.DefaultsFilledIn` | internal/config/config.go:25-85 | settings and peers keep what is given and get the built-in value for what is not |
| `Files.ConfigFile.Clone` | internal/config/config.go:329-346 | a new object with the same value, an empty list of defaults becoming a missing one |
| `Validation.ValidationIsFixedPoint` | internal/config/config.go:190-327 | an accepted file is accepted again and unchanged |
| `Store.ConfigStore.Load` | internal/config/store.go:59-102 | publishes the parsed, seeded, accepted file with its hash; when none exists, writes and publishes the built-in one; on failure changes nothing |
| `Store.SeedingFillsGaps` | internal/config/store.go:282-315 | a value in the file wins; the environment stands in for a missing one and touches nothing else |
| `Store.ReadFillsGaps` | internal/config/store.go:59-102 | what is loaded is the parsed text with gaps filled from the environment and then from the built-in values |
| `Store.BuiltInSays` | internal/config/store.go:249-270 | the built-in file has one live enabled default, the usual ports, and no peers |
| `Store.BootstrappedSays` | internal/config/store.go:59-102 | the file written on first start has the environment's peer settings and is signed by the bootstrap |
| `Store.ConfigStore.ReloadIfChanged` | internal/config/store.go:149-172 | one poll: publishes only changed content that parses and is accepted |
| `Store.PollKeepsLastGood` | internal/config/store.go:149-172 | over any contents polled after a load the store shows the most recent good one |
| `Store.ConfigStore.Save` | internal/config/store.go:181-247 | commits iff every step up to the rename succeeds, publishing a fresh object for the mutated, stamped, normalised clone; otherwise disk, published object and hash are untouched |
| `Store.BootstrapIsGood` | internal/config/store.go:249-270 | the built-in file is accepted and needs nothing filled in |
| `Outcomes.SaveDecided` | internal/config/store.go:214-222 | stamping and the header decide nothing: a save refuses exactly the drafts validation refuses as they are |
| `Outcomes.ZonesOnlyFileIsFrozen` | internal/config/config.go:194-199 | a mutation that leaves the defaults alone is saved iff the file has defaults and the rest of the draft is acceptable |
| `Outcomes.GoodFileSavesIffDefaults` | internal/config/config.go:329-346 | a published file can be saved as it stands iff it has defaults |
| `Outcomes.ZonesOnlyFileExists` | internal/config/config.go:197-199 | a good file without defaults, whose text is read back from disk and on which no mutation that leaves the defaults alone is saved |
| `Outcomes.MergeThawsOnlyWithDefault` | internal/config/config.go:336-338 | a merge into such a file is saved iff an admitted live default comes in and the rest is acceptable |
| `Outcomes.MergeClashIff` | internal/sync/sync.go:235-287 | with distinct keys, the merged items of a kind may live side by side iff no two different keys end at live versions with one clean name, or one name and type |
| `Outcomes.MergeSavedIff` | internal/config/config.go:190-327 | for an accepted file with distinct keys and any envelope of well-formed items, the merge is saved iff defaults are left, a route is left and no two keys clash |
| `Outcomes.ClashRefused` | internal/config/config.go:248-253 | for any file and envelope, two keys that end at clashing versions make the save refuse the envelope |
| `Twins.TwinZonesRefusedIff` | internal/config/config.go:248-253 | a good file on two nodes, one zone added on each under different IDs and one name: both files are good, and the first refuses what the second exports iff the zone is meant for it and inside the window |
| `Twins.TwinZonesForEverIff` | internal/sync/sync.go:240-245 | that lasts for ever iff the window is off or the zone has no stamp |
| `Twins.CorpTwins` | internal/config/config.go:233-253 | the built-in file and two concrete zones meet the hypotheses of `Twins.TwinZonesRefusedIff` |
| `Savers.InterleavingsSafe` | internal/config/store.go:149-241 | every interleaving of the savers' steps and the poller's read, comparison and publish keeps one lock holder, a readable disk that holds the last commit's text, and an accepted file in memory |
| `Savers.InStepIffNoStalePoll` | internal/config/store.go:149-172 | memory agrees with the last commit at every moment, except between rename and publish, iff no poll publishes a text that was renamed away after the poll read it |
| `Savers.NoLostUpdate` | internal/config/store.go:193-241 | without such a poll every commit built on the one before it, and when the lock is free the published file is the loaded one with every committed attempt applied in commit order |
| `Savers.StalePollLosesUpdate` | internal/watcher/watcher.go:140-150 | read, save, publish: the poll puts the old file back in memory, and the next save overwrites the committed text with one built on the old file |
| `Sharing.PeerStore.Save` | internal/config/store.go:205-241 | a save whose draft shares the array of peers: what is published afterwards, committed or refused, read off the array itself |
| `Sharing.Mutate` | internal/server/server.go:964-1033 | the three requests on the shared array: the draft gets what was asked for, and the list published before reads as its residue |
| `Sharing.AddSays` | internal/server/server.go:964-973 | a peer is added at the end iff its name is free |
| `Sharing.UpdateSays` | internal/server/server.go:993-1012 | an update changes, in the first peer of that name, exactly the fields given, unless the URL is bad |
| `Sharing.DeleteSays` | internal/server/server.go:1025-1033 | a delete takes out the first peer of that name |
| `Sharing.MissingSays` | internal/server/server.go:993-1033 | a name that is not there is refused by update and delete |
| `Sharing.RefusedUnseenIff` | internal/server/server.go:993-1030 | a refused request leaves the published list alone iff it adds, asks for what is there, or removes a peer followed only by copies of itself |
| `Sharing.RefusedDeleteUnseenIff` | internal/server/server.go:1025-1033 | with distinct names a refused delete goes unseen iff it names nobody or the last peer |
| `Sharing.RefusedDeleteShows` | internal/server/server.go:1025-1033 | two peers, the first deleted and the save refused: the published list names the second one twice |
| `Sharing.FaithfulIff` | internal/config/store.go:205-241 | over any run of requests the published list is at every point the committed requests' and nothing else's iff every refused one was harmless when it came |
| `Pinger.ConcurrentPinger` | internal/unbound/proxy/ping.go:114-138 | for any completion order the result is the minimum positive round trip, 0 if none, and the map is that order's |
| `Pinger.BestIsLeast` | internal/unbound/proxy/ping.go:125-138 | the best time is the least positive one, and 0 iff none is positive |
| `Pinger.LastWriterStays` | internal/unbound/proxy/ping.go:125-130 | whoever takes the mutex last for an address decides its entry |
| `Pinger.DistinctOrderIrrelevant` | internal/unbound/proxy/ping.go:119-132 | with distinct addresses every address ends with its own ping in every order |
| `Pinger.SurvivesEveryOrder` | internal/unbound/proxy/ping.go:125-130 | with repeats, some address ends at the best time in every order iff all pings of some address took it |
| `Selection.Rank` | internal/unbound/proxy/proxy.go:269-300 | tags and filters the upstream's records by the shared map and the minimum |
| `Selection.AddressesPick` | internal/unbound/proxy/proxy.go:273-279 | pinged are the values of the A and AAAA records, in order |
| `Selection.StoredPicks` | internal/unbound/proxy/proxy.go:280-300 | stored is the reply with measured times filled in, and of that, when a ping succeeded, in order the aliases and what took the best time |
| `Selection.StoredAreFastest` | internal/unbound/proxy/proxy.go:289-300 | with distinct addresses no stored address is slower than any that answered |
| `Selection.LeastLatencySelection` | internal/unbound/proxy/proxy.go:289-300 | stored are, in order, aliases and the addresses at the minimum positive round trip, at least one; all records if every ping failed |
| `Selection.ScheduleLeavesNoTrace` | internal/unbound/proxy/proxy.go:269-300 | with distinct addresses and equal round trips two probes store the same records, in whatever orders their pings finish |
| `Selection.SurvivalIsKept` | internal/unbound/proxy/proxy.go:280-300 | an address record is stored iff some address ends at the best time |
| `Selection.Handle` | internal/unbound/proxy/proxy.go:394-452 | from what its three reads of the records find: failure on an empty first read, one common time to live in 1..60 and at most every positive one of the second, the matching records of the third in order, the response codes |
| `Selection.TornReplyIff` | internal/unbound/proxy/proxy.go:400-451 | the reply is the one a single read of the last records would give iff these are not empty and have the same common time to live as those it was taken from, or give no answers |
| `Selection.AnswersPick` | internal/unbound/proxy/proxy.go:413-444 | the answers are, in order and under the name asked for, the aliases and the parsable addresses of the type asked for |
| `Selection.AnswersByType` | internal/unbound/proxy/proxy.go:415-431 | an A record answers only A questions and an AAAA record only AAAA questions |
| `Selection.TtlIsLeast` | internal/unbound/proxy/proxy.go:406-411 | the time to live is the least positive one cached, capped at 60 |
| `Selection.AnswerTtlIsCommon` | internal/unbound/proxy/proxy.go:413-444 | every record of an answer carries that time to live and the name asked for, and comes from a cached record |
| `Proxy.Server.RebuildZones` | internal/unbound/proxy/proxy.go:201-242 | an entry exactly per wanted zone, the same object when its settings did not change, otherwise new and empty |
| `Proxy.Server.TabledIff` | internal/unbound/proxy/proxy.go:208-240 | a name has an entry iff some live zone with the switch, no wildcard and an upstream has it; the last such zone settles it |
| `Proxy.SetFor` | internal/unbound/proxy/proxy.go:216-231 | an entry is set to the first upstream, at port 53 unless it names one, and to five minutes unless the zone says otherwise |
| `Proxy.FqdnIs` | internal/unbound/proxy/proxy.go:215 | an absolute name has one dot more unless it ends in one |
| `Proxy.Server.Serve` | internal/unbound/proxy/proxy.go:381-403 | format error without a question, server failure for unknown zones, otherwise the reply from whatever the unlocked reads of the entry's records find |
| `Proxy.Server.FoundIffLowerCase` | internal/unbound/proxy/proxy.go:388-391 | after a rebuild, some question is answered from a wanted zone's entry iff its absolute name has no upper-case letter |
| `Proxy.UpperCaseZone` | internal/unbound/proxy/proxy.go:205-222 | a zone that validation accepts and the proxy wants, and that no question finds |
| `Probes.TableIsRebuilt` | internal/unbound/proxy/proxy.go:201-242 | the table in the state machine meets the contract of `Proxy.Server.RebuildZones` |
| `Probes.MatchesIff` | internal/unbound/proxy/proxy.go:216-234 | an entry is kept for a zone iff upstream and interval are those the zone asks for |
| `Probes.CacheProvenance` | internal/unbound/proxy/proxy.go:201-306 | over every interleaving of rebuilds, probe starts, replies and finishes: a probe in flight asks for the name and upstream its entry still has, and records under a name are the ping selection from a reply to that name through the entry's own upstream |
| `Probes.EmptyMeetsInv` | internal/unbound/proxy/proxy.go:73-81 | a server that has just started meets the invariant |
| `Probes.StaleProbeIsInvisible` | internal/unbound/proxy/proxy.go:302-306 | a probe finishing for an entry outside the table changes no records the table leads to, at once or after any further steps |
| `Queries.QueryGetsReply` | internal/unbound/proxy/proxy.go:388-451 | a query with any steps of others before each of its reads gets the reply of `Selection.Handle` for what the last finishes of probes of its entry had left |
| `Queries.TornTtlIff` | internal/unbound/proxy/proxy.go:406-451 | no record answered from runs out before the answer's time to live iff no finish between the two reads brought one below it |
| `Queries.TornAnswer` | internal/unbound/proxy/proxy.go:406-451 | from any state, a refresh between the two reads gives an answer that outlasts its record iff the time to live read before is longer |
| `Queries.StaleFinishSeenIff` | internal/unbound/proxy/proxy.go:302-306 | over all continuations, some client gets something else because of a stale finish iff a query that already holds the dropped entry can tell the records apart at its remaining reads |
| `Queries.StaleProbeSeen` | internal/unbound/proxy/proxy.go:390-392 | a run from the start in which a query is answered with a stale probe's records while the table is empty |
| `Unbound.Generate` | internal/unbound/generate.go:20-146 | the text is the specified lines, each ended by a newline |
| `Readback.GeneratedReadsBack` | internal/unbound/generate.go:65-145 | a line reader recovers the expected data, default block and zone blocks |
| `Printout.GeneratedSays` | internal/unbound/generate.go:65-145 | in terms of the items: in order, the live records' fields, all before any block; a "." block that is there iff a live default is enabled, with exactly those; and each live zone without `*.`, with its upstreams or the proxy; every block without TLS |
| `Printout.EnabledPicks` | internal/unbound/generate.go:91-97 | the defaults forwarded to are, in order and with repeats, exactly the live ones switched on |
| `Printout.ServerSectionReads` | internal/unbound/generate.go:22-63 | the lines of the server section read as its settings |
| `Printout.ListenSays` | internal/unbound/generate.go:26-28 | interface and port are those of the listen address |
| `Printout.CacheSays` | internal/unbound/generate.go:33-36 | both caches have the configured size, times to live stay within a minute and a day |
| `Printout.DnssecSays` | internal/unbound/generate.go:37-42 | the validator is in the chain iff the settings ask for it |
| `Printout.LoggingSays` | internal/unbound/generate.go:43-45 | the last verbosity is 2 iff queries are to be logged, and 1 otherwise |
| `Printout.ServerAllows` | internal/unbound/generate.go:51-63 | queries from everywhere are allowed, and so is forwarding to the loopback proxy |
| `Printout.ProxyTargetSays` | internal/unbound/generate.go:119-123 | least-latency zones go to the proxy's host, with its port unless that is 53 |
| `Printout.TrailerSays` | internal/unbound/generate.go:142-143 | remote control is switched off at the end |
| `Readback.RecordDataParses` | internal/unbound/generate.go:74-86 | every accepted record's line splits back into absolute name, TTL, upper-case type and value |
| `Readback.BuiltInProxyAddress` | internal/unbound/proxy/proxy.go:34-37 | the built-in proxy address meets the hypotheses of the read-back theorem |
| `HostPort.SplitKeepsUpstream` | internal/unbound/generate.go:155-188 | an accepted upstream is emitted as written iff it has no colon |
| `HostPort.BareIPv6Loses` | internal/unbound/generate.go:155-188 | an accepted upstream that is not |
| `HostPort.BareHost` | internal/unbound/generate.go:155-188 | a host alone gets the default port |
| `HostPort.ScanNegative` | internal/unbound/generate.go:155-188 | the sign of a port is read |
| `HostPort.BracketedSplits` | internal/unbound/generate.go:155-188 | a bracketed host keeps its brackets and its port comes after the colon |
| `Audit.SplitLines` | internal/audit/audit.go:77-90 | the index loop yields the lines of the text |
| `Audit.Log.Write` | internal/audit/audit.go:26-48 | appends exactly one entry, stamped if it had no time |
| `Audit.Log.Tail` | internal/audit/audit.go:50-75 | the last n entries written, in order; all of them for n not positive |
| `Audit.TailOfLog` | internal/audit/audit.go:60-73 | splitting, cutting and decoding the text of any entries gives the tail of the entries |
| `Audit.LastIsSuffix` | internal/audit/audit.go:60-66 | the last n are a final stretch of that length, or everything |
| `Audit.BadLinesSkipped` | internal/audit/audit.go:66-73 | lines that are empty or do not decode are passed over wherever they are |
| `Audit.GoodLineRead` | internal/audit/audit.go:66-73 | and a line that decodes gives its entry |
| `Decimal.Itoa` | internal/sync/sync.go:366-386 | stays inside its 20-byte buffer and prints sign and digits for every 64-bit integer |
| `Decimal.PrintedParses` | internal/sync/sync.go:366-386 | the printed form parses back iff the integer is not the minimum |
| `Decimal.UpstreamKeyInjective` | internal/sync/sync.go:362-364 | keys are equal iff lowered addresses and ports are, colons in addresses included |
| `PeerList.NormalizePeerList` | internal/server/server.go:1114-1130 | the loop with its seen-set computes the normal form |
| `PeerList.NormalIsClean` | internal/server/server.go:1114-1130 | entries are trimmed, non-blank and distinct up to case |
| `PeerList.NormalGrows` | internal/server/server.go:1114-1130 | each entry adds its trimmed form at the end iff it is not blank and the first of its name up to case |
| `Text.TrimSpaceIs` | internal/server/server.go:1117 | trimming takes away exactly the blanks, tabs and line ends around a text |
| `Text.CaseIs` | internal/config/config.go:166-169 | case is changed in letters only, and only there |
| `PeerList.NormalIdempotent` | internal/server/server.go:1114-1130 | normalising twice is normalising once |
| `PeerList.NormalisingPreservesVerdict` | internal/config/config.go:159-173 | exactly when normalising leaves SyncsToPeer's verdict unchanged, for every list and peer |

## Left out

- TLS, pre-shared keys and request authentication: libraries without logic of their own.
- HTTP handlers, routing, templates and client scripts, except the delete and peer mutations and peer-list normalisation.
- Sockets, ICMP and DNS exchange: their results are inputs.
- Echo-push suppression and the retry loop around a locked save: wall-clock timing.
- The config watcher apart from its poll, and supervision of unbound.
- Convergence of the settings block: it compares a file time with an envelope time, not stamps on the settings.
- Unicode: case mapping and white space are those of ASCII; strings are sequences of characters.
- Time arithmetic saturation: durations are unbounded integers.
- Files.ConfigFile.Clone: takes slices as values, so it does not express what a copy shares with the original: the list of peers, which `Sharing` models, and each item's upstreams and sync peers, into which no request writes in place.
- Store.ConfigStore.Save: takes the mutation as a function on values, so for requests on the list of peers its claim about a refused save is the one that `Sharing.FaithfulIff` limits; the interleaved savers share this view.
- The report returned to a pushing peer: computed by a merge into a copy taken before the save, so it need not be the tally of the merge that is saved.
- The two clock readings inside one save are one parameter.
- Edits of the file by other processes: covered by `Store.PollKeepsLastGood`, not by the interleaved savers or the mesh.
- A crash between writing and renaming, and partial writes to the audit log.
- Quiescence.ChangesAreBounded: speaks of one slice; the mesh with admission, saving and refusals is in `Settling.SyncChangesAreBounded`.
- Torn slice headers: each unlocked read of an entry's records finds one value that was stored there.
- Unbound.Generate: collects the lines before joining them, where the source appends to one builder.
