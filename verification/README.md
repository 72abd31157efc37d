# Duplicate Finder: a verified model

Duplicate Finder is a Synology package. Its daemon scans folders for duplicate
files, conflicting copies and empty folders, and moves what the user selects
through File Station, the NAS's own file service. This project models the
parts of the daemon whose mistakes would cost data and proves what they
promise. `dafny verify dfyconfig.toml` checks all of it.

Modules, by the part of the daemon they follow:

- Moving files. `KeepOne` decides which copy of each duplicate group a request
  must hold back; `MoveRuns` and `MoveServer` follow whole requests (vet, move
  file by file, prune) and any sequence of them; `MoveOut` tells moved copies
  from originals; `Exclusion` interleaves scans and requests. `FileStation` is
  the file service as the daemon sees it: a shared tree, answers that get lost,
  other writers racing for names. `StagedMove` and `Transit` are the two move
  protocols run against it, `JournalLines` and `Journal` the write-ahead record
  and its replay after a crash, `Batches` whole batches cut short anywhere,
  `Records` the files the move records survive in.
- Scanning in bounded memory. `FolderTree` defines the topmost empty folders of
  a tree recursively, `FolderStream` and `EmptyFolders` find them from a stream
  of walk entries. `Counter` finds repeated keys in a packed table. `SpillFile`
  is the record format on disk; `Spills`, `Windows` and `Grouping` the
  partitioned content pass with its skew ladder against one global grouping
  (`Picking` has the lemmas on filtered lists they share).
  `Ranking`, `Listing`, `GroupTop` and `CorruptTop` are the bounded listings
  against sort-then-cut. `Refine`, `Copies` and `Reclaim` are what the results
  page shows.
- Trusting what was read. `HashCache` and `Resume` are the hash store and its
  generation gate over whole histories, `Verdicts` the ladder that calls a copy
  damaged or intact, `ByteSafe` the escape that carries any file name through
  JSON.

Where the daemon updates fields or arrays in place the model is a class or an
array algorithm proved against a specification function; the properties are
proved of that function. Answers of File Station and choices of other writers
come from an arbitrary sequence (`fate`), so that a claim over every sequence
covers every run, and a chosen one shows a run that fails; reads of content,
crashes and failed writes are nondeterministic.

## What does not hold as promised

Eight promises fail in corner cases. The code is modelled as it is; the condition
proved is exact, and a run or an input shows each failure.

- What is said of a staged move. It is untrue in three cases and no other
  (`StagedMove.MoveViaFS`): it says failed, or parked, although the file landed
  (a bare 1000 or 1001 refusal of the direct move hid that it took effect, and
  the probe of the destination or the one of the source went unanswered); parked
  although the file never left (the move into staging took no effect, was not
  acknowledged, and its probe went unanswered); parked although the file is in
  the destination (the last hop took effect, and its answer and probe were
  lost). `LandsUnseen`, `NeverStaged` and `HopUnseen` are such runs. A retired
  original has its own three, and a fourth when it is a folder: its removal can
  fail partway, and what is left is put back and reported as the original kept
  beside its copy (`Transit.RetireOriginal`, `HiddenUnseen`, `PutBackUnseen`,
  `DeletedUnseen`, `PartlyDeleted`). Nothing the copy does not hold is lost.
- The journal's outcome line. It takes the place of what the lines before it put
  on record, and in four cases it does not name where the file is, so that the
  copy is forgotten: the first and third case above, a move reported as moved
  but not seen to arrive, and a verified move whose final hop took effect with
  its answer lost and the copy not seen or not recognised
  (`Batches.MoveOne`, `Batches.CopyEntry`; the runs are the two above,
  `StagedMove.ArrivalUnseen` and `Transit.CopyUnseen`). Up to that line, and for
  every other outcome, nothing is forgotten (`Batches.MoveBatch`).
- The generation gate. A resume can serve reads the run has no claim to after
  three steps: a run opens the store with neither of its two marker writes
  successful while another run's marker stands at its generation or one it has
  passed; a store with entries cannot be read for one scan only, which starts at
  generation one again; the marker of a finished run can be neither removed nor
  emptied. Without them it never does (`Resume.ServesOnlyOwnReads`); after any of
  them a history without further faults does (`Resume.BreakIsFatal`). Marker
  failures are only logged.
- Saved move records can be forgotten without any damage. A save takes its
  snapshot and lets the lock go before it writes, so two that overlap can write
  in the other order: setting the reference folders, or acknowledging a warning,
  during a move can write a snapshot older than the move's over the move's. The
  next start then knows what the late snapshot held and no more
  (`Records.LateWriteIff`, `LateSnapshotForgets`). In order nothing is forgotten
  (`Records.NothingForgottenSilently`).
- The warning that records were lost is not kept until it is acknowledged. The
  results file does not carry it, and the start that gave it set the records
  file aside, so that its save left no previous generation: the next damage to
  the records file alone forgets it (`Records.WarningForgotten`,
  `WarningSurvivesIff`).
- A records file that was deleted, rather than damaged, is a loss nobody is
  told of when the results cannot be read either (`Records.SilentLossIff`).
- The reclaimable figure promises more than a move delivers for a file with a
  name outside the listed group, which moving the listed ones does not free.
  `Reclaim.NeverOverstates` and `ProtectedFigure` say exactly when,
  `EqualSizesIff` gives the check for copies of one size, and `PromisesTooMuch`
  is such a group.
- A moved folder that is put back where it came from is not an original again:
  the data of its files stays on record, and only the folder's own place counts
  as one something was taken from (`MoveOut.RestoredFolderIff`,
  `RestoredFolderStaysOut`).

## Assumptions

- Paths are canonical and given by their components; display and canonical
  forms coincide.
- Hashes are injective on content, path tags on paths, and a file's content is
  stable within a scan. An entry whose type, size and modified time are
  unchanged holds what it held. The formatted time is injective on seconds.
- Generation numbers do not wrap.
- A coded refusal of a direct move means the move had no effect, except for the
  bare failure codes 1000 and 1001; of a final hop or a rename always; of a move
  into staging never; of a removal always, but for a folder's. A lost answer may
  hide either outcome; only a direct move may still take effect later. An answered
  probe is truthful.
- Other writers only add entries at free names, never under a folder whose name
  the daemon drew at random nor at the place an entry is just being taken from.
  In a verified move they may rewrite the original until it is hidden.
- Between two duplicates scans nobody but the daemon removes scanned files. A
  row is a file, never a reference folder, and no row lies in an `@eaDir`
  folder, the only sub-folder a folder confirmed empty may hold.
- A records or store file that cannot be read stays so, unless said otherwise.
- The container check of equal contents agrees, or could not finish; comparing
  equal contents shows no difference.
- `container/heap` and sorting are stood in for by sorted sequences; hashes by
  numbers or strings compared for equality.

In the table below source paths are relative to the repository's root.

## Model

| member | source | states |
|---|---|---|
| KeepOne.KeepOneDropsWhy | server/move.go:1253-1356 | the paths held back are exactly the best candidate of every group no counted copy of which stays, with the two reasons exactly where they apply |
| KeepOne.HoldBack | server/move.go:1256-1353 | one group holds back at most one path: none while a counted copy stays, else the copy of the highest grade, the last among equals |
| KeepOne.FindOriginal | server/move.go:1269-1291 | whether an original counts: a requested one by standing there, a staying one only once it holds the content |
| KeepOne.WeighStaying | server/move.go:1292-1309 | which copies the request leaves in place: a survivor, moved copies that do not count, copies read and found changed |
| KeepOne.RankCandidates | server/move.go:1297-1335 | the candidates in order: an existing original, any existing copy, an original, any copy, the last of each kind first |
| KeepOne.Pick | server/move.go:1339-1347 | the chosen candidate is the best by presence, content and originality, under verification the first that still holds the content |
| KeepOne.EveryGroupKeepsOne | server/move.go:1218-1232 | every group with a row keeps one: some member stays or is held back, and nothing that stays anyway is ever held |
| KeepOne.NoNeedlessHold | server/move.go:1321-1323 | a path is held only for a group no counted copy of which survives, and only if it was requested |
| KeepOne.BestKindStays | server/move.go:1223-1232 | while an original is there one stays or is held, and one that holds the content while there is such a one |
| MoveRuns.ProtectedStays | server/move.go:594-632 | no file of a request, nor any folder moved whole, takes a held copy, a keeper, a reference file or a row nobody asked for |
| MoveRuns.RequestKeepsSafe | server/move.go:46-358 | one request, whatever the client names and whatever becomes of each file, keeps: rows and keepers in place, groups of two or more, every scanned group listed or kept |
| MoveRuns.KeepOneForever | server/daemon.go:50-59 | over any sequence of requests every scanned group has a member no request took, listed in a group of two or more or a keeper |
| MoveRuns.BestKindStaysPut | server/move.go:561-580 | after the whole request an original of the group is in place if one was, and one holding the content if one did |
| MoveRuns.PrunedGroupsMeaning | server/move.go:1115-1139 | a pruned group of two or more stays listed; a lone survivor becomes a keeper |
| MoveServer.RequestedPaths | server/move.go:486-512 | the requested set: the files named and every listed member beneath a folder named |
| MoveServer.Server.Refuse | server/move.go:594-632 | the request-level refusals: held copies, keepers, folders holding either, reference files, paths not allowed |
| MoveServer.Server.PruneMoved | server/move.go:1075-1153 | exactly the rows that moved, or lay in a moved folder, go, although rows of other names are skipped unjudged |
| MoveServer.Server.HandleMove | server/move.go:46-358 | the request as it updates the daemon: vet, file by file, prune; the state after is safe whenever it was before |
| MoveServer.Server.ScanDone | server/scan.go:229-240 | a finished duplicates scan replaces the groups and forgets the keepers |
| MoveOut.Covers | server/moveout.go:136-146 | true exactly when the path or an ancestor of it is recorded |
| MoveOut.MovedCopyIsRecognised | server/moveout.go:53-72 | a landed copy is a moved copy where it landed and wherever in its share it is carried |
| MoveOut.RestoredIsOriginal | server/moveout.go:61-65 | a file put back where it came from is an original again exactly unless that place lies where moves landed |
| MoveOut.RestoredFolderIff | server/moveout.go:106-132 | a file of a moved folder that was put back is an original again exactly when its data is not on record, it has several names, or something was taken from its own place, and that place lies nowhere moves landed |
| MoveOut.RestoredFolderStaysOut | server/moveout.go:118-130 | a folder moved and put back whose file is taken for a moved copy |
| MoveOut.RecordingIsMonotone | server/moveout.go:170-180 | recording another move forgets no moved copy, except at the place that move took from |
| Exclusion.VettedIsPruned | server/move.go:80-105 | at every moment of every interleaving no scan and move overlap, nor two moves, and a move prunes the groups it vetted |
| Exclusion.StepKeepsInv | server/daemon.go:88-127 | each critical section keeps the exclusion invariant |
| Exclusion.Flags.AdmitScan | server/daemon.go:96-104 | a scan is admitted exactly when neither a scan nor a move runs |
| Exclusion.Flags.BeginMove | server/daemon.go:111-119 | a move claims its slot exactly when no scan runs |
| Exclusion.Flags.EndMove | server/daemon.go:123-127 | the claim is dropped |
| FileStation.World.Move | server/fsapi.go:370-448 | a move never lands on an existing name, and only where a flushed journal line named it; its answer may be lost either way |
| StagedMove.MoveViaFS | server/fsapi.go:774-860 | the entry is always at exactly one of source, staging folder and destination, no entry that was there changes, and the report is true exactly when the conversation with File Station was not one of three misleading shapes |
| StagedMove.SettledTruth | server/fsapi.go:764-769 | each shape is untrue in its own way: landed behind a refusal, never staged, or landed by a hop nobody saw; any other report is true |
| StagedMove.MoveDirect | server/fsapi.go:784-833 | the first attempt: over with a report that is untrue exactly if it hid a landing, or on to staging |
| StagedMove.Refused | server/fsapi.go:811-832 | a bare failure code: the move may have taken effect, and goes unseen exactly when one of the two probes does |
| StagedMove.SettleDirect | server/fsapi.go:798-806 | a lost answer: reported landed, moved or unsettled, each as it is |
| StagedMove.StageAndClaim | server/fsapi.go:834-859 | staging and claiming leave the entry where the report says but for the three shapes, all told apart by the calls made |
| StagedMove.SettleStaging | server/fsapi.go:847-858 | a failed move into staging is reported parked unless the entry is confirmed absent there, wrongly exactly when it took no effect and the probe went unanswered |
| StagedMove.ClaimFromStaging | server/fsapi.go:871-924 | the entry lands at the reported name or is parked in the staging folder, and is in the destination though said to be parked exactly when the last hop took effect and answer and probe were lost |
| StagedMove.FinalHop | server/fsapi.go:883-916 | one attempt at the last step; tried again only while the entry still waits in staging |
| StagedMove.FirstFreeName | server/fsapi.go:1107-1132 | the first of the numbered variants of the name that is free, all earlier ones taken |
| StagedMove.SourceLeaves | server/fsapi.go:934-949 | true only once the entry is at the destination |
| StagedMove.Arrived | server/fsapi.go:957-966 | the entry at the destination is recognised as the one that left, or its arrival reported unproved |
| StagedMove.LandsUnseen | server/fsapi.go:821-824 | a run that reports a failed move although the file landed |
| StagedMove.NeverStaged | server/fsapi.go:854-856 | a run that reports the file parked although it never left its source |
| StagedMove.HopUnseen | server/fsapi.go:907-912 | a run that reports the file parked although it is in the destination |
| StagedMove.ArrivalUnseen | server/fsapi.go:957-966 | a run that moves the file and reports it moved without a place to record |
| Transit.TransitViaFS | server/transit.go:186-253 | either nothing was moved and the original is at its place, or a copy read back and matched is in place and nothing was deleted that it does not hold; a copy is left in the destination without a name exactly when the last hop took effect and was not seen or not recognised |
| Transit.PlaceCopy | server/transit.go:202-249 | copied, read back and put in place with the original untouched; which failures leave a copy, and where |
| Transit.RetireOriginal | server/transit.go:282-322 | the original is deleted only re-checked under a hidden name beside a verified copy; it is where it is said to be exactly when no request that took effect lost both its answer and a probe that should tell, and whole besides exactly when no folder's removal ended partway |
| Transit.HideOriginal | server/transit.go:288-294 | the original is taken for hidden only when it is, and for left in place wrongly exactly when answer and probe were lost |
| Transit.RestoreOriginal | server/transit.go:328-338 | what is said of putting the original back is true exactly when the rename back did not lose its answer and one of its two probes |
| Transit.HiddenUnseen | server/transit.go:291-293 | a run that reports the original left in place while it is hidden |
| Transit.PutBackUnseen | server/transit.go:332-337 | a run that reports it not put back while it is |
| Transit.DeletedUnseen | server/transit.go:316-320 | a run that reports it still there while it is deleted |
| Transit.PartlyDeleted | server/transit.go:309-321 | a run that reports a folder kept beside its copy while only part of it is left |
| Transit.CopyUnseen | server/transit.go:239-249 | a run that leaves a verified copy in the destination with the original in place and no name returned |
| Transit.DiscardCopy | server/transit.go:260-273 | an unused copy is removed only while the original stands at its own path |
| Transit.Source.Delete | server/transit.go:309-321 | the deletion demands a copy of exactly what it destroys; of a folder it may leave any part and report a failure |
| Transit.CopyMatches | server/transit.go:122-136 | true exactly when the copy has the same names with the same type, content and link target |
| Transit.Unchanged | server/transit.go:140-151 | true exactly when the folder has the same names with the same type, size, time and link target |
| Transit.RecheckedCopy | server/transit.go:275-281 | a copy that matched what was read, beside an original unchanged since, holds what the original holds now |
| JournalLines.Log.Ahead | server/journal.go:156-164 | a place is announced only once its line is flushed |
| JournalLines.Log.Staging | server/journal.go:168-176 | so is a staging folder |
| Journal.ReadLines | server/journal.go:235-258 | the whole lines of the file; a last one without its newline is left out |
| Journal.CutReadsPrefix | server/journal.go:232-234 | a file cut at any byte reads as a prefix of the lines written, with every line that ended before the cut |
| Journal.AheadFate | server/journal.go:198-213 | an announced place is on record or pending until the entry's own outcome is written |
| Journal.ReplayCovers | server/journal.go:264-352 | cut anywhere past the lines that announce a place, the replay records it, unless it is in hidden staging or the outcome was written |
| Journal.CrashIsCovered | server/journal.go:10-12 | at any step of a move and any cut past the flushed lines, a replay covers where the entry is and every place it was sent to |
| Journal.OutcomeIsReplayed | server/journal.go:303-311 | a surviving outcome line is replayed whole: its records, its rows, its folders |
| Journal.OnlyOutcomesPrune | server/journal.go:303-311 | and nothing else prunes a row |
| Journal.ReplayMoveJournal | server/journal.go:264-352 | the replay adds exactly those records and prunes exactly those rows |
| Journal.ReplayTwice | server/journal.go:343-350 | replayed again after the save it changes neither records nor rows nor keepers |
| Batches.MoveOne | server/move.go:184-284 | the outcome line of a flat move tells where the file is exactly unless it landed unseen or was not recognised, and drops the row rightly exactly unless a probe hid the landing or the stay |
| Batches.MoveEntry | server/move.go:184-284 | wherever the journal is cut past what is flushed, before the outcome line, the entry is at its source, in hidden staging or on record; and the outcome line tells what it tells |
| Batches.CopyEntry | server/transit.go:186-253 | the same for a verified move: its outcome forgets the copy exactly when the final hop left it in the destination without a name |
| Batches.UntoldIsForgotten | server/move.go:222-260 | a place its outcome line does not tell is on record after it only if an earlier entry was put there |
| Batches.StaysOnRecord | server/journal.go:281-319 | a place on record at one cut is on record at every later one, unless an outcome comes before the next entry's start |
| Batches.GrowthKeeps | server/journal.go:281-319 | so an entry accounted for at every cut stays so however later entries lengthen the journal |
| Batches.CrashMidBatch | server/journal.go:10-12 | in the middle of an entry every cut accounts for it and for all before it |
| Batches.MoveBatch | server/move.go:178-284 | however far a batch gets and wherever its journal is then cut, every file that had its turn is at its source, in hidden staging or on record, unless File Station's answers left it forgotten; the others were not touched |
| EmptyFolders.ScanFolders | server/emptyfolders.go:73-126 | rows and reported remainder are all topmost empty folders of the walk, and with roots outside one another, or where no two rows share a path, the rows are the first 20000 by path |
| EmptyFolders.EmptyFolderScan.Visit | server/emptyfolders.go:224-274 | one walk entry takes the step of the uncapped scan |
| EmptyFolders.EmptyFolderScan.PopFrame | server/emptyfolders.go:192-222 | so does leaving a folder |
| EmptyFolders.EmptyFolderScan.MarkTopHasFile | server/emptyfolders.go:153-163 | so does learning that a folder holds a file, whose waiting rows are then released |
| EmptyFolders.EmptyFolderScan.AddEmptyChild | server/emptyfolders.go:168-178 | so does receiving an empty child, kept or counted past the cap |
| EmptyFolders.EmptyFolderScan.NoteUnreadable | server/emptyfolders.go:279-285 | so does an unreadable folder |
| EmptyFolders.EmptyFolderScan.Drain | server/emptyfolders.go:290-301 | and the last frames, after which the rows are the first 20000 of everything handed on and the rest is counted |
| FolderTree.TopmostMeaning | server/emptyfolders.go:76-93 | a folder is a row exactly when its subtree holds no real file or unreadable folder and the one around it does or is a root |
| FolderStream.ScanFindsTopmost | server/emptyfolders.go:94-99 | on any sorted walk of any forest the open frames yield exactly the recursive definition, each folder once, with its subtree's junk |
| FolderStream.KeptAreFirst | server/emptyfolders.go:101-127 | what the caps left out never belongs to the first 20000 |
| Ranking.BoundedTop.Add | server/stream.go:578-588 | the bounded heap keeps the first rows of everything offered, in listing order |
| Ranking.BoundedTop.Final | server/stream.go:592-598 | they come out sorted, with the number dropped |
| Ranking.AddStep | server/stream.go:551-588 | evicting the worst kept row for a better one is cutting the sort of everything |
| Listing.CapCutIndex | server/duplicates.go:628-638 | the cut is the longest prefix within the budget, never less than one group |
| Listing.BoundedCut | server/stream.go:640-652 | holding budget/2+1 groups of two or more is enough to know the cut of all |
| Listing.FinalAgrees | server/duplicates.go:600-627 | cutting what was kept is cutting the whole listing, with the same groups, counts and files |
| Listing.FinishedIsListing | server/duplicates.go:532-574 | what final makes of a tracked accumulation is the listing of everything found, and every file is listed or reported |
| Listing.ListingUnique | server/duplicates.go:600-638 | there is only one such listing of what was found |
| GroupTop.ListGroups | server/duplicates.go:532-574 | the bounded accumulation lists the same groups in the same order as sorting and cutting everything, and every file found is listed or reported |
| GroupTop.Accumulator.Add | server/stream.go:671-685 | one group offered to the bounded heap |
| GroupTop.Accumulator.Final | server/duplicates.go:532-574 | the kept rows cut on a group boundary, no row over the budget, and what is left out counted |
| GroupTop.KeptTracks | server/stream.go:600-622 | whatever was offered, what is kept is the head of the sorted whole and the counters account for the rest |
| CorruptTop.Accumulator.Add | server/corrupt.go:158-174 | a set appended, and past the limit the tail of the sorted list dropped and counted |
| CorruptTop.Accumulator.Final | server/corrupt.go:610-633 | what was appended is sorted once more and cut on a set boundary, and what is left out counted |
| CorruptTop.ListSets | server/corrupt.go:610-651 | however the appends and cuts fell, the sets listed are those of sorting and cutting everything found, with the same counts, and every member found is listed or reported |
| Counter.PackedWrite | server/stream.go:173-182 | writing one two-bit counter of a byte changes no other |
| Counter.KeyCounter.Add | server/stream.go:113-124 | before, across and after the switch to the table every key's slots cover its count |
| Counter.KeyCounter.Degrade | server/stream.go:142-156 | the switch loses no count below two |
| Counter.KeyCounter.Hot | server/stream.go:127-136 | a key added twice is hot; while exact, only such a key is |
| Counter.Distil | server/stream.go:363-373 | every record whose key repeats is kept, and while exact no other |
| Counter.CountedTwice | server/stream.go:68-80 | a key counted twice is one two records share |
| Spills.Materialize | server/stream.go:380-406 | the accepted records, each once, or counted past the limit; a limit they fit within leaves none out |
| Spills.Window | server/stream.go:420-486 | the records of one partition but for exactly the over-full classes, which are named once each; what is left of it past the limit is counted, and nothing is where it fits |
| Spills.ClassesIn | server/stream.go:491-507 | the distinct classes of a partition, each once |
| Windows.HashSubSpill | server/duplicates.go:246-311 | the accepted records tagged by content, or counted as unreadable |
| Windows.ResolveSkewedKey | server/duplicates.go:97-156 | every record of the key reaches one grouping call or is counted, files that belong together reach the same, and where no content is over its cap only unreadable files are left out |
| Windows.ResolveSkewedPrefix | server/duplicates.go:161-218 | the same of every record of the prefix bucket or crowded partition it is given |
| Windows.HashCandidateWindows | server/scan.go:672-722 | the same of every candidate of the scan: one call or counted, belonging files together, and where no cap fires only unreadable files are left |
| Grouping.DupWindow | server/duplicates.go:354-518 | the groups of one window are exactly the classes of equal key and content with two readable files or more |
| Grouping.PassesKeepGroups | server/duplicates.go:382-432 | the passes by key and by prefix drop no member of a group |
| Grouping.WindowedIsGlobal | server/scan.go:663-671 | with every readable file shared out some call's group is the global one and no other call has any of it |
| Grouping.WindowedScan | server/scan.go:672-722 | the windowed scan finds exactly the groups of one global grouping where no cap fires, whatever cannot be read |
| Grouping.DistilKeepsGroups | server/stream.go:359-373 | the distilled candidates hold every group of the walk whole |
| Grouping.ScanWalk | server/scan.go:609-722 | counter, distilled candidates and windows together find exactly the groups of the whole walk where no cap fires |
| HashCache.Cache.Lookup | server/hashcache.go:211-232 | a hash is served exactly for the same path, size, time and prefix under this generation |
| HashCache.Cache.PriorContentChanged | server/hashcache.go:249-277 | history is reported exactly when captured for this path or held by another generation with another prefix |
| HashCache.Cache.Record | server/hashcache.go:287-333 | a change is reported exactly against another generation's entry for the same file, and trimming gives up history last |
| HashCache.Cache.TrimMidScan | server/hashcache.go:361-371 | an older entry goes only once none of this generation is left |
| HashCache.Cache.Trim | server/hashcache.go:375-404 | exactly the limit remains, nothing older than the boundary generation |
| HashCache.CutoffOf | server/hashcache.go:380-388 | the boundary is the generation of the last entry within the limit, newest first |
| HashCache.Cache.SaveMid | server/hashcache.go:419-446 | a mid-scan file holds the newest entries up to the limit, none left out newer than one written |
| Resume.NormPathsMeaning | server/persist.go:91-98 | two path lists have one normal form exactly when they name the same folders |
| Resume.NormalMeaning | server/persist.go:74-89 | a request matches exactly when tools, recursion, criteria and the two folder sets are equal |
| Resume.StepKeepsInv | server/handlers.go:286-313 | every step of scans, saves, cancels, crashes and resumes keeps the gate's invariant, but for three |
| Resume.ServesOnlyOwnReads | server/hashcache.go:186-211 | whatever the history without those three steps, a served hash was read by this run or by an unfinished run with an equal request it carries on |
| Resume.BreakIsFatal | server/persist.go:407-452 | after any of the three a history in which nothing but crashes goes wrong serves a read the run has no claim to |
| Resume.LostMarkersHappen | server/persist.go:423-442 | a history that reaches the first: neither of a run's two marker writes succeeds while another request's marker stands |
| Resume.BlinkHappens | server/hashcache.go:141-152 | and the second: a store with entries unreadable for one scan only |
| Resume.StaleMarkerHappens | server/persist.go:444-452 | and the third: a finished run whose marker could not be removed |
| Verdicts.JudgeSet | server/corrupt.go:664-812 | every member ends with a verdict, damage only on positive evidence and always on its own, intact only beside damage, and no content both |
| Verdicts.JudgeWithTwins | server/corrupt.go:931-947 | a label goes to the member and to exactly its unjudged twins |
| Verdicts.LabelKeeps | server/corrupt.go:919-930 | labelling twins keeps the passes from contradicting each other |
| Verdicts.JudgeShape | server/corrupt.go:823-860 | the shape of a difference convicts only the side it speaks against |
| Verdicts.JudgePast | server/corrupt.go:869-883 | so does the comparison with the past |
| Verdicts.Representatives | server/corrupt.go:961-976 | two readable members of different content, or there are none |
| Verdicts.Settle | server/corrupt.go:768-811 | the closing passes decide the rest without contradiction |
| ByteSafe.DecodeEncode | server/bytesafe.go:55-66 | the decoder reads back every encoded scalar value whatever follows (section 4 of RFC 3629) |
| ByteSafe.EncodeDecode | server/bytesafe.go:55-66 | and accepts nothing but the one encoding of a scalar value |
| ByteSafe.RoundTrip | server/bytesafe.go:89-111 | every byte string comes back unchanged |
| ByteSafe.EscapedIsValid | server/bytesafe.go:38-51 | the escaped form is well-formed UTF-8 |
| ByteSafe.EscapeInjective | server/bytesafe.go:44-50 | different strings have different escaped forms |
| ByteSafe.EscapeBytes | server/bytesafe.go:51-69 | loop and fast path compute the same escape |
| ByteSafe.UnescapeBytes | server/bytesafe.go:96-111 | loop and fast path compute the same inverse |
| SpillFile.Uvarint64 | server/stream.go:227-256 | every 64-bit number is read back from its varint whatever follows |
| SpillFile.RecRoundTrip | server/stream.go:275-348 | every in-range record passes the range checks and is read back |
| SpillFile.Spill.AddRaw | server/stream.go:227-256 | one record appended |
| SpillFile.Spill.Each | server/stream.go:275-348 | exactly the records appended, in order |
| Records.Store.Snapshot | server/persist.go:184-209 | what is to be saved is copied under one lock, which is let go |
| Records.Store.Write | server/persist.go:211-241 | a snapshot's three files in order, cut short anywhere |
| Records.Store.LoadState | server/records.go:119-158 | what a start restores and sets aside, and whether it says records were lost |
| Records.DamageIsSurvivedOrSaid | server/records.go:113-118 | whatever files are spoilt after a save, all it held is restored or the loss is said, and said exactly when both current copies are gone |
| Records.WarningSurvivesIff | server/records.go:40-42 | an unacknowledged warning outlives a start exactly when the records file is read, or is spoilt beside lost results or a previous generation that carries it |
| Records.WarningForgotten | server/records.go:75-88 | a run in which it is forgotten without an acknowledgement |
| Records.SilentLossIff | server/records.go:134-143 | a loss goes unsaid exactly when the records file was deleted and the results cannot be read |
| Records.CutSaveIsSurvivedOrSaid | server/records.go:66-91 | a save cut short leaves the last one whole or the one being made, or the loss is said |
| Records.FallsBackOneGeneration | server/records.go:24-29 | with both current copies spoilt the generation before is restored, and the loss said |
| Records.NothingForgottenSilently | server/records.go:1-11 | over any run of moves, scans, cut saves written in the order of their snapshots, damage and restarts no saved move record, and no saved keeper that no scan replaced, is forgotten without a word |
| Records.LateWriteIff | server/persist.go:184-213 | written out of order a snapshot leaves the next start all that was ever saved exactly when it holds that itself, and nothing is said either way |
| Records.LateSnapshotForgets | server/handlers.go:393-402 | a run of two overlapping saves in which a saved move record is forgotten, with no file damaged and nothing said |
| Refine.RefineGroups | server/results.go:631-689 | the narrowed groups, in the parent's order |
| Refine.RefineIsScan | server/results.go:621-630 | narrowing the stored content groups finds exactly the groups a scan with the criteria would |
| Refine.UnknownNeverGroups | server/results.go:627-630 | a file with no known creation time never groups by it |
| Reclaim.GroupReclaim | server/results.go:746-789 | the figure: every copy not protected, less the largest when none is |
| Reclaim.NeverOverstates | server/results.go:733-745 | whichever copy stays, the others occupy at least the figure, exactly it when none is larger; moving them frees as much exactly when those with a name elsewhere occupy no more than the largest copy does beyond the one that stays |
| Reclaim.AllListed | server/results.go:733-745 | with every name of every file listed the figure is always freed |
| Reclaim.EqualSizesIff | server/results.go:733-745 | among copies of one size the figure is freed whichever stays exactly when no file has more names than are listed |
| Reclaim.PromisesTooMuch | server/results.go:746-789 | a group whose figure is a whole copy although moving the other frees nothing |
| Reclaim.ProtectedFigure | server/results.go:735-738 | with protected names the figure is what the unprotected copies occupy, and what moving them frees exactly when none of them that occupies anything has a name elsewhere |
| Reclaim.DisplayIsScanFigure | server/scan.go:935-948 | with nothing protected it equals the figure groups are ranked by |

## Left out

- HTTP handling, sessions, tokens, log rotation, CSV export, the front end: input, output and presentation.
- BLAKE3, FNV, gzip, JSON and the reflection walk of `rewriteStrings`: only the per-string codec is modelled.
- Real file-system calls, inode reads, `/proc/mounts`, symlink resolution: inode identity is data on an entry, and self-mounted shares are part of what a request may not move.
- Media parsers and container validators: a function from members to an answer that may be "unproven".
- Timing, polling delays, progress, task adoption in File Station's task list: nondeterministic replies.
- Cancellation of scans, except in the generation gate, where a cancel is a controlled end.
- Confirming empty folders through File Station after the scan, and the other tools' flat lists beyond their shared bounded heap.
- Batch folders of preserve mode: allocation, and the mirrored chain of origin folders.
- The corrupted-files window pass and its sampling; its accumulator and verdicts are modelled.
- Space checks before a move across volumes, and progress and move reports.
- MoveRuns.KeepOneForever: moves whose outcome is unsettled are taken not to land later, and a file is taken to have left exactly when its move says so, so that a landing hidden behind a refusal (`StagedMove.LandsUnseen`) is outside it; a crash inside a request followed by a replay is the same request with fewer files moved, not a step of its own.
- KeepOne.KeepOneDropsWhy: the memo of verification reads is keyed by path alone in the source; the model reads per path and content, the same while no path is in two groups of different content.
- FolderStream.ScanFindsTopmost: a root that cannot be read at its start and lies inside an earlier one, which only a non-recursive scope has, is not covered.
- EmptyFolders.ScanFolders: nor is it here; with roots nested in one another a folder can be listed twice, and which of two equal paths the cap keeps is not claimed; the counts are.
- FileStation.World.Move: folders move as one entry; a folder File Station moved half of is not modelled.
- Resume.ServesOnlyOwnReads: a marker that cannot be read at a start, which offers no resume.
- Transit.TransitViaFS: the destination tree of a verified move holds the copy as one entry; its size and time, which the source re-reads to recognise it, are a parameter.
- Journal.ReplayCovers: the data keys a replay reads from disk beside each place are not modelled, nor a line torn by a failed write in the middle of the file.
- Batches.MoveBatch: covers flat moves and verified ones; in preserve mode a batch folder is recorded once for its batch. Each file meets a tree of its own, in which what earlier files left is like any other entry. The End line and the removal of the journal after the save.
- Grouping.DupWindow: the group found is given whole; its order by path and its cap are those of the listing modules.
- Refine.RefineIsScan: match keys are compared field by field, not as joined strings.
- HashCache.Cache.Trim: which entries at or above the boundary generation remain is not claimed.
- Reclaim.NeverOverstates: rows of one inode are taken to record one size on disk and one link count; a file whose inode could not be read is taken to have one name.
- Records.Store.LoadState: a crash between setting a damaged file aside and the save that follows.
- SpillFile.Spill.AddRaw: the record count's overflow on 32-bit builds.
