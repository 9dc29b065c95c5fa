# Syfrah: a verified model of its stateful cores

Syfrah runs virtual machines on a mesh of nodes. This project models, in Dafny,
the parts of it whose correctness depends on many steps or on arithmetic, and
proves what they promise over every input, every run or every interleaving.

| module | what it models |
|---|---|
| `Calendar`, `Timestamp`, `Text` | day counts to dates and back, and the timestamp text of runtime metadata |
| `TokenBuckets`, `RateLimiting` | the API rate limiter: one bucket per key behind an aggregate bucket |
| `Journal` | the idempotency journal with its 24-hour lifetime, collection and snapshots |
| `Cidr` | allowlist matching by shift and mask |
| `OrderedKeys`, `LogStore` | the Raft log store: an ordered cache over durable tables with decimal string keys |
| `Phase`, `KillChain` | the VM phase graph, the kill chain in both its copies, and VM deletion |
| `Reconnect` | recovery of VMs from runtime directories after a restart |
| `Refcounts`, `Interleaving` | the VM manager and its monitor, one operation at a time and interleaved |
| `Prelude` | word-size arithmetic and `Option` |

`dafny verify dfyconfig.toml` checks everything.

How the outside world enters. Clock readings are parameters. Liveness of a
process, answers of the hypervisor API, the outcome of directory removal and of
table writes, and the library's IP address parser are parameters too; in
`KillChain` they are functions of everything done so far, so they stand for any
world that reacts to the chain. API calls are cut off at the client's 10 second
timeout. Sleeping is the only other thing that takes time there. Instants and token counts
of the limiter are reals. Integers that the source keeps in `u64` or `i64` are
reduced where the reduction can matter, as a release build reduces them. A stored log
entry stands for its serialised text. Table deletions succeed, since the source
drops their errors.

What the proofs found out about the code:

- The date conversion is the Gregorian calendar exactly while the day count is
  below 2^63 - 719468, and on the one day 9223372036854145980 past that. For the
  146096 days after the limit the era is found with a wrap and the date comes out
  wrong, except on that day, the last of an era. Every `u64` number of
  seconds is far below the limit.
- The journal keeps a recorded command from running again for 24 hours, but
  checking and recording are two calls: callers that check a key before the first
  of them records are all told it is new.
- A failed `save_vote`, `save_committed` or `purge` write leaves cache and table
  apart unless the value was already stored; a failed `append` never does. The log
  itself is unharmed, and writing the mark again brings them together.
- `truncate_after` the index `u64::MAX` wraps to zero and deletes the whole log.
- `save_committed(None)` clears the mark in the cache only, so a restart brings
  a mark back that had been cleared.
- A crash inside `truncate_after` leaves a gap at every point between its first
  and last deletion. A crash inside `purge` leaves one only when the purge goes
  past the end of the log and is not finished.
- A reconnect pass on a live manager (`layers/compute/src/manager.rs:1542`) can put
  a created VM under another image without touching the counts, which leaves its
  first image counted and unused. The condition is exact.
- The timestamp parser skips fields that are no numbers, so a text with extra ones
  still parses, and it does not check that months, days or hours are in range.
- Image counts are conserved while no two creations or deletions of one id
  overlap and nothing is recovered. The step that breaks them otherwise is characterised exactly.
- The manager can bring a failed VM back to `Running` by a shutdown and a start,
  which no run of legal phase edges can. The comment in `kill_vm_inner` allows
  `Starting` too (`layers/compute/src/process.rs:808`); the phase graph does not, and the model follows the
  code.
- Deleting a VM that is starting, provisioning or pending neither signals nor
  looks at its process.

## Model

| member | source | states |
|---|---|---|
| Calendar.DaysToYmdIsCivil | layers/compute/src/runtime_container.rs:1473-1486 | for every `u64` day count, the closed form in the widths of the source gives the date reached by stepping the Gregorian calendar that many days from 1970-01-01 if and only if the count is below 2^63 - 719468 or is 9223372036854145980 |
| Calendar.InEraRange | layers/compute/src/runtime_container.rs:1477-1481 | whatever day of an era the wrapped division leaves, the year is below 800 and no later `u64` subtraction underflows |
| Calendar.WindowIsCivilOnce | layers/compute/src/runtime_container.rs:1475-1477 | in the 146096 days past the limit, where finding the era wraps, the date is right on exactly one day |
| Calendar.DaysToYmdIncreases | layers/compute/src/process.rs:283-296 | below that limit, later days give later dates and only they do |
| Calendar.DateRoundTrip | layers/compute/src/runtime_container.rs:1508-1518 | a valid date from 1970 on survives conversion to a day and back if and only if its day number is below the limit or is that one day, and the day number is the exact one |
| Calendar.DayRoundTrip | layers/compute/src/runtime_container.rs:1473-1518 | every day count below the limit gives a valid date that converts back to it |
| Calendar.YmdToDaysIncreases | layers/compute/src/runtime_container.rs:1508-1518 | lexicographic order of dates is the order of their day counts, for all dates whose count fits `u64` |
| Calendar.NextDayNumber | layers/compute/src/runtime_container.rs:1508-1518 | the next calendar day has the next day number, across month ends, leap days and year ends |
| Calendar.CivilOfDayNumber | layers/compute/src/runtime_container.rs:1473-1518 | in exact arithmetic, the two closed forms are inverse on every valid date of any year, before 1970 too |
| Timestamp.ParseFormat | layers/compute/src/runtime_container.rs:1453-1505 | every `u64` second parses back from its printed text, years of more than four digits included |
| Timestamp.FormatParse | layers/compute/src/runtime_container.rs:1453-1505 | the text of any valid date and time from 1970 on parses to the seconds the calendar gives it, and printing those gives the text back |
| Timestamp.ParseRender | layers/compute/src/runtime_container.rs:1489-1505 | splitting, filtering and number parsing recover the six fields of a rendered text, whatever their values |
| Timestamp.RenderShape | layers/compute/src/runtime_container.rs:1459-1469 | up to year 9999 the text has the 20 characters, separators and field order of section 5.6 of RFC 3339 |
| Timestamp.ParseMeans | layers/compute/src/runtime_container.rs:1489-1505 | what any text with one `T` parses to: the seconds of its three date numbers and three time numbers, wherever fields that are no numbers stand between them and however many `Z` follow, and nothing when there are not three of each |
| Timestamp.FieldsOf | layers/compute/src/runtime_container.rs:1491-1497 | every text with one `T` has the fields that `ParseMeans` speaks of |
| Timestamp.ParseNeedsOneT | layers/compute/src/runtime_container.rs:1491-1494 | a text with no `T` or with several does not parse |
| Timestamp.NumbersKept | layers/compute/src/runtime_container.rs:1495-1497 | of the fields, those that spell a `u64` are kept in order and all others dropped |
| TokenBuckets.TokenBucket.NewAt | layers/api/src/rate_limit.rs:71-78 | a new bucket is full at its creation instant |
| TokenBuckets.TokenBucket.Refill | layers/api/src/rate_limit.rs:96-102 | refill adds elapsed time times rate up to the capacity, and nothing for an instant that is not later |
| TokenBuckets.TokenBucket.TryConsume | layers/api/src/rate_limit.rs:82-94 | new state and verdict of one request against the bucket the lemmas below are about; a rejection carries the wait of the bucket it leaves |
| TokenBuckets.ConsumeKeepsSound | layers/api/src/rate_limit.rs:82-102 | tokens stay between zero and the capacity, and rate and capacity never change |
| TokenBuckets.ConsumePaysPotential | layers/api/src/rate_limit.rs:82-102 | for any window, a grant inside it lowers what the bucket can still grant there by one, and no request raises it |
| TokenBuckets.RetryHintSound | layers/api/src/rate_limit.rs:88-92 | after a rejection, waiting the hinted milliseconds makes the next request succeed if and only if the exact wait fits `u64`; otherwise the hint is the largest `u64` |
| TokenBuckets.RetryHintTight | layers/api/src/rate_limit.rs:88-92 | one millisecond less than the hint is not enough |
| TokenBuckets.GrantedIff | layers/api/src/rate_limit.rs:82-102 | in every run of requests a bucket grants one if and only if one more grant fits what it started with and gained since and, counted from each request up to this one, its burst plus its rate times the time between |
| TokenBuckets.FullGrantedIff | layers/api/src/rate_limit.rs:71-102 | a bucket that starts full rejects nothing that the bound on every window allows, and grants nothing else |
| TokenBuckets.BurstExact | layers/api/src/rate_limit.rs:71-94 | of any number of requests at one instant, a full bucket grants exactly the first `capacity` |
| RateLimiting.RateLimiter.constructor | layers/api/src/rate_limit.rs:120-127 | the limiter starts with no key buckets, 100 requests a second and a burst of 200 for each key, and a full aggregate bucket of 2000 refilled at 1000 a second |
| RateLimiting.RateLimiter.ConsumeKey | layers/api/src/rate_limit.rs:148-164 | the key's bucket is made on first use and charged, and no other bucket changes |
| RateLimiting.RateLimiter.CheckAt | layers/api/src/rate_limit.rs:139-167 | new state and answer of one request: aggregate first, key second; an aggregate rejection touches no key bucket and carries the wait of the aggregate bucket |
| RateLimiting.FreshIsValid | layers/api/src/rate_limit.rs:120-127 | a new limiter is one every theorem on runs applies to |
| RateLimiting.CheckKeepsValid | layers/api/src/rate_limit.rs:139-167 | every bucket stays sound and keeps the configured rate and burst |
| RateLimiting.KeyRateBound | layers/api/src/rate_limit.rs:82-167 | in every run and between any two instants, a key is admitted at most burst plus rate times the time between them |
| RateLimiting.AggregateRateBound | layers/api/src/rate_limit.rs:82-167 | the same for all keys together, with the aggregate burst and rate |
| RateLimiting.LazyCreation | layers/api/src/rate_limit.rs:151-154 | a bucket made at the first request behaves as one that was full since any earlier instant |
| RateLimiting.KeyIsolation | layers/api/src/rate_limit.rs:139-167 | in every run, a key is judged and its bucket moved as one bucket alone that is fed exactly those requests of the key that the aggregate let through |
| RateLimiting.AggregateCharged | layers/api/src/rate_limit.rs:139-167 | in every run, the aggregate bucket judges and moves as one bucket alone that is fed all requests, whatever the keys answer, and its rejections carry its own waits |
| RateLimiting.AggregatePassesIff | layers/api/src/rate_limit.rs:139-146 | in every run from a full aggregate, a request passes it if and only if one more charge since each request up to it stays within the aggregate burst and rate |
| RateLimiting.KeyAdmittedIff | layers/api/src/rate_limit.rs:148-166 | in every run, a request of a new key that passed the aggregate is admitted if and only if one more admission since each passed request of the key stays within its burst and rate |
| Journal.IdempotencyJournal.Check | layers/controlplane/src/idempotency.rs:58-75 | the answer from the stored entry, its age and its fingerprint |
| Journal.IdempotencyJournal.Record | layers/controlplane/src/idempotency.rs:78-87 | the key's entry is replaced by one made now, and no other changes |
| Journal.IdempotencyJournal.Gc | layers/controlplane/src/idempotency.rs:90-96 | exactly the entries more than 24 hours old go, the others stay as they are, and the number of those gone is returned |
| Journal.IdempotencyJournal.ToEntries | layers/controlplane/src/idempotency.rs:99-102 | a list with each entry once, in some order |
| Journal.IdempotencyJournal.Restore | layers/controlplane/src/idempotency.rs:105-111 | the journal becomes the list inserted in order |
| Journal.InsertedIsLatest | layers/controlplane/src/idempotency.rs:105-111 | after a restore from any list each key has its last entry in the list |
| Journal.RestoreSnapshot | layers/controlplane/src/idempotency.rs:99-111 | restoring a snapshot in any order gives the same journal |
| Journal.ReferenceMeans | layers/controlplane/src/idempotency.rs:58-75 | from the full history: a key without a record is new; otherwise its last record decides new, duplicate or conflict, by its age against 24 hours and its fingerprint |
| Journal.StepKeepsAgreement | layers/controlplane/src/idempotency.rs:58-111 | every operation keeps the journal at the latest record of each key, less only expired ones; a collection leaves exactly the latest records that are not expired |
| Journal.NeverForgets | layers/controlplane/src/idempotency.rs:58-111 | under a clock that does not step back, every run answers as a journal that never collects, expires or snapshots |
| Journal.EmptyJournalNeverForgets | layers/controlplane/src/idempotency.rs:51-55 | the same for every run of a new journal |
| Journal.AdmittedMeans | layers/controlplane/src/idempotency.rs:58-75 | in every run, a check is answered new if and only if the entry the run started with and every earlier record of the key are more than 24 hours old |
| Journal.RunsAgainIff | layers/controlplane/src/idempotency.rs:58-87 | after one caller is told new, a later one is told new too if and only if every record of the key made in between is more than 24 hours old |
| Journal.RecordBlocks | layers/controlplane/src/idempotency.rs:58-87 | a recorded key is new again only more than 24 hours after the record, through any collections, snapshots and other keys |
| Journal.OverlappingCallers | layers/controlplane/src/idempotency.rs:58-87 | two callers of a new journal that both check before either records are both told new |
| Cidr.AndMask | layers/api/src/apikey.rs:341-357 | masking with the shifted all-ones word rounds an address down to its block, for every width and prefix |
| Cidr.MatchIsInterval | layers/api/src/apikey.rs:336-361 | an entry matches exactly the addresses of its aligned interval, and gives no answer for another family or too long a prefix |
| Cidr.ShorterPrefixMatches | layers/api/src/apikey.rs:341-357 | a match at a prefix is a match at every shorter one |
| Cidr.NestedOrDisjoint | layers/api/src/apikey.rs:341-357 | two blocks of a family are nested or disjoint |
| Text.ParseUnsignedMeans | layers/api/src/apikey.rs:323 | number parsing reads exactly the numerals of the numbers below its limit, with leading zeros and one leading `+` allowed |
| Cidr.MatchBare | layers/api/src/apikey.rs:325-332 | a text without a slash matches the one address it parses to, does not match others of that family, and gives no answer for another family or when it does not parse |
| Cidr.MatchBlock | layers/api/src/apikey.rs:322-361 | an address, a slash and a number match exactly the block of that many leading bits, and give no answer when either does not parse, for another family or for too long a prefix |
| Cidr.MatchIsPermission | layers/api/src/apikey.rs:321-361 | a text permits an address exactly when it has no slash and parses to that address, or its part before the first slash parses to an address of the same family and the number after it spells a prefix whose block holds the address |
| Cidr.CidrContainsIp | layers/api/src/apikey.rs:310-319 | the list accepts exactly the addresses that some entry permits by its text |
| LogStore.RedbLogStore.Open | layers/controlplane/src/log_storage.rs:46-70 | opening tables that hold a reference log, listed in any order, gives a store that is that log |
| LogStore.RedbLogStore.TryGetLogEntries | layers/controlplane/src/log_storage.rs:74-86 | a range read is the slice of the reference log between the two indices, in order |
| LogStore.RedbLogStore.GetLogState | layers/controlplane/src/log_storage.rs:104-128 | the cached purge mark and the last entry, which falls back to that mark; the last is the end of the reference log whenever the mark was written or the log is not empty |
| LogStore.RedbLogStore.SaveVote | layers/controlplane/src/log_storage.rs:134-141 | from any store with an intact log, also one a failed write left: the log stays intact, and the votes of cache and table agree afterwards if and only if the write succeeds or the vote was already in the table |
| LogStore.RedbLogStore.SaveCommitted | layers/controlplane/src/log_storage.rs:143-155 | the same for the committed mark, and nothing is written for none |
| LogStore.RedbLogStore.Append | layers/controlplane/src/log_storage.rs:161-182 | the reference log grows by the entries written before a failure, cache and table agree even then, no mark changes, and every table a crash can leave is listed |
| LogStore.RedbLogStore.DeleteUpward | layers/controlplane/src/log_storage.rs:194-198 | keys leave cache and table together, lowest first, and every table on the way is listed |
| LogStore.RedbLogStore.TruncateAfter | layers/controlplane/src/log_storage.rs:184-200 | the reference log is cut after the given index if and only if that index is not `u64::MAX` or the log is empty, and is emptied otherwise; cache and table agree |
| LogStore.RedbLogStore.DropThrough | layers/controlplane/src/log_storage.rs:211-217 | the entries up to the mark leave cache and table |
| LogStore.RedbLogStore.Purge | layers/controlplane/src/log_storage.rs:202-218 | the reference log starts after the mark; a failed mark write changes only the mark in the cache and can be tried again |
| LogStore.PositionSplits | layers/controlplane/src/log_storage.rs:80-216 | reads, truncation and purging keep exactly the entries whose index is in range, below the cut, or above the mark |
| LogStore.ReopenRebuilds | layers/controlplane/src/log_storage.rs:54-61 | decimal keys rebuild the log they mirror, whatever the listing order |
| LogStore.RebuiltMeans | layers/controlplane/src/log_storage.rs:54-61 | from any table at all, opening gives an index the last row listed whose key spells it, and nothing else |
| LogStore.Restart | layers/controlplane/src/log_storage.rs:46-70 | reopening any store with an intact log gives the same log and a store whose marks agree; the vote survives if and only if it was written, and after no failed write the committed mark survives if and only if it is set or was never written |
| LogStore.CrashInAppend | layers/controlplane/src/log_storage.rs:169-181 | a crash at any point of an append reopens to the old log with a prefix of the new entries, without a gap |
| LogStore.CrashInPurge | layers/controlplane/src/log_storage.rs:202-218 | a crash after any number of purge deletions reopens without a gap if and only if they were all done or the purge stops inside the log |
| LogStore.CrashInTruncate | layers/controlplane/src/log_storage.rs:193-198 | a crash inside a truncation reopens without a gap if and only if no deletion or every deletion was done |
| Phase.DyingForGood | layers/compute/src/phase.rs:52-70 | no run of legal edges from failed, deleting or deleted is ever active again |
| Phase.StrictOrder | layers/compute/src/phase.rs:3-70 | a transition is allowed if and only if it is one place on in the life of a VM, a failure of work in progress, the deletion of a failed VM, or the restart of a stopped one |
| Phase.ReachableEnds | layers/compute/src/phase.rs:52-102 | a phase can become active if and only if it is not one of those three, every phase can reach deleted, and exactly the terminal phase has no edge out |
| KillChain.Host.WaitForPidExit | layers/compute/src/process.rs:248-261 | polls and sleeps as the wait that `WaitEnds` is about |
| KillChain.WaitEnds | layers/compute/src/process.rs:248-261 | the wait ends within its timeout rounded up to whole polls, reports an exit exactly when a poll saw the process dead, and otherwise lasts the whole timeout |
| KillChain.PollSpacing | layers/compute/src/process.rs:248-261 | the polls of a wait are 200 ms apart |
| KillChain.Host.ChStop | layers/compute/src/runtime_ch.rs:238-320 | the second copy of the chain does exactly the level list's actions and succeeds exactly when an exit was seen |
| KillChain.Vm.Transition | layers/compute/src/phase.rs:74-83 | the phase moves along legal edges only |
| KillChain.Vm.KillLevels | layers/compute/src/process.rs:813-895 | the first copy of the chain does exactly the level list's actions |
| KillChain.Vm.KillVmInner | layers/compute/src/process.rs:797-899 | from running or stopping: stopped after a seen exit with the directory removal attempted, failed with the directory kept after surviving SIGKILL; from any other phase an error and nothing done |
| KillChain.LevelContinues | layers/compute/src/process.rs:821-867 | a level makes its one request within its time budget, waits its whole timeout for a process that took the request and stays, and does not wait at all after a failed API call |
| KillChain.ChainEnds | layers/compute/src/process.rs:813-893 | for every world: a prefix of graceful, force, SIGTERM, SIGKILL in order, each right after seeing the process alive, nothing after seeing it dead, at most 65.1 s, or 25.1 s when forced |
| KillChain.ChainPatient | layers/compute/src/process.rs:813-893 | a process that takes every API call and survives is given at least 45.1 s, or 15.1 s when forced |
| KillChain.RemovedOnlyWhenDead | layers/compute/src/process.rs:813-898 | the runtime directory is removed only last, right after seeing the process dead |
| KillChain.StopBothWays | layers/compute/src/runtime_ch.rs:253-319 | both copies leave the same trace and differ only in that the first reports a failed removal |
| KillChain.Vm.KillThenDelete | layers/compute/src/process.rs:925-942 | deletion goes on after the chain exactly when an exit was seen and the directory went |
| KillChain.Vm.FinishDelete | layers/compute/src/process.rs:964-977 | the API call and the removal are tried once each and never stop the deletion |
| KillChain.Vm.DeleteVm | layers/compute/src/process.rs:908-981 | result, phases gone through and actions taken, from each of the nine phases; outside running and stopping no signal is sent and no liveness is looked at |
| KillChain.DeleteEnds | layers/compute/src/process.rs:908-981 | every deletion ends deleted, or stopped or failed, from which the next one ends deleted; every change is a legal edge except the forced one from pending |
| Reconnect.RuntimeBase.ScanAll | layers/compute/src/process.rs:990-1009 | directories with and without metadata, in listing order |
| Reconnect.RuntimeBase.CleanupOrphan | layers/compute/src/process.rs:1387-1429 | reports whether the removal works, and the directory goes exactly then |
| Reconnect.RuntimeBase.CleanBare | layers/compute/src/process.rs:1160-1190 | every directory without metadata is reported, and those that can be removed are gone |
| Reconnect.RuntimeBase.ReconnectWithMeta | layers/compute/src/process.rs:1192-1336 | the report on directories with metadata, and which of them are gone |
| Reconnect.RuntimeBase.Reconnect | layers/compute/src/process.rs:1151-1349 | the report on the whole listing; exactly the removable orphans are gone |
| Reconnect.PartsAddUp | layers/compute/src/process.rs:1160-1336 | recovered, failed, orphaned and skipped containers add up to the scanned directories |
| Reconnect.RecoveredMeans | layers/compute/src/process.rs:1265-1336 | recovered if and only if some directory's metadata names the VM, its process lives and its socket answers |
| Reconnect.LostMeans | layers/compute/src/process.rs:1244-1289 | failed if and only if some directory's metadata names the VM and the process is dead, or lives with a silent socket |
| Reconnect.OrphansMean | layers/compute/src/process.rs:1160-1240 | orphaned if and only if metadata is missing, or unreadable and not a container's |
| Reconnect.SecondRun | layers/compute/src/process.rs:1151-1349 | a second run in the same world reports the same VMs in any listing order, and finds no orphan if and only if every orphan could be removed |
| Refcounts.VmManager.ImageRefcount | layers/compute/src/manager.rs:421-424 | the count, which is the number of VMs on the image while nothing was recovered |
| Refcounts.VmManager.CreateVm | layers/compute/src/manager.rs:1024-1066 | tracked and counted once, or nothing changed; counts never pass the tracked VMs and stay exact |
| Refcounts.VmManager.DeleteVm | layers/compute/src/manager.rs:1349-1416 | untracked and uncounted once, or nothing changed; counts never pass the tracked VMs and stay exact |
| Refcounts.VmManager.Recover | layers/compute/src/manager.rs:1539-1546 | tracked and not counted; counts keep below the tracked VMs if and only if the id was untracked, had no image or the same one, or its old image was counted less often than used; they stay exact if and only if the image is the same |
| Refcounts.RecoverOvercounts | layers/compute/src/manager.rs:1539-1546 | a VM created here and found again under another image or none leaves its first image counted once and used by no VM |
| Interleaving.StepKeepsLocked | layers/compute/src/manager.rs:1089-1174 | every step keeps each lock with the start or stop that took it and each free VM settled |
| Interleaving.RunKeepsLocked | layers/compute/src/manager.rs:1089-1174 | in every state of every interleaving, a VM whose lock is free is running, stopped or failed |
| Interleaving.EdgesTaken | layers/compute/src/manager.rs:1089-1174 | in every interleaving a phase changes if and only if the step's own VM is in the phase it starts from, and for the monitor has a free lock: a start from stopped, its end, the end of a shutdown, and the monitor's from running to failed for every dead or silent VM |
| Interleaving.EdgesLegal | layers/compute/src/phase.rs:52-70 | of those, all are legal edges except the end of a shutdown, which never is |
| Interleaving.NewVmsRun | layers/compute/src/manager.rs:995-1028 | a VM enters the manager running and unlocked, by a creation that booted or by a recovery |
| Interleaving.StepsRunOut | layers/compute/src/manager.rs:506-1416 | every step brings its own task nearer to its end or begins one, and touches no other task |
| Interleaving.CreatesAlone | layers/compute/src/manager.rs:506-1066 | a creation that nothing interrupts tracks a running VM and counts its image once, or changes nothing |
| Interleaving.DeletesAlone | layers/compute/src/manager.rs:1349-1416 | a deletion that nothing interrupts untracks the VM and uncounts its image once, or changes nothing |
| Interleaving.ShutsDown | layers/compute/src/manager.rs:1139-1155 | a shutdown that nothing interrupts leaves the VM stopped from any phase, or changes nothing |
| Interleaving.StartsUp | layers/compute/src/manager.rs:1089-1112 | a start that nothing interrupts brings a stopped VM to running, or to failed |
| Interleaving.StartRefused | layers/compute/src/manager.rs:1091-1100 | a start of a running or failed VM changes nothing |
| Interleaving.MonitorPass | layers/compute/src/process.rs:1030-1125 | a monitor pass that nothing interrupts marks failed exactly the tracked VMs that are running with a free lock and are dead, or are no container and do not answer, and leaves every other VM as it was |
| Interleaving.SweepEnds | layers/compute/src/process.rs:1042-1125 | from every reachable state a monitor pass comes to its end in at most two steps for each VM |
| Interleaving.MonitorSeesSettled | layers/compute/src/process.rs:1041-1125 | a VM the monitor can lock, before or after its ping, is never starting |
| Interleaving.SurplusLaw | layers/compute/src/manager.rs:1024-1066 | for every step and image: count plus pending increments less tracked VMs and pending decrements changes by exactly the step's drift |
| Interleaving.ConservedIff | layers/compute/src/manager.rs:1392-1406 | from a conserved state, a step conserves every image's count if and only if it drifts for none |
| Interleaving.NeverClips | layers/compute/src/manager.rs:1397-1406 | the saturating subtraction always finds at least one to take away |
| Interleaving.DisciplinedStepConserves | layers/compute/src/manager.rs:1392-1406 | a step drifts for no image while no other creation or deletion works on its id |
| Interleaving.RunConserves | layers/compute/src/manager.rs:1024-1406 | in every interleaving without overlapping creations or deletions of one id and without recovered VMs, counts are conserved image by image |
| Interleaving.EmptyConserves | layers/compute/src/manager.rs:328 | a new manager is a state every theorem on interleavings applies to |
| Interleaving.RacingCreationsOvercount | layers/compute/src/manager.rs:509-518 | two overlapping creations of one id both pass the duplicate check and leave two counts owed for one tracked VM |
| Interleaving.FailedRunsAgain | layers/compute/src/manager.rs:1139-1155 | any failed VM whose lock is free is running again after a shutdown and a start |

## Left out

- HTTP and socket clients, request routing and the control dispatch: plumbing around opaque payloads.
- Spawning, signals as system calls, cgroups, image files, cloud-init and downloads: effects outside the program, present only as answers of the world.
- Networking, IPAM, placement and volume hot-plug in `layers/compute/src/manager.rs`: they drive stores that are not part of this model.
- The Raft client, leader forwarding, gossip, scheduler and state machine sources.
- API key generation, hashing, rotation and the key file.
- Configuration validation, preflight and the transport frame: single-pass checks that would only add easy members.
- `VmManager::reconnect` as a whole: the recovery properties are about `process::reconnect`, whose scan the runtime's own scan repeats.
- Rounding of floating point in the limiter, reuse of process ids, cancelled tasks and poisoned locks.
- Events, log lines and the error texts carried by results.
- LogStore.RedbLogStore.Append: the caller's contract of openraft, appending at the end with consecutive indices, is its precondition; so is a purge mark that does not move back for `Purge`.
- KillChain.WaitEnds: a sleep lasts exactly its nominal time and a liveness check takes none.
- Interleaving.RunKeepsLocked: volume attach and detach and status reads, which take the lock without writing the phase, are not steps.
