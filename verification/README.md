# Fermata, verified

Fermata is a governed-effect runtime: a proposal is admitted, approved, budgeted, committed through an
adapter, verified and recorded in ledgers. This project models what the runtime decides and what it
writes, and proves what holds over whole runs and interleavings of evaluations.

Whatever the runtime does not decide itself (clocks, identifiers, I/O failures, the answers of adapters,
the steps of other processes) is an argument, so a statement about all arguments is a statement about
all of them. SHA-256 is an injective tag on the value it is taken of. One JSONL append is one atomic
line, except in `TraceLedger`, which is about text. `link` fails if the new name exists and `rename`
replaces in one step (POSIX.1-2017).

`dafny verify dfyconfig.toml` checks everything.

| module | what it models |
|---|---|
| `Wrappers`, `Text` | `Option` and `Result`; `str.strip`, `str.split`, `str.splitlines` and words |
| `Records` | intents, canonical hashes, approval decisions and the gate (`runtime_ir.py`) |
| `RateBudget` | the rolling-window ledger that is compacted at each write |
| `Evaluator` | one evaluation as a function `Evaluate` of ledgers, call and oracle, and the `Sandbox` that updates its ledgers in place and is proved equal to it |
| `Outcomes` | exactly when an evaluation ends which way, for which reason, what its effect and trace say and what it writes, without following its steps |
| `TraceLanguage` | a finite automaton for the traces of evaluations |
| `Dispatch` | which adapter a request goes to, and the interpreter's own rejections |
| `Runs` | serial runs of evaluations in one sandbox, each under a scope of its own |
| `LockProtocol` | any number of processes, one system call at a time, around the advisory lock |
| `Kernels`, `FileCommit` | names, inodes and descriptors with other processes acting before every system call; the commit of a file write against them |
| `MemoryLedger` | paths and the rewrite-all ledger of `memory.write` |
| `TraceLedger` | the tail check of the trace ledger against its full scan |
| `ServiceRecords`, `ServiceLog` | the export of service records, and the handlers that write them, interleaved |
| `Bundle` | `bundle run` and `approve` on a bundle directory |
| `PolicyParser`, `PolicyLines`, `PolicyGrammar` | the policy block parser; the text of its lines and its errors; its language, a printer and the round trip |
| `ScopeLowering` | approval rules of a policy on their way to the gate |

## Where the code and its documentation differ

The model follows the code.

- The comment at `src/fermata/runtime_ir.py:149-153` says that keys protect serial callers only. It
  predates the lock at `src/fermata/runtime_core.py:742-771`; `LockProtocol.AtMostOnce` holds for every
  interleaving.
- The comment at `src/fermata/runtime_core.py:573-577` says that a torn line cannot hide the record that
  was just appended. If the file ends in a torn line and another process appends behind ours, it does:
  `TraceLedger.VerifiedIff` says exactly when, `TraceLedger.TornLineExample` is one instance.
- The rate ledger is described as belonging to a scope, but it is counted, and pruned, per sandbox. Each
  scope keeps to its own budget in windows that no other scope's falls short of; a scope with a longer
  window than its neighbour may overspend: `Runs.OwnBudgetHolds`, `Runs.SharedBudgetHoldsIff`.
- The policy grammar quotes targets, but a comment starts at `//` inside quotes too, so no text declares
  a URL: `PolicyGrammar.NoTextDeclaresUrl`.
- A file commit that is rejected may still have published its content: exactly if the read-back failed or
  the temporary name could not be dropped behind the link (`FileCommit.Commit`);
  `FileCommit.RejectedYetPublished` shows such steps.
- A decision of status `not_required` that the caller brings along clears the gate although the kind
  requires approval: `Records.ClearedDecisionForRequiredKind` says exactly when. "Cleared" below means
  that a decision passed the gate, not that somebody approved.

## Model

| member | source | states |
|---|---|---|
| Records.IntentHashInjective | src/fermata/runtime_ir.py:365-382 | Leaving unset fields out of the canonical record loses nothing: two intents hash alike if and only if they are the same intent, key and custody included |
| Records.GateDecides | src/fermata/runtime_ir.py:475-519 | When the gate opens, and each reason why it does not, as an if and only if over scope, intent id, hash, status and expiry, in the order of the code |
| Records.OwnDecisionIsBound | src/fermata/runtime_ir.py:391-439 | Without a record the runtime asks, or releases by itself, exactly as the kind is gated and the legacy flag says, bound to scope, intent and hash |
| Records.DecisionReleasesOneIntent | src/fermata/runtime_ir.py:442-519 | A recorded decision clears, of all scopes and intents, only the pair it was made for, and that pair if and only if it says yes and has not expired |
| Records.ApprovalClearsTwoIntentsOnlyById | src/fermata/runtime_ir.py:475-519 | An "approved" record clears two different intents exactly if it is bound by intent id alone and they share that id |
| Records.ClearedDecisionForRequiredKind | src/fermata/runtime_ir.py:391-519 | For a kind that requires approval, what clears without being an approval is exactly a "not required" record the caller brought; without a record only the legacy flag clears |
| RateBudget.RateCountRecent | src/fermata/runtime_core.py:329-364 | The counting loop counts the parseable events at or after the threshold |
| RateBudget.RateRecord | src/fermata/runtime_core.py:367-412 | The compacting rewrite is what is still in the window, in order, and then the new event |
| RateBudget.PruningInvisibleIff | src/fermata/runtime_core.py:367-412 | Pruning is invisible to a count, on every ledger, if and only if the count starts no earlier than the pruning did |
| RateBudget.SpendKeepsWindowBounded | src/fermata/runtime_core.py:910-945 | An event that passed the check at its own time keeps every closed window of the history within the budget |
| Evaluator.LastEntry | src/fermata/runtime_core.py:153-185 | What a lookup finds is a record of the scope and key; it finds nothing only if there is none |
| Evaluator.Sandbox.IdempotencyLookup | src/fermata/runtime_core.py:153-185 | The scan over the whole ledger returns its last record under scope and key |
| Evaluator.Sandbox.EvaluateWithAdapter | src/fermata/runtime_core.py:605-641 | The evaluation in place leaves the ledgers, the effect and the trace that `Evaluate` gives, and every lock is given back on every path |
| Evaluator.Sandbox.Run | src/fermata/runtime_core.py:644-771 | Admission and locking, in the order of the code, equal `EvaluateUnstamped` |
| Evaluator.Sandbox.Committable | src/fermata/runtime_core.py:774-908 | Replay or conflict check, prepare, approval and dry-run stop equal `RunCommittable` |
| Evaluator.Sandbox.SpendAndCommit | src/fermata/runtime_core.py:910-1040 | Budget, custody stop, adapter commit and both records equal `Spend` |
| Evaluator.Sandbox.RecordRate | src/fermata/runtime_core.py:1043-1078 | The rate record is written or its failure traced, never raised |
| Evaluator.Trace.Add | src/fermata/runtime_ir.py:213-223 | A trace only grows at its end |
| Outcomes.StatesAre | src/fermata/runtime_core.py:644-1040 | For every scope, call and ledger: exactly when the result is paused, approved, committed or replayed, and exactly when the adapter is called, for which intent |
| Outcomes.OnlyAdmittedIntents | src/fermata/runtime_core.py:656-735 | Whatever is not rejected, and whatever writes anything, was an intent of this adapter and operation, of its capability, which the scope declares, with a string target and an object input |
| Outcomes.AdmissionDecides | src/fermata/runtime_core.py:656-735 | What is not admitted is rejected, with the first reason that applies, and nothing is written |
| Outcomes.ReasonsAre | src/fermata/runtime_core.py:656-945 | Exactly when each of the reasons of admission, key, gate and budget is the one given |
| Outcomes.AdmittedComesTo | src/fermata/runtime_core.py:742-900 | An admitted call is rejected for a ledger that fails, replays, conflicts, is refused by the adapter, or reaches the decision |
| Outcomes.KeyDecides | src/fermata/runtime_core.py:796-848 | Under a key the last record decides: none lets the call go on, the same intent replays it, any other conflicts |
| Outcomes.EffectsSay | src/fermata/runtime_core.py:605-1078 | What each effect says of its names, approval, evidence and custody, and what is added to the ledgers, for every evaluation |
| Outcomes.TracesAre | src/fermata/runtime_core.py:656-1078 | The whole trace of every evaluation, event by event |
| TraceLanguage.TraceDeterminesResult | src/fermata/runtime_core.py:656-1040 | Every trace of every evaluation is in one regular language; the phase it ends in determines the state of the effect and whether the adapter was called; record_only never gets there and a dry run changes nothing |
| TraceLanguage.EventsDecideTheEffect | src/fermata/runtime_core.py:656-1040 | Read off the event list alone: rejected iff it ends in effect.rejected, paused iff in approval.requested and effect.paused, committed iff effect.committed or a replay occurs, really recorded only iff custody.record_only occurs; one adapter start per adapter call, at most one, and granted before |
| TraceLanguage.StartedOnce | src/fermata/runtime_core.py:981-1000 | No word of the language starts the adapter twice |
| TraceLanguage.CommitMark | src/fermata/runtime_core.py:981-1000 | effect.committed occurs exactly in fresh commits |
| TraceLanguage.CustodyMark | src/fermata/runtime_core.py:947-978 | custody.record_only occurs exactly where an approval was only recorded |
| TraceLanguage.ReplayMark | src/fermata/runtime_core.py:826-848 | effect.idempotent_replay occurs exactly in replays |
| TraceLanguage.GrantedBeforeStarted | src/fermata/runtime_core.py:900-985 | approval.granted precedes every start of the adapter |
| TraceLanguage.EndOfWord | src/fermata/runtime_core.py:415-457 | The last events of a word tell rejections and pauses from everything else |
| Runs.OnlySpendChangesAnything | src/fermata/runtime_core.py:774-1040 | An evaluation either changes no ledger and authorizes nothing, or is an admitted, unrecorded intent with a cleared decision and does what the spending step does |
| Runs.LedgerProvenance | src/fermata/runtime_core.py:995-1025 | After every run over any scopes each idempotency record was written by a fresh commit of the intent it hashes, under the scope id it names, with a decision that had cleared for them |
| Runs.KeysAreUnique | src/fermata/runtime_core.py:796-848 | After every run over any scopes no two records share both scope id and key |
| Runs.ReplayRepeatsTheCommit | src/fermata/runtime_core.py:605-641 | In every run a replay equals an earlier fresh commit of the same intent under the same scope id in every field but the trace id, custody included, and carries an approval that had cleared for it then, even if the scope has changed since |
| Runs.RecordOnlyNeverCommits | src/fermata/runtime_core.py:691-697 | In every run over any scopes a record_only intent never comes back committed and never reaches the adapter, even under a key that a commit already holds |
| Runs.DryRunForetells | src/fermata/runtime_core.py:850-908 | A dry run changes nothing; for a keyless intent its rejection or pause is the real result and the trace of its approval is a prefix of the real trace |
| Runs.RateBudgetHolds | src/fermata/runtime_core.py:910-978 | Over every run with a clock that does not go back, for scopes whose windows are at least as long: counts on the compacted ledger equal counts on the full history, the ledger never outgrows the largest budget, and every closed window holds at most that |
| Runs.AuthorizedEffectsBounded | src/fermata/runtime_core.py:1043-1078 | All effects authorized against a budget in a closed window, recorded or not, exceed it by no more than the rate writes that failed in it |
| Runs.OwnBudgetHolds | src/fermata/runtime_core.py:329-412 | Although all scopes of a sandbox are counted together, each keeps to its own budget in windows no longer than any of theirs |
| Runs.SharedBudgetHoldsIff | src/fermata/runtime_core.py:367-412 | A scope with a budget of at least two that shares its sandbox keeps to it in every run if and only if its window is no longer than its neighbour's |
| Dispatch.RunEffect | src/fermata/runtime_api.py:432-496 | The dispatch on a sandbox gives the specified ledgers, effect and trace |
| Dispatch.InterpretEffect | src/fermata/interpreter.py:21-109 | Interpreting goes through the dry run of the serving adapter, or rejects with a trace and an effect that say nothing about custody |
| Dispatch.DispatchTells | src/fermata/runtime_api.py:432-496 | Every trace of the public entry points is in the language and tells the result; only a real run commits, replays or records, and interpreting changes nothing |
| Dispatch.AdapterTable | src/fermata/runtime_api.py:432-496 | The pairs of adapter and operation that are served, with the capability each needs, and no others |
| Dispatch.RequestsGoTo | src/fermata/interpreter.py:21-109 | A served intent goes to its adapter, for real exactly in a real run; everything else is rejected with the interpreter's reason and trace and changes nothing |
| Dispatch.ChangeNeedsClearedDecision | src/fermata/runtime_api.py:432-496 | Whatever changes a ledger or authorizes anything is a real run of an admitted intent, of a capability that the scope declares, whose decision had cleared the gate for it |
| LockProtocol.MutualExclusion | src/fermata/runtime_core.py:236-311 | For any number of processes and every schedule no two are in the critical section of one (scope, key) |
| LockProtocol.LocksAreOnTheStableInode | src/fermata/runtime_core.py:236-300 | Every lock taken or waited for is on the inode that the stable name of the key is bound to |
| LockProtocol.LockNeverRebound | src/fermata/runtime_core.py:236-300 | Once bound, a stable lock name stays on its inode in every continuation |
| LockProtocol.LocksApart | src/fermata/runtime_core.py:236-300 | Different stable names are different inodes in every reachable state |
| LockProtocol.AtMostOnce | src/fermata/runtime_core.py:742-848 | For every schedule, with or without a rate budget and whatever the rate ledger holds, the fresh commits under one (scope, key) number at most one more than the failed appends under it |
| LockProtocol.FirstCommitDecides | src/fermata/runtime_core.py:796-848 | After a commit whose append did not fail, whoever completes the replay check next gets that very effect for the same intent and a conflict for any other |
| LockProtocol.TakenKeyDecides | src/fermata/runtime_core.py:796-848 | What one check finds on a ledger that holds the key, for both kinds of intent |
| LockProtocol.CallNeedsFreeKey | src/fermata/runtime_core.py:796-848 | The adapter is reached only from a ledger without the key |
| LockProtocol.LoneProcessFinishes | src/fermata/runtime_core.py:236-311 | In every reachable state a process whose lock is free can finish alone without a failing call, and has then done to ledger and commits what its evaluation of the ledger says |
| LockProtocol.LoneProcessCommits | src/fermata/runtime_core.py:742-1025 | On a fresh key whose evaluation goes through to a writing adapter such a run ends with the process among the committed and its record, with its scope, key and hash, in the ledger |
| LockProtocol.LockNameInjective | src/fermata/runtime_core.py:229-233 | Without a NUL in the scope ids, lock names are shared exactly by equal pairs |
| LockProtocol.LockNameCollision | src/fermata/runtime_core.py:229-233 | With one, two different pairs can share a lock |
| Kernels.Kernel.LinkTempAt | src/fermata/file_adapter.py:346-363 | `link` publishes the temporary file where nothing was bound, or reports that something is, or fails |
| Kernels.Kernel.RenameTempAt | src/fermata/file_adapter.py:338-345 | `rename` replaces the target by the temporary file in one step, or changes nothing |
| FileCommit.EnsureDirectory | src/fermata/file_adapter.py:58-88 | Stat, mkdir and stat again either find a directory or give the source's reason, and open nothing; unless a call failed, a failure exhibits a state in which the component was no directory; undisturbed, a missing one is made and any other decides by its kind |
| FileCommit.Descend | src/fermata/file_adapter.py:43-95 | One step of the walk ends on a descriptor of a directory that was bound to that very name, made if it was missing, or closes what it held |
| FileCommit.OpenFileParent | src/fermata/file_adapter.py:43-95 | The parent is reached from the sandbox through directories bound to the very names of the path, no link followed, and no descriptor leaks on failure |
| FileCommit.TargetRejection | src/fermata/file_adapter.py:98-121 | The target passes if and only if it is absent, or a regular file to be overwritten; a link, a directory, or a file without overwrite each give their own reason, and only they do |
| FileCommit.WriteTempFile | src/fermata/file_adapter.py:314-336 | Success means the temporary file reads back as the content, and unless a call fails there is success, whatever the others do |
| FileCommit.Publish | src/fermata/file_adapter.py:338-365 | At most one atomic publication of the complete content, without overwrite only onto an unbound target, and no later change to it; unless a call failed, failing exhibits what displaced the target |
| FileCommit.ReadBack | src/fermata/file_adapter.py:389-431 | A commit is returned only if the target, opened without following a link, held exactly the content; a mismatch exhibits other content; and without a failing call an unreadable target exhibits that it was no file |
| FileCommit.CleanUp | src/fermata/file_adapter.py:366-381 | The temporary name is dropped, unless the call for it fails, and that is noted; the parent is closed |
| FileCommit.Commit | src/fermata/file_adapter.py:279-449 | For every interleaving: only harmless steps and one publication that no later step of ours changes, a link-free parent, commit implies read-back equality, all descriptors closed, the temporary name gone or noted, rejected yet published if and only if the read-back or the unlink behind the link failed; unless a call of ours failed every rejection exhibits what the others did; undisturbed, the result is what the file system at the start decides |
| FileCommit.UndisturbedDecides | src/fermata/file_adapter.py:43-121 | Undisturbed, each rejection is given exactly for a link or file on the way, or for what the target is bound to, and all else commits |
| FileCommit.NoOverwriteTouchesNothing | src/fermata/file_adapter.py:279-381 | Without overwrite no step of a commit rebinds, removes or alters what existed, and once the temporary file is published it is no exception |
| FileCommit.TargetSwapsToCompleteContent | src/fermata/file_adapter.py:279-381 | The only step that rebinds the target binds it to a file that already holds exactly the content, and no later step of ours changes the binding or any file |
| FileCommit.RejectedYetPublished | src/fermata/file_adapter.py:346-381 | Steps of a commit whose unlinks fail behind the link: as promised, rejected, and the target holds the content |
| MemoryLedger.StorePathInjective | src/fermata/memory_adapter.py:33-64 | Two accepted targets share a ledger file if and only if they are the same target |
| MemoryLedger.NoLedgerUnderAnother | src/fermata/memory_adapter.py:33-64 | No accepted ledger file is a directory on the way to another, and each lies strictly under the store root by plain components |
| MemoryLedger.TargetsGoTo | src/fermata/memory_adapter.py:33-64 | For every text as a target: its ledger file, or which of the two reasons refuses it |
| MemoryLedger.ReadRecords | src/fermata/memory_adapter.py:190-228 | The loop of prepare and read-back accepts exactly the ledgers whose non-blank lines are valid records with versions 1, 2, ... |
| MemoryLedger.ValidatedIsDense | src/fermata/memory_adapter.py:83-120 | What is accepted has valid records, hashes included, with dense versions |
| MemoryLedger.AcceptedIff | src/fermata/memory_adapter.py:83-120 | A ledger is accepted if and only if every line is blank or a record that is sound field by field, its version its number among the lines that are not blank |
| MemoryLedger.ChangedContentIsNoticed | src/fermata/memory_adapter.py:83-120 | A record whose content is changed behind the ledger's back makes the ledger unreadable |
| MemoryLedger.DroppedRecordIsNoticedIff | src/fermata/memory_adapter.py:190-228 | A record taken out of a ledger is missed if and only if another record follows it |
| MemoryLedger.CanonicalValidates | src/fermata/memory_adapter.py:323-345 | Rewriting records with dense versions gives a ledger that validates back to them |
| MemoryLedger.AcceptedReadBack | src/fermata/memory_adapter.py:331-357 | Whatever the disk gave back, an accepted read-back is a ledger the next prepare accepts, with our record at its version |
| MemoryLedger.HonestReadBack | src/fermata/memory_adapter.py:331-357 | Undamaged bytes are always accepted |
| MemoryLedger.MemoryStore.Prepare | src/fermata/memory_adapter.py:130-302 | Prepare gives the specified preparation or rejection and writes nothing |
| MemoryLedger.PrepareRefuses | src/fermata/memory_adapter.py:130-302 | Exactly when prepare refuses for each reason, and when it succeeds |
| MemoryLedger.MemoryStore.Commit | src/fermata/memory_adapter.py:304-400 | Commit replaces the one ledger by bytes that passed the read-back, or changes nothing |
| MemoryLedger.WriteAppends | src/fermata/memory_adapter.py:130-400 | One undamaged write is an append of a record of what was asked, or nothing |
| MemoryLedger.LedgersAreAppends | src/fermata/memory_adapter.py:130-400 | After every serial run each target's ledger is exactly what was committed to it, in order, versions 1..n, whatever was written to other targets |
| MemoryLedger.LedgersStayReadable | src/fermata/memory_adapter.py:130-302 | After every such run, unless reading itself fails, prepare succeeds for exactly the requests that are acceptable in themselves: content within the limit, sources named, and for the session, the project or durably, the session by default |
| MemoryLedger.RewriteKeepsTextIff | src/fermata/memory_adapter.py:323-327 | A rewrite keeps the old text as a prefix if and only if every old line was a canonical record |
| MemoryLedger.OverlappingWritesLoseOne | src/fermata/memory_adapter.py:304-330 | Two writes prepared on the same ledger leave only the second record: serial writers are needed |
| TraceLedger.TraceFile.Append | src/fermata/runtime_core.py:491-602 | The record goes to the end of the file and is judged by the tail check or the scan; one that is too large is not written |
| TraceLedger.ScanLines | src/fermata/runtime_core.py:568-587 | The scanning loop equals the scan it stands for |
| TraceLedger.ScanDecides | src/fermata/runtime_core.py:568-587 | The first line that is the record's or raises decides the scan, and without one it is a mismatch |
| TraceLedger.ScanFinds | src/fermata/runtime_core.py:568-587 | Where it does not raise, the scan finds a record if and only if its line is one of the lines, however many are corrupt |
| TraceLedger.LinesBehind | src/fermata/runtime_core.py:529-539 | The lines of the file after the append: the whole lines before, ours with what was torn in front of it, and those of others |
| TraceLedger.TornLineSwallows | src/fermata/runtime_core.py:529-539 | A line appended behind a torn one becomes the end of that line |
| TraceLedger.TailAgreesWithScanIff | src/fermata/runtime_core.py:546-587 | Right after an append the tail check accepts, and the scan agrees if and only if the file was empty, ended in a line break or already held the record on a line |
| TraceLedger.VerifyDecides | src/fermata/runtime_core.py:546-587 | For every file and all whole lines of others behind the record: accepted at the tail, and otherwise as the first deciding line says, raising included |
| TraceLedger.VerifiedIff | src/fermata/runtime_core.py:546-587 | Where the scan does not raise, the record is found if and only if it is at the tail, was put behind a line break, or stands on another line too |
| TraceLedger.FoundBehindLineBreak | src/fermata/runtime_core.py:546-587 | Behind a line break the scan alone finds it, whatever others append |
| TraceLedger.TornLineExample | src/fermata/runtime_core.py:568-587 | One file on which the append is intact and its verification fails |
| ServiceRecords.ReadStream | src/fermata/service_records.py:76-124 | Reading one stream gives the references and its summary, or the first error |
| ServiceRecords.NoInvalidHashes | src/fermata/service_records.py:118-124 | A stream's count of invalid hashes is zero if and only if every payload hash verifies |
| ServiceRecords.FirstUnreadableLine | src/fermata/service_records.py:94-105 | Reading fails exactly on streams with an unreadable line, at the first one |
| ServiceRecords.RefsAreTheItemLines | src/fermata/service_records.py:94-116 | The references are the item lines, each once, in order, with their line numbers |
| ServiceRecords.TraceEventTypes | src/fermata/service_records.py:137-149 | The nested loop lists the typed events of all trace records in order |
| ServiceRecords.ClassesAre | src/fermata/service_records.py:152-180 | Exactly when a group gets each class; one invalid hash, or a second response, leaves it to review |
| ServiceRecords.EventTypesHold | src/fermata/service_records.py:137-149 | A type is among the event types if and only if some trace record lists an event of it |
| ServiceRecords.FileRefs | src/fermata/service_records.py:255-265 | Filing one stream adds to each wanted owner's group exactly its records |
| ServiceRecords.ExportServiceRecords | src/fermata/service_records.py:232-281 | The export succeeds iff the directory is there and every stream readable; it then holds every stream's summary and, for each wanted owner, its records of each stream |
| ServiceRecords.FilterKeepsOneRow | src/fermata/service_records.py:245-281 | The export filtered to an id is that id's row of the whole export, and no other |
| ServiceRecords.RecordIsInItsGroup | src/fermata/service_records.py:245-265 | Every record stands in its own group, right behind the earlier records of that request |
| ServiceRecords.GroupHoldsOnlyRecords | src/fermata/service_records.py:245-265 | Each place of a group is the place of exactly one record of the stream |
| ServiceLog.InvAlways | src/fermata/service.py:311-427 | In every interleaving the group of each request holds exactly what its own handler stored |
| ServiceLog.LogReadsBack | src/fermata/service.py:54-81 | After any interleaving every stream reads back as what was stored in it |
| ServiceLog.NamesTellFreshCommit | src/fermata/service_records.py:167-177 | Of the committed effects, the event names pick out exactly the fresh commits, never a replay |
| ServiceLog.ExportClassifies | src/fermata/service_records.py:152-180 | For every interleaving stopped anywhere: a request has a row iff its handler stored anything, and its class is a fixed function of what it stored and how its evaluation ended |
| ServiceLog.CommittedOnlyByFreshCommit | src/fermata/service_records.py:152-180 | "committed" implies a run whose own evaluation called the adapter and got evidence, with response and trace stored and no error |
| ServiceLog.AppendOnlyStore.Append | src/fermata/service.py:54-81 | An append adds one numbered record to one stream, or nothing |
| ServiceLog.AppendOnlyStore.DoPost | src/fermata/service.py:311-427 | One handler run to its end takes steps of the protocol and never stops of its own accord; it adds to the four streams exactly the records that are due |
| ServiceLog.DueDecides | src/fermata/service.py:311-427 | What is due: with everything working one request, response and trace record and no error; otherwise as the first call that does not work says |
| Bundle.BundleDir.RunBundle | src/fermata/cli.py:84-124 | Running a bundle has the specified effect on its files and on the sandbox, refusals and failing writes included |
| Bundle.BundleDir.ApproveBundle | src/fermata/cli.py:127-229 | Approving writes the bound decision and runs again, only when a decision is awaited |
| Bundle.RunAnswers | src/fermata/cli.py:84-124 | Exactly when a run refuses to replace evidence or to go by an unreadable approval; when its calls work, the files hold the effect and trace of a real run under the approval on file, and the effect is the answer |
| Bundle.ApproveRefuses | src/fermata/cli.py:127-158 | Approving refuses exactly when nothing is pending, says why, and then changes nothing |
| Bundle.DecisionOnFile | src/fermata/cli.py:191-219 | A written decision clears the gate for the bundle's own scope and intent, and no others, if and only if the approver said yes |
| Bundle.YesIsCarriedOut | src/fermata/cli.py:191-229 | A yes to a sound intent with a free key, a prepared effect and budget left ends in one more adapter call and a committed effect, or in a recorded approval and no call for a record-only intent |
| Bundle.NoIsKept | src/fermata/cli.py:191-229 | A no never changes a ledger or calls the adapter, and an effect that would have been reached is rejected as denied |
| Bundle.DecidedNeverPauses | src/fermata/runtime_core.py:864-884 | With a decision in hand no evaluation pauses, and one that called the adapter did not pause |
| Bundle.BundleCommitsOnce | src/fermata/cli.py:84-229 | Over any sequence of commands from any bundle: adapter calls and decisions number at most one each, plus the evaluations that left no effect file |
| Bundle.OneCommitOneDecision | src/fermata/cli.py:84-229 | With no such loss: at most one adapter call and one decision, even for keyless intents |
| Bundle.NoCommitBeforeYes | src/fermata/cli.py:84-229 | With approval required and no yes in the bundle, nothing reaches a ledger or the adapter before an approve that says yes |
| Bundle.GateHolds | src/fermata/runtime_ir.py:391-439 | An effect that needs approval changes nothing without a decision or with a denial |
| PolicyParser.ParsePolicyBlock | src/fermata/policy_parser.py:73-230 | The line machine returns the specified record or error, line number included |
| PolicyParser.FirstErrorStands | src/fermata/policy_parser.py:98-203 | The first line with an error decides, whatever follows |
| PolicyLines.RecognizedIff | src/fermata/policy_parser.py:58-66 | A line is taken as a statement if and only if it has that statement's form, with any white space between its words, and is unknown if and only if it has none |
| PolicyLines.LineIff | src/fermata/policy_parser.py:98-101 | What is read of a raw line is what stands between its outer white space, in front of its first two slashes |
| PolicyLines.FaultsAre | src/fermata/policy_parser.py:124-203 | Which words a statement may use, and exactly when it has which fault |
| PolicyLines.FieldsAre | src/fermata/policy_parser.py:188-192 | The fields of an audit line are its trimmed parts between commas that are not blank |
| PolicyLines.ErrorsAre | src/fermata/policy_parser.py:98-214 | Exactly when a text gets each error, and at which line |
| PolicyGrammar.AcceptsExactlyBlocks | src/fermata/policy_parser.py:73-230 | A text is accepted as a record if and only if its statements are one header, faultless body lines and one closing line that collect to that record, with a resource and a capability |
| PolicyGrammar.BlankLineInvisible | src/fermata/policy_parser.py:99-101 | A blank or comment line put in at any line end changes nothing but the number of a later error line |
| PolicyGrammar.RenderReads | src/fermata/policy_parser.py:58-66 | Every statement that fits the grammar is printed as a line that is read as that statement |
| PolicyGrammar.TakenLinesArePrintable | src/fermata/policy_parser.py:58-66 | Every line that is taken is read as a statement that the printer can write |
| PolicyGrammar.ParsePrint | src/fermata/policy_parser.py:73-230 | A well-formed record, printed and parsed, comes back, policy ids policy_001 onward included |
| PolicyGrammar.ParsedIsWellFormed | src/fermata/policy_parser.py:73-230 | Whatever is accepted is well-formed |
| PolicyGrammar.ParsePrintExactly | src/fermata/policy_parser.py:73-230 | The round trip succeeds for the well-formed records and for no other |
| PolicyGrammar.PrintNormalizes | src/fermata/policy_parser.py:73-230 | Printing an accepted text's record gives a text that is accepted as the same record |
| PolicyGrammar.PolicyIdReads | src/fermata/policy_parser.py:168-174 | The n-th policy id is the number n after its prefix, in at least three digits and no more than needed |
| PolicyGrammar.PolicyIdsDiffer | src/fermata/policy_parser.py:168-174 | No two policy ids of a record are the same |
| PolicyGrammar.NoTextDeclaresUrl | src/fermata/policy_parser.py:99-99 | No text declares a target that holds `//` |
| ScopeLowering.ScopeFromRecord | src/fermata/runtime_api.py:202-324 | Lowering succeeds iff capabilities are named, every approval condition names only declared ones and the limits make sense, and otherwise names what is wrong; a kind is gated iff it is listed or some rule's condition names it, a capability declared iff the record names it, and id and limits are the record's |
| ScopeLowering.NothingFoundIff | src/fermata/runtime_api.py:33-39 | A condition names nothing if and only if no comparison stands in it, whatever the white space around its equals signs |
| ScopeLowering.LeftmostIsFound | src/fermata/runtime_api.py:33-39 | The leftmost comparison of a condition is found first, and the search goes on right behind it |
| ScopeLowering.BothEnroll | src/fermata/runtime_api.py:33-39 | A condition made of two comparisons enrolls both names |
| ScopeLowering.GatedKindsNeedDecisions | src/fermata/runtime_api.py:228-265 | For an effect of a kind that is listed or that a rule names, whatever changes a ledger or the world, or authorizes an outside actor, was brought a decision that had cleared the gate for that very intent |
| ScopeLowering.FoundVerbatim | src/fermata/runtime_api.py:33-39 | A condition enrolls only what it names verbatim, in quotes |
| ScopeLowering.ConditionEnrolls | src/fermata/runtime_api.py:33-39 | The documented condition enrolls exactly the name it compares with |
| ScopeLowering.GateableIff | src/fermata/runtime_api.py:239-265 | A declared capability can be gated from a policy text exactly if its name holds no quote |
| ScopeLowering.ApprovalRuleReachesTheGate | src/fermata/runtime_api.py:239-265 | Wherever the condition of a rule in an accepted policy text compares with a kind, before any other comparison, whatever an effect of that kind changes or authorizes was brought such a decision |

## Left out

- LockProtocol.AtMostOnce: assumes no crash between a commit and the append of its record, since crash durability is not modelled; a process may die anywhere else.
- LockProtocol.FirstCommitDecides: speaks of submissions whose ledger can be read; corrupt or unreadable idempotency ledgers are a failing lookup, which rejects.
- Runs.RateBudgetHolds: serial callers, which is all the code promises for the budget.
- RateBudget.RateCountRecent: a ledger line that is JSON but no object, on which the source raises, does not occur; the runtime never writes one.
- RateBudget.RateRecord: computes the rewritten lines; the anchored write of them succeeds or fails as a whole, and its failure is an argument of the evaluation.
- Evaluator.Trace.Add: without the time stamp of each event.
- FileCommit.Commit: the other processes never use the random temporary name, and closing a descriptor never fails.
- FileCommit.OpenFileParent: starts at the inode of the sandbox; making and resolving the sandbox root itself is not modelled.
- MemoryLedger.LedgersAreAppends: serial writes whose bytes the disk keeps; damaged bytes that pass the read-back are covered by AcceptedReadBack only.
- MemoryLedger.MemoryStore.Commit: the anchored write underneath is one step that succeeds or fails; its walk and its temporary file are those of `FileCommit`.
- TraceLedger.TraceFile.Append: the anchored open, partial writes and undecodable bytes are not modelled.
- ServiceRecords.ExportServiceRecords: without the derived fields of a request's summary, and without the order of rows, which is that of the request ids.
- ServiceLog.AppendOnlyStore.Append: whether the last line reads back as the stored one is an argument, since other writers to the file are not modelled.
- ServiceLog.ExportClassifies: requests use distinct ids; a request id that is posted twice is left to review by the code.
- Bundle.BundleCommitsOnce: commands run one after the other, and `bundle run --overwrite` is not among them.
- ScopeLowering.ScopeFromRecord: the type checks of untyped JSON and the network fields are not modelled.
- The preparation of a file write: its checks are one branch each, and its answer is an argument of the evaluation; the same conditions are checked again, against other processes, in `FileCommit`.
- The network adapter: sockets, DNS and TLS are outside; the checks that remain are one branch each.
- HTTP transport, the answers that the service sends, command lines, prompts and rendered summaries.
- SHA-256, JSON encoding, the regular expression engine, identifiers and clocks are abstracted.
- fsync, chmod, umask and crash durability.
- Approval expiry times without a time zone, which make the comparison in the gate raise.
- Case-insensitive file systems and surrogate characters that cannot be encoded.
- Tongue parser, renderer, bridge, golden checks, self tests and release scripts.
