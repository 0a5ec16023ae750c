# Verification of the VPN agent, its backend and the asset build

The repository runs a small VPN service. An agent on each server issues and
revokes peers of a WireGuard-like interface inside a container; a backend keeps
devices, servers and setup jobs; a build tool converts images. This project
models the parts whose correctness depends on state, and proves what they are
for. Text, addresses and files are concrete; what belongs to libraries is a
parameter, named below.

**The agent's transactions.** `Text`, `Netip`, `AwgConfig`, `AwgRules`,
`AwgAllocation`, `AwgRuntime` and `ClientsTable` give the configuration file,
its parser and printer, CIDR prefixes, the validator, the allocator, the status
of the interface and the clients table as functions with their laws;
`AwgReading` and `AwgSections` say what a text means without the parser, and
`AgentAddress` which address is next. `AwgOps`
and the classes in `ClientsTable` are the loops and in-place updates that
compute them. `AgentMachine` is the transaction, one container call per step;
each call works, fails, or takes effect and then reports an error, and any
number of processes interleave around the lock. `AgentTheorems` states what
holds in every run, the death of a process at any point included, and
`AgentHistory` what a revoke undoes. `AgentService` is the service as the program runs it, tied
to the machine step by step through `AgentRuns`; `AgentSuccess` says when it
succeeds. `Shell` is the quoting and joining of the scripts.

**Setup jobs.** `SetupJobs` is the store with its compare-and-set transitions,
`SetupJobService` the service over dictionaries, `ServerService` the nodes.
`SetupMachine` and `SetupTheorems` are any number of workers, cancels and
administrators interleaved at the points where the code awaits, and
`SetupTraces` is what the order of their steps decides, `SetupRecords` where a
job's times and events come from. `SetupWorker` is one
worker with its try and finally, over both services; it carries the run of the
machine that its life is part of.

**Devices, logins, images.** `Devices`, `DeviceTheorems`, `DeviceService` and
`PeerPath` cover issuing and revoking against the in-process agent, `DeviceRules`
when they succeed, `RateLimiter`
the sliding window, `ImageTree`, `Images` and `ImagePipeline` the incremental
build.

Where the code does less than a reader may expect, the project says exactly
when it does it:

- Allocation reserves only the base address of each prefix. `WidePrefixBlocks`
  is a configuration in which issuing is refused although an address is free;
  `NewClientFits` is the exact condition.
- Keys are trimmed, not checked for line breaks. `HostPeerFaithful` says that
  the file gives a peer back exactly if both of its keys are single lines,
  `TwoLineKeyLost` shows one that is not given back; the runs assume single
  lines of the key tool and of the pre-shared key file.
- A completed rollback makes the interface match the restored file, which need
  not be what ran before (`RollbackExact`).
- A stop of the setup worker can be lost, so that whoever stopped it waits
  forever. `StopObeyed` says exactly when a stop ends its worker;
  `StopLostDraining` and `StopLostError` are runs in which it does not.
- A phase launched for a job may begin to run after the job was cancelled
  (`BeginsCancelled`, `BeginsTooLate`), and a cancel found while moving on from
  the SSH check makes the code trip over a missing job, which the outer loop
  catches (`TripsCancelled`, `TripsOverCancelled`). The job is settled all the
  same (`WorkerSettles`, `Turn`).
- The comments promise that a node made by a setup job is available only after
  the job succeeded. An administrator's update can make it so before
  (`OfferedTooSoon`); `AvailableAsSaid` is the exact condition, and
  `NodeQuarantine` holds of the program's own steps.
- A clock that goes back breaks the login limit (`ClockBackForgets`).
  `LimiterExact` holds of any clock: it says exactly which failures are stored
  and when a check counts all of its window.
- An image run that fails midway can leave a wrong file that later runs believe
  (`StaleAfterFailure`). `FailureSpoils` is the exact condition after one failed
  run, `EveryBuildExact` over any history.

## Model

| member | source | states |
|---|---|---|
| AgentTheorems.AlwaysValid | agent/internal/agent/service.go:235-396 | in every run of any number of processes, whatever container calls fail and whichever process dies, at every step the file exists, parses, has an address and a port, keys are unique and no address is covered by two peers |
| AgentTheorems.NoLostUpdates | agent/internal/agent/service.go:244-345 | while no rollback has failed and no process has died inside its transaction, the file's peers are the first ones with exactly the reported issues and revokes applied in lock order, and the interface settings are the first ones |
| AgentTheorems.RollbackExact | agent/internal/agent/service.go:472-498 | a refused transaction changed nothing; a completed rollback restored the bytes of both files, or the table's absence, and the runtime peers of the restored file; a failed one, or a process that died at any point, left each of the two files old or complete and new, and the interface with the peers it had, of the old file or of the new one |
| AgentMachine.StageLeftOver | agent/internal/agent/lock_unix.go:23-57 | whatever point of its transaction a process dies at, the files and the interface are as a death may leave them, and the lock is free for the next |
| AgentTheorems.MutualExclusion | agent/internal/agent/lock_unix.go:23-57 | at most one process is between taking and releasing the lock, and it holds it |
| AgentTheorems.ReportsAreHistory | agent/internal/agent/service.go:235-396 | every ending of a process other than a refusal, its death inside the transaction included, is exactly one entry of the history, with its operation and result |
| AgentTheorems.IssueThenRevoke | agent/internal/agent/service.go:291-395 | issuing and then revoking the returned key leaves the file as the printed form of the parsed original, the same peers, and the original client records unless the key already had some |
| AgentHistory.RevokeUndoesIssue | agent/internal/agent/service.go:291-395 | in any run, with any other transactions in between, revoking an issued key leaves the peers, the bytes of the file and the client records as the same history would have left them without the issue; that the key was new follows from the grant |
| AgentHistory.IssueSparesShown | agent/internal/agent/service.go:268-276 | in every run an issued address is the next one that neither the server, nor the configuration at the lock, nor any peer that the interface showed when this transaction read it has written in an entry; what was shown is what the status printed in that step |
| AgentTheorems.HonestCheckPasses | agent/internal/agent/service.go:339-345 | if the interface prints its peers truthfully, a transaction that reached the final check passes it |
| AgentTheorems.LockProtects | agent/internal/agent/lock_unix.go:23-57 | while one process holds the lock, no step of another touches the files, the interface, the lock or the holder's place |
| AgentSuccess.IssueGranted | agent/internal/agent/service.go:235-348 | from a free lock to its release, an issue is granted if the request names a client and an endpoint, every call works, the key is new, the next address that neither configuration nor shown interface takes is uncovered, the server's keys are there and the interface then shows the key; the files and the interface are then the planned ones |
| AgentSuccess.RevokeDone | agent/internal/agent/service.go:350-396 | from a free lock to its release, a revoke is carried out if the request names a key, every call works, the key is there and the interface then does not show it; the files and the interface are then the planned ones |
| AgentSuccess.BlankRefused | agent/internal/agent/service.go:236-242 | a request that names no client or no endpoint, or no key, is refused before the lock and changes nothing |
| AgentTheorems.RunInv | agent/internal/agent/service.go:235-396 | the invariant of the transaction system holds at every step of every run |
| AgentMachine.StageStep | agent/internal/agent/service.go:244-394 | each step of the lock holder, whatever its call does, leads to the next stage with a valid file and, until the end, with backups of the state at the lock |
| AgentMachine.PlanValid | agent/internal/agent/service.go:296-333 | what a transaction is about to write is valid and reads back as itself, so the written file is valid |
| AgentMachine.BackupKeeps | agent/internal/agent/docker.go:97-106 | a backup changes neither the configuration, the table, the key file nor the lock, and holds the bytes of the original |
| AgentRuns.SoloEnd | agent/internal/agent/service.go:235-396 | the steps of one transaction under the lock, taken without interruption, do what its report says |
| AgentRuns.GoesChain | agent/internal/agent/service.go:235-396 | consecutive pieces of a transaction compose |
| AgentService.Service.IssueClient | agent/internal/agent/service.go:235-348 | the method is a run of the transaction machine from the state at the lock; a valid file stays valid and the report tells what happened to the files |
| AgentService.Service.RevokeClient | agent/internal/agent/service.go:350-396 | the same for revoking |
| AgentService.Service.IssueLocked | agent/internal/agent/service.go:250-348 | everything an issue does under the lock follows the transaction machine, early returns and rollbacks included |
| AgentService.Service.RevokeLocked | agent/internal/agent/service.go:362-395 | everything a revoke does under the lock follows the transaction machine |
| AgentService.Service.Read | agent/internal/agent/service.go:398-420 | reads and parses the configuration, the table and the running interface, or is refused; changes nothing |
| AgentService.Service.NewClient | agent/internal/agent/service.go:258-283 | a fresh key and the address that first fit gives, or a refusal |
| AgentService.Service.AddClient | agent/internal/agent/service.go:285-327 | reads the server's keys, adds the peer only if the result validates, refreshes the table |
| AgentService.Service.MakeBackups | agent/internal/agent/service.go:440-459 | copies both files aside before anything is written |
| AgentService.Service.WriteState | agent/internal/agent/service.go:461-470 | writes the configuration and then the table |
| AgentService.Service.SyncAndCheck | agent/internal/agent/service.go:335-345 | reloads, and accepts only if the key is there after an issue and absent after a revoke |
| AgentService.Service.Commit | agent/internal/agent/service.go:332-345 | writes, reloads and checks, and rolls back on any failure |
| AgentService.Service.Rollback | agent/internal/agent/service.go:472-498 | restores both files or the table's absence, reloads, and reports completion only if all three calls worked |
| AgentService.AcquireLock | agent/internal/agent/lock_unix.go:23-44 | success exactly if this process holds the lock; giving up on a busy lock only after the deadline; a valid file stays valid meanwhile |
| AgentService.FileLock.Release | agent/internal/agent/lock_unix.go:46-57 | unlocks once; releasing again changes nothing |
| AgentService.Container.WriteFileAtomic | agent/internal/agent/docker.go:78-95 | the whole content is written or nothing is; a reported error may come after the effect |
| AgentService.Container.Backup | agent/internal/agent/docker.go:97-106 | copies the file, writes an empty table if an optional file is missing, fails if a required one is |
| AgentService.Container.Restore | agent/internal/agent/docker.go:113-121 | the file gets the backup's content or stays as it was |
| AgentService.Container.Remove | agent/internal/agent/docker.go:108-111 | the file is gone or as it was |
| AgentService.Container.Sync | agent/internal/agent/docker.go:123-127 | the running peers become those of the file, or stay as they were |
| AgentService.UsedByRuntime | agent/internal/agent/service.go:270-275 | an entry is collected exactly if some runtime peer has it, in the order of the peers |
| AwgRuntime.RuntimeUsedMembers | agent/internal/agent/service.go:270-275 | the reserved entries are exactly those that some peer shown has |
| AgentAddress.AllocatesFree | agent/internal/agent/service.go:268-276 | allocation with the runtime's entries gives the least address inside the subnet that is not the server's and not written in any entry of the configuration or of the shown interface, and fails exactly if there is none |
| AwgConfig.ParseRenderRoundTrip | agent/internal/awg/config.go:34-287 | for every accepted text: printing and parsing again succeeds with the same peers, the same interface lines up to trailing blanks, the same value of every key, and printing once more gives the same text |
| AwgConfig.FaithfulIffPrintable | agent/internal/awg/config.go:34-287 | a configuration is read back with its own peers and lines exactly if every line and peer is printable |
| AwgConfig.ParsePrintable | agent/internal/awg/config.go:34-149 | whatever text is accepted, the parsed configuration can be printed faithfully and has interface lines |
| AwgConfig.ParseOfRender | agent/internal/awg/config.go:249-287 | parsing a printed configuration gives its normal form |
| AwgConfig.NormalKeepsValues | agent/internal/awg/config.go:151-158 | the normal form keeps the first value of every interface key, commented lines included |
| AwgOps.ParseConfig | agent/internal/awg/config.go:34-116 | the scanning loop computes the parser function, errors with line numbers included |
| AwgSections.AcceptedIff | agent/internal/awg/config.go:34-116 | a text is accepted exactly if every header is an interface or a peer header in any case, nothing but blanks stands before the first one, and some line is in an interface section; otherwise the first offending line is reported by its number |
| AwgSections.ValueIsSaid | agent/internal/awg/config.go:151-158 | the value of an interface key is that of the first line in an interface section that assigns to it, in any case of its letters, commented or not; there is none exactly if no line does |
| AwgSections.SettingsAreSaid | agent/internal/awg/config.go:160-175 | the listening port is the value decided for its key, or empty; the address is the first item of the comma list decided for its key, without blanks, if there is one |
| AwgSections.PeersAreSaid | agent/internal/awg/config.go:56-104 | one peer for each peer header, in order; each field holds the last value given to it up to the next header, the pre-shared key under either spelling, and the other lines are kept in order |
| AwgSections.PeerLineMeans | agent/internal/awg/config.go:78-104 | one line of a peer sets exactly the field that it names, or is kept, or is blank |
| AwgReading.SaysIsRead | agent/internal/awg/config.go:118-137 | blanks, perhaps a comment mark and blanks, a key, blanks, an equals sign, blanks, a value and blanks are read as that key and value, commented exactly with the mark |
| AwgReading.ReadIsSaid | agent/internal/awg/config.go:118-137 | whatever is read as an assignment is spelled like that |
| AwgReading.AssignmentIff | agent/internal/awg/config.go:118-137 | a line is an assignment exactly if it has an equals sign and more than blanks and one comment mark before it |
| AwgOps.SplitList | agent/internal/awg/config.go:139-149 | the splitting loop computes the list function |
| Text.SplitOfJoin | agent/internal/awg/config.go:139-149 | splitting a joined list of clean items gives the list back |
| AwgOps.RenderConfig | agent/internal/awg/config.go:249-279 | the string builder computes the printer function |
| AwgOps.TrimTrailingLines | agent/internal/awg/config.go:281-287 | the backward loop drops exactly the trailing blank lines |
| AwgOps.Config.InterfaceValue | agent/internal/awg/config.go:151-158 | the value of the first line of that key, commented or not |
| AwgOps.Config.AddPeer | agent/internal/awg/config.go:177-179 | appends the peer and changes nothing else |
| AwgOps.Config.RemovePeer | agent/internal/awg/config.go:181-193 | in-place compaction is the filter; reports removal exactly if the key was there |
| AwgRules.WithoutOrder | agent/internal/awg/config.go:181-193 | the filter keeps exactly the other peers, each once and in order |
| AwgOps.Config.FindPeer | agent/internal/awg/config.go:195-202 | finds the first peer of the key exactly if there is one |
| AwgOps.Config.Validate | agent/internal/awg/config.go:204-247 | accepts exactly the configurations with address, port, unique non-empty keys, well-formed entries and no address of two peers; an error says what is wrong |
| AwgOps.CheckEntry | agent/internal/awg/config.go:235-242 | compares one prefix with all seen ones: no clash exactly as far as no address is shared |
| AwgOps.ExplainsInvalid | agent/internal/awg/config.go:204-247 | each error of the validator names a real defect |
| Netip.OverlapsIffShared | agent/internal/awg/config.go:235-242 | the shorter-mask overlap test holds exactly if some address lies in both prefixes (section 3.1 of RFC 4632) |
| Netip.CoversIsRange | agent/internal/awg/config.go:230-244 | a prefix covers exactly a range of consecutive addresses |
| Netip.PrefixReadsBack | agent/internal/awg/config.go:230-234 | printed IPv4 prefixes parse to themselves |
| AwgRules.WithoutKeepsOk | agent/internal/awg/config.go:181-247 | removing a key keeps the rest valid |
| AwgRules.HostPeerValid | agent/internal/agent/service.go:285-298 | a valid configuration stays valid with a new host peer exactly if the key is new and non-empty and no peer covers the address |
| AwgRules.HostPeerFaithful | agent/internal/agent/service.go:285-298 | the file gives a new peer back exactly if both of its keys are single lines |
| AwgRules.TwoLineKeyLost | agent/internal/agent/service.go:285-298 | a pre-shared key of two lines, written out and read again, is not given back |
| AwgRules.NormalValid | agent/internal/awg/config.go:204-287 | a round trip through the file keeps validity |
| AwgAllocation.AllocateFirstFit | agent/internal/awg/ip.go:10-65 | for prefix lengths 1 to 30: the smallest usable address, and failure only if there is none |
| AwgAllocation.AllocateTiny | agent/internal/awg/ip.go:49-54 | prefix lengths 31 and 32 give the base address or nothing |
| AwgAllocation.AllocateHasRoom | agent/internal/awg/ip.go:43-64 | success exactly while fewer usable addresses are taken than the subnet has |
| AwgAllocation.AllocateInRange | agent/internal/awg/ip.go:56-60 | the 64-bit candidate never exceeds 32 bits |
| AwgAllocation.AllocationKeepsValid | agent/internal/awg/ip.go:19-64 | with single-host entries only, the allocated address can always be added for a fresh key, whatever the runtime uses besides |
| AwgAllocation.NewClientFits | agent/internal/agent/service.go:276-298 | a new client can be added exactly if there is a least usable unwritten address, the key is new, and no prefix in the configuration covers that address |
| AwgAllocation.AllocatedIsAccepted | agent/internal/agent/service.go:276-298 | the new peer is accepted exactly if its key is new and no prefix in the configuration covers the allocated address |
| AwgAllocation.WidePrefixBlocks | agent/internal/agent/service.go:276-298 | a concrete configuration with a wider prefix: the first fit is covered, so issuing is refused although another address is free |
| AwgOps.Config.AllocateFreeIPv4 | agent/internal/awg/ip.go:10-65 | the set of used addresses and the candidate loop compute first fit |
| AwgOps.TryCandidates | agent/internal/awg/ip.go:56-64 | trying candidates one by one finds the least free one, and the truncation to 32 bits changes none |
| AwgOps.Config.CollectUsed | agent/internal/awg/ip.go:23-41 | the used set holds the server's address and every written base address |
| AwgRuntime.ShowReadsBack | agent/internal/awg/runtime.go:25-76 | what the interface prints of itself and its peers reads back in full, all fields and peers in order |
| AwgRuntime.ParseAWGShow | agent/internal/awg/runtime.go:25-56 | the scanning loop computes the reader function |
| AwgRuntime.FindRuntimePeer | agent/internal/awg/runtime.go:78-85 | finds the key exactly if a peer has it |
| ClientsTable.AddThenRemove | agent/internal/awg/clients_table.go:52-91 | adding touches no other client, removing the key afterwards leaves the others in order, and the added record holds name, date and address |
| ClientsTable.AddedRecord | agent/internal/awg/clients_table.go:52-77 | the record after adding has the new name, the new address if one is given, the date it had or else the new one, and all other data it had |
| ClientsTable.Records.AddOrUpdateRecord | agent/internal/awg/clients_table.go:52-77 | refreshes the first record of the key or appends one |
| ClientsTable.Records.Remove | agent/internal/awg/clients_table.go:79-91 | in-place compaction is the filter; reports removal exactly if the key was there |
| ClientsTable.Records.ByPublicKey | agent/internal/awg/clients_table.go:93-100 | the first record of the key |
| Shell.QuoteIsOneWord | agent/internal/agent/docker.go:200-205 | the shell reads a quoted value as exactly one word equal to it (sections 2.2.1 and 2.2.2 of the POSIX.1-2017 Shell Command Language) |
| Shell.ScriptReadsBack | agent/internal/agent/docker.go:85-90 | commands of fixed words and quoted values, joined by the operator && (section 2.3 of the POSIX.1-2017 Shell Command Language), are read back as exactly those commands, whatever the values contain |
| Shell.WriteScript | agent/internal/agent/docker.go:85-90 | the script that puts a written file in its place is four commands on exactly the given mode and paths |
| Shell.RestoreScript | agent/internal/agent/docker.go:114-118 | the script that restores a file is three commands on exactly the given mode and paths |
| Shell.RemoveScript | agent/internal/agent/docker.go:108-111 | the script that removes a file is two commands on exactly the given path |
| SetupTheorems.JobLife | backend/app/services/setup_job_service.py:175-310 | over any run ranks strictly rise, a job has at most six statuses, is claimed at most once, and an ended job never changes |
| SetupTheorems.JobRecords | backend/app/services/setup_job_service.py:175-310 | end time exactly for ended jobs, node exactly for successful, message exactly for failed, exactly one ending event of the same name for ended ones, and a password only for jobs that have not ended |
| SetupRecords.JobsAreRecorded | backend/app/services/setup_job_service.py:65-310 | in every run a job has the options and time of the step that created it, the time of the step that claimed it, the time of the step in which it ended, and an event for each status that it has entered |
| SetupTheorems.NodeQuarantine | backend/app/workers/setup_worker.py:417-441 | unless an administrator made it available, a node made by a job is so only if the job succeeded, names it and asked for it; a job has at most one node |
| SetupTraces.AvailableAsSaid | backend/app/services/server_service.py:164-189 | until its job succeeds a setup node is available exactly if the last word of an administrator on it was that it is |
| SetupTraces.OfferedTooSoon | backend/app/services/server_service.py:164-189 | a run in which an administrator lifts the quarantine: the node is online and available while its job is still verifying it |
| SetupTheorems.JobPath | backend/app/workers/setup_worker.py:322-435 | a job that was neither failed nor cancelled has gone exactly the way that its options ask for, and a successful one all of it |
| SetupTheorems.PhaseEnds | backend/app/workers/setup_worker.py:322-439 | a phase that returned leads to the next one by the options, and the health check to success exactly if the node is up; any other end leads to failure with the error's message, and only a cancelled phase ends the worker |
| SetupTheorems.SuccessfulNodeIsUp | backend/app/workers/setup_worker.py:423-435 | at the step in which a job succeeds, its node is online or has warnings |
| SetupTheorems.WorkerSettles | backend/app/workers/setup_worker.py:309-462 | however a phase ends, the worker goes on to a phase of a job that is not cancelled, or lets go of an ended job whose password is gone |
| SetupTheorems.ClaimSettles | backend/app/workers/setup_worker.py:293-337 | a claimed job is started in the same step or ended at once |
| SetupTheorems.ClaimStarts | backend/app/workers/setup_worker.py:309-352 | without a held password a claimed job fails at once; with one it starts with the SSH check, or with the agent's installation if no check is wanted |
| SetupTheorems.CancelIsNoticed | backend/app/workers/setup_worker.py:449-457 | after a cancel the worker's next poll abandons the phase, and the password is gone |
| SetupTraces.StopObeyed | backend/app/workers/setup_worker.py:284-307 | some steps after a stop the worker has ended exactly if the stop met it idle, or during a phase that then ended quietly, and never if it met it draining a cancelled job's phase; otherwise it goes on |
| SetupTraces.StopLostDraining | backend/app/workers/setup_worker.py:453-457 | a run in which a stop is lost: it meets the worker draining the phase of a cancelled job |
| SetupTraces.StopLostError | backend/app/workers/setup_worker.py:458-462 | a run in which a stop is lost: the phase that it cancelled ends in an error |
| SetupTraces.HeldMeanwhile | backend/app/workers/setup_worker.py:443-457 | from the launch of a phase until its worker goes on, the job stays as it was launched, or is cancelled, which it is exactly if a cancel of it came in between |
| SetupTraces.BeginsCancelled | backend/app/workers/setup_worker.py:446-452 | a phase begins to run for a cancelled job exactly if the cancel came between its launch and its begin |
| SetupTraces.BeginsTooLate | backend/app/workers/setup_worker.py:446-452 | a run in which a phase begins for a job already cancelled |
| SetupTraces.TripsCancelled | backend/app/workers/setup_worker.py:343-350 | after the SSH check the code trips over a missing job exactly if the job was cancelled since the check was launched; the worker is then idle and the jobs are unchanged |
| SetupTraces.TripsOverCancelled | backend/app/workers/setup_worker.py:343-350 | a run in which it trips |
| SetupTheorems.OnlyWakingLetsGo | backend/app/workers/setup_worker.py:443-462 | a worker leaves its job in no other way than by waking up from a phase |
| SetupTheorems.OneWorkerEach | backend/app/storage/memory.py:186-201 | every job under way is held by exactly one worker, in the phase of its status unless cancelled |
| SetupTheorems.ClaimsOldest | backend/app/storage/memory.py:186-201 | the store hands out the oldest queued job, the earlier insertion on a tie |
| SetupTheorems.StepInv | backend/app/workers/setup_worker.py:293-462 | every step of workers, cancels, health checks, node switches and offers keeps the invariant |
| SetupTheorems.StepAdvances | backend/app/storage/memory.py:203-216 | no step takes a job backwards or changes an ended one |
| SetupJobs.AtMostFive | backend/app/services/setup_job_service.py:219-310 | at most five transitions, and only the last can be terminal |
| SetupJobs.ClaimedOnce | backend/app/storage/db.py:258-290 | after a successful claim no claim of the same job succeeds, whatever happens in between |
| SetupJobs.OneWinner | backend/app/storage/db.py:292-313 | once a transition has happened, none that expects its old or an earlier status can: of several that race, one wins |
| SetupJobs.OldestFirst | backend/app/storage/memory.py:186-189 | the chosen job is queued and none is older; none is chosen only if none is queued |
| SetupJobs.CreateOk | backend/app/services/setup_job_service.py:102-137 | creating a job keeps the store in order |
| SetupJobs.CancelOk | backend/app/services/setup_job_service.py:175-201 | cancelling keeps the store in order and only moves jobs forward |
| SetupJobs.FinishSuccessOk | backend/app/services/setup_job_service.py:259-284 | succeeding keeps the store in order and only moves jobs forward |
| SetupJobs.FinishFailedOk | backend/app/services/setup_job_service.py:286-310 | failing keeps the store in order and only moves jobs forward |
| SetupJobService.JobStorage.NextQueued | backend/app/storage/memory.py:186-189 | the loop finds the oldest queued job |
| SetupJobService.JobStorage.ClaimNextSetupJob | backend/app/storage/memory.py:191-201 | claims that job and changes no other |
| SetupJobService.JobStorage.TransitionSetupJob | backend/app/storage/memory.py:203-216 | sets the named fields exactly if the status is expected |
| SetupJobService.JobStorage.AddSetupEvent | backend/app/storage/memory.py:218-219 | appends the event to the job's list |
| SetupJobService.JobService.CreateJob | backend/app/services/setup_job_service.py:65-131 | refuses a blank password or a disabled worker; otherwise queues the job and holds its password |
| SetupJobService.JobService.CancelJob | backend/app/services/setup_job_service.py:175-201 | cancels a job that has not ended, forgets its password, adds one event |
| SetupJobService.JobService.ClaimJob | backend/app/services/setup_job_service.py:205-217 | claims the oldest job and adds its event |
| SetupJobService.JobService.AdvanceStep | backend/app/services/setup_job_service.py:219-237 | moves on only from an expected status, with one event |
| SetupJobService.JobService.Succeed | backend/app/services/setup_job_service.py:259-284 | succeeds only from verifying, forgets the password in any case |
| SetupJobService.JobService.Fail | backend/app/services/setup_job_service.py:286-310 | fails any job that has not ended, forgets the password in any case |
| SetupWorker.SetupWorker.Turn | backend/app/workers/setup_worker.py:293-307 | a turn of the loop only adds steps to a run of the machine; when it is over the worker is idle or stopped, the job it claimed is the oldest one, has ended and its password is gone, however the phases went and whatever ran meanwhile |
| SetupWorker.SetupWorker.LandStep | backend/app/workers/setup_worker.py:293-462 | what the code has done between two waits is one step of the machine's worker, and one that lets go of the job leaves it ended and its password gone |
| SetupWorker.SetupWorker.RunJob | backend/app/workers/setup_worker.py:309-441 | either the try block and its handlers come to a step of the machine that ends the job, or one of the two exceptions leaves and the loop's handler completes such a step; without a held password the job fails |
| SetupWorker.SetupWorker.Phases | backend/app/workers/setup_worker.py:322-435 | whatever way out is taken, what remains to be done is the machine's step from that wait; a normal way out means that exactly the phases that the options ask for have run and returned, in order, and that the job was cancelled or succeeded with its node up and available as asked |
| SetupTraces.OtherStepsInterfere | backend/app/workers/setup_worker.py:443-462 | while a worker holds a job, every other step of the system leaves it the job, unchanged or cancelled |
| SetupWorker.OtherStepsWait | backend/app/workers/setup_worker.py:443-462 | every step of the machine but the worker's own leaves it in the same wait, which is the contract of a wait |
| SetupWorker.SetupWorker.AfterAgent | backend/app/workers/setup_worker.py:359-435 | the VPN phase exactly if asked for, then the verification, each stretch between waits a step of the machine |
| SetupWorker.SetupWorker.Verify | backend/app/workers/setup_worker.py:410-435 | the node goes through the server service: registered in quarantine before the health check, made available only after the job succeeded, as the machine's steps have it |
| SetupWorker.SetupWorker.RunCancellable | backend/app/workers/setup_worker.py:443-462 | waits until the phase ends, the job is cancelled or the worker is stopped, over any steps of the others, and makes of the end what the machine does |
| SetupWorker.SetupWorker.Drain | backend/app/workers/setup_worker.py:453-462 | cancelling a phase swallows its cancellation but not its errors |
| ServerService.QuarantineHolds | backend/app/services/server_service.py:191-254 | over any sequence of health checks and switches a quarantined node is never offered, nor one that was switched off last, and after a good answer every other one is offered exactly if it is available |
| ServerService.AnswerMeans | backend/app/services/server_service.py:209-254 | an answer makes a node that is not switched off online if the container runs without warnings, warned if one of these fails, and offline without an answer; nothing else but the last error changes |
| ServerService.SwitchMeans | backend/app/services/server_service.py:191-199 | switching off disables, switching on makes a disabled node one of unknown state and leaves others as they are |
| ServerService.ServerService.CreateFromSetup | backend/app/services/server_service.py:135-155 | the new node belongs to the job and is not offered after any sequence of health checks and switches; no other node changes |
| ServerService.ServerService.ActivateAfterSetup | backend/app/services/server_service.py:157-162 | from then on the node is offered exactly if that was wanted and it is up, and if it was not wanted, never by health checks and switches; no other node changes |
| ServerService.ServerService.UpdateAvailability | backend/app/services/server_service.py:164-189 | the availability is what the administrator said; no other node changes |
| ServerService.ServerService.SwitchNode | backend/app/services/server_service.py:191-207 | disabling and enabling change only that node's status |
| ServerService.ServerService.FinishHealthCheck | backend/app/services/server_service.py:209-254 | the shared node gets the answer's status unless it was disabled meanwhile |
| DeviceTheorems.DevicesMatchPeers | backend/app/services/device_service.py:59-186 | at every step active devices and agent peers correspond one to one by URL, key and address |
| DeviceTheorems.NoAddressTwice | backend/app/services/agent_client.py:277-290 | no agent hands out an address twice, not even that of a revoked device |
| DeviceTheorems.IssuesAndLimits | backend/app/services/device_service.py:188-226 | config issues exist only for active devices, no user is above a limit that was never lowered, and nothing is half created while the lock is free |
| DeviceTheorems.SpreadBound | backend/app/services/server_service.py:68-76 | over any run of auto-placed creations the difference of loads never exceeds the larger of its starting value and one |
| DeviceTheorems.NextInv | backend/app/services/device_service.py:69-186 | every interleaved step of creation, revocation, reading and administration keeps the invariant |
| Devices.PickIsLeast | backend/app/services/server_service.py:61-76 | the picked node is available and least loaded; none is picked only if none is available |
| Devices.EndCreateSound | backend/app/services/device_service.py:94-133 | the agent's answer turns a provisioning device into an active peer or a failed device, and all invariants stay |
| Devices.RevokeSound | backend/app/services/device_service.py:158-176 | revoking removes exactly the device's own peer and its issue, and all invariants stay |
| Devices.StartCreateSound | backend/app/services/device_service.py:70-93 | limit check, choice of the node and the provisioning device keep all invariants |
| DeviceService.DeviceService.CreateDevice | backend/app/services/device_service.py:59-148 | the method's steps compute the two halves of a creation; it refuses with each error exactly if the user is at the limit, the chosen node is unknown or not selectable, or no node is, and otherwise puts the device on the chosen node or on the first least loaded one |
| DeviceRules.ChosenNode | backend/app/services/device_service.py:69-73 | a device on a chosen node can be created exactly if the user is below the limit and the node exists and is selectable; each error exactly when it is the first that applies |
| DeviceRules.AutoNode | backend/app/services/device_service.py:74-82 | without a choice the device is put on the first of the least loaded selectable nodes, and is refused exactly at the limit or if there is none |
| DeviceRules.EveryDeviceWasPlaced | backend/app/services/device_service.py:69-98 | over any run every device was created while its user was below the limit, on a node selectable at that step, and has stayed on it |
| DeviceRules.CreationEnds | backend/app/services/device_service.py:93-133 | without a key or credentials the device has failed and nothing else changes; otherwise it is active with the agent's next address, the agent has the peer, and the issue expires a lifetime later |
| DeviceRules.ReadableForLifetime | backend/app/services/device_service.py:188-213 | the config of a created device can be read exactly until the creation time plus the lifetime |
| DeviceRules.ReadIff | backend/app/services/device_service.py:188-213 | an issue is readable exactly until its expiry, and dropped by the first read after it |
| DeviceRules.RevokedIff | backend/app/services/device_service.py:150-186 | a device is revoked afterwards exactly if it was before, or its agent could be reached or need not be; otherwise nothing changes |
| DeviceService.DeviceService.RevokeDevice | backend/app/services/device_service.py:150-186 | an unreachable agent leaves everything as it is; otherwise device, issue and peer go together |
| DeviceService.DeviceService.IssueResult | backend/app/services/device_service.py:188-213 | an expired issue is dropped, a valid one stays readable |
| DeviceService.DeviceService.EnforceLimit | backend/app/services/device_service.py:215-226 | passes exactly if the user is below the limit |
| DeviceService.DeviceService.PickForNewDevice | backend/app/services/server_service.py:68-76 | the minimum loop finds the first least loaded available node |
| DeviceService.DeviceStorage.CountTowardLimit | backend/app/storage/memory.py:121-128 | counts exactly the provisioning and active devices of the user |
| DeviceService.DeviceStorage.CountForServer | backend/app/storage/memory.py:130-136 | counts exactly the provisioning and active devices of the node |
| DeviceService.FakeAgent.IssuePeer | backend/app/services/agent_client.py:277-290 | adds the key with the next address, which then moves on |
| DeviceService.FakeAgent.DeletePeer | backend/app/services/agent_client.py:318-324 | deletes exactly the key that the path encodes |
| PeerPath.PathReadsBack | backend/app/services/agent_client.py:55-57 | the receiver decodes the path to the key, whatever bytes it has, and different keys have different paths (section 2.1 of RFC 3986) |
| PeerPath.QuoteIsOneSegment | backend/app/services/agent_client.py:55-57 | the encoded key has no delimiter, so it is one path segment |
| PeerPath.QuoteSpells | backend/app/services/agent_client.py:55-57 | letters, digits and the four marks stand for themselves, every other byte is a percent sign and two upper-case hexadecimal digits |
| PeerPath.PathSpells | backend/app/services/agent_client.py:55-57 | the path is "/peers/" and the encoded key, and no other path is taken for a peer's |
| PeerPath.HexEitherCase | backend/app/services/agent_client.py:271-273 | the receiver reads exactly the hexadecimal digits, in either case |
| RateLimiter.LimiterExact | backend/app/services/auth_service.py:40-116 | after any tries with any clock: what is stored of a key are its failures that no later cutoff exceeds, an attempt is refused exactly if these fill the window, they are all that was recorded in the window exactly if none of it was lost, and while none was lost no interval of the window's length holds more failures than allowed |
| RateLimiter.KeptIsSurvivors | backend/app/storage/memory.py:234-244 | a recorded failure is still stored exactly if it is not older than any cutoff applied to its key since |
| RateLimiter.CountExact | backend/app/storage/memory.py:237-241 | counting what is stored counts all that was recorded from a time on exactly if none of it was lost |
| RateLimiter.LimiterSound | backend/app/services/auth_service.py:40-116 | with a clock that does not go back, attempts are refused exactly when the full history fills the window, and no interval of the window's length holds more failures than allowed |
| RateLimiter.LoginHistory | backend/app/services/auth_service.py:40-66 | for any tries, the full history of a login is the times of its failed tries after its last successful one |
| RateLimiter.IpHistory | backend/app/services/auth_service.py:50-54 | for any tries, the full history of an address is the times of all failed tries from it |
| RateLimiter.OutcomeIsMerited | backend/app/services/auth_service.py:40-82 | a try that is not refused succeeds exactly if the credentials are good |
| RateLimiter.LimitIsKept | backend/app/services/auth_service.py:40-116 | with a clock that does not go back, a try is refused exactly if the window holds as many failures as allowed, of the login since its last success or of the address, and neither ever has more in a window |
| RateLimiter.CheckExact | backend/app/services/auth_service.py:106-116 | whatever the clock did, the limit is checked against what is stored in the window, and that is all that was recorded in it exactly if none was lost |
| RateLimiter.WindowBound | backend/app/services/auth_service.py:106-116 | if each failure found room when it was recorded and nothing of its window had been lost, every interval of the window's length has room, in whatever order the times come |
| RateLimiter.IpNeverCleared | backend/app/services/auth_service.py:50-63 | the history of an address is every failure from it; a success clears only the login |
| RateLimiter.ClockBackForgets | backend/app/storage/memory.py:237-241 | a run whose clock goes back: a failure of the window is lost, the check sees none, and two failures are recorded in a window that allows one |
| RateLimiter.Auth.Login | backend/app/services/auth_service.py:40-82 | the method's effect on the failure lists and its outcome are those of an attempt |
| RateLimiter.LoginStore.CountLoginFailures | backend/app/storage/memory.py:237-241 | counts the recent failures and keeps only those |
| RateLimiter.LoginStore.RecordLoginFailure | backend/app/storage/memory.py:234-235 | appends the time |
| RateLimiter.LoginStore.ClearLoginFailures | backend/app/storage/memory.py:243-244 | forgets the key |
| Images.EveryBuildExact | frontend/tools/lib/images.mjs:193-269 | over any history of edits, failed runs and completed runs, a completed run leaves what a clean build would exactly if none of its outputs was spoiled: it has its fingerprint in the manifest, and a failed run wrote something else in its place |
| Images.FailureSpoils | frontend/tools/lib/images.mjs:193-269 | from an honest state, after a failed run and before a completed one: the completed run is clean exactly if none of its outputs has its fingerprint in the manifest and other content written in its place by the failed run |
| Images.EveryBuildIsClean | frontend/tools/lib/images.mjs:193-269 | over any sequence of completed runs with changing sources, settings and unmanaged files, each run leaves what a clean build would and a manifest of exactly the outputs |
| Images.IncrementalIsClean | frontend/tools/lib/images.mjs:193-269 | one completed run: clean outputs, exact manifest, stale managed files gone, unmanaged files untouched, every output counted once |
| Images.CleanIffHonest | frontend/tools/lib/images.mjs:217-243 | from any state, a completed run equals a clean build exactly if every cache entry that it believed was right |
| Images.SecondRunIsIdle | frontend/tools/lib/images.mjs:193-269 | an immediate second run writes nothing, prunes nothing and changes nothing |
| Images.StaleAfterFailure | frontend/tools/lib/images.mjs:208-256 | a run that fails midway and a reverted source: the next run completes and leaves the wrong content |
| Images.StaleIsSpoiled | frontend/tools/lib/images.mjs:208-256 | that failing input meets the condition: the failed run spoils the output |
| Images.ExtNameMeans | frontend/tools/lib/images.mjs:123-126 | the extension starts at the last dot of the last path component that is not its first character |
| Images.FingerprintFixes | frontend/tools/lib/images.mjs:132-147 | equal fingerprints mean the same source and the same way to make the output |
| ImagePipeline.RunImagePipeline | frontend/tools/lib/images.mjs:193-269 | the walk and the nested loops with their counters compute the run function on the directory's sources, failed runs and a missing directory included |
| Images.OutputsAre | frontend/tools/lib/images.mjs:186-243 | an output is exactly the copy of a source where copies are asked for, or a raster source's conversion to a format asked for: its path with the extension from the last dot replaced, at that format's own quality and effort |
| Images.RunLeaves | frontend/tools/lib/images.mjs:193-269 | a completed run leaves at each such path the source or the encoder's result at those settings, and manages no other path |
| ImageTree.DirectoryLeaves | frontend/tools/lib/images.mjs:193-269 | the same of the files below a directory: every file with a known extension is copied if asked, every raster image encoded in each format asked for at its own quality and effort |
| ImageTree.SourcesAre | frontend/tools/lib/images.mjs:100-121 | the sources are exactly the files below the directory whose extension is one of the eight taken up, in any case |
| ImagePipeline.AssertNoOutputCollisions | frontend/tools/lib/images.mjs:149-164 | refuses exactly if two outputs agree up to letter case |
| ImagePipeline.MakeSource | frontend/tools/lib/images.mjs:208-253 | makes the outputs of one source in order, up to the first failure |
| ImagePipeline.Discover | frontend/tools/lib/images.mjs:100-121 | the recursive walk in order of name computes the list of sources |
| ImageTree.FoundExact | frontend/tools/lib/images.mjs:100-121 | the walk finds exactly the files with a known extension, at whatever depth, under their joined paths |
| ImageTree.ListingOrderIsLost | frontend/tools/lib/images.mjs:111-120 | the order in which a directory is listed does not matter |
| ImagePipeline.OutputDir.WriteAtomicIfChanged | frontend/tools/lib/files.mjs:9-36 | the file holds the content; a change is reported exactly if it did not before |
| ImagePipeline.OutputDir.PruneManagedFiles | frontend/tools/lib/files.mjs:125-140 | removes exactly the formerly managed files that are no longer produced, and counts those that were there |

## Left out

- Docker, SSH, subprocesses, signals and timeouts: kept only as calls that work, fail, or take effect and report an error.
- A crash in the middle of the copy that restores a file, and a container call that goes on after the process that made it has died and its lock was taken by another.
- Two options that name the same file: the paths of the model are distinct, backups included.
- Lines over 64 KB, which the Go scanner refuses, and bytes that are not valid UTF-8.
- The reader of IPv6 text is a parameter; IPv4 text is concrete.
- The JSON of the clients table is a pair of functions, taken to undo each other only in `IssueThenRevoke` and `RevokeUndoesIssue`.
- Unicode case folding beyond what can meet the ASCII names in the file.
- The client's configuration text and share link: rendering them may fail or not; their contents are not part of this model.
- `mergePeers` and the inspection and listing commands: they only read.
- `AwgRuntime.ShowReadsBack` covers the fields that the reader keeps; other lines of the status text are ignored by it.
- Audit entries, labels of steps and the exact wording of messages, which nothing reads back.
- The setup worker as coroutines: `SetupMachine` has one step per stretch between awaits, and in `SetupWorker` a wait is a method whose contract is that of `OtherStepsWait`.
- A second stop of a worker that is stopping already: it cancels the phase once more and changes nothing else in the model.
- `SetupMachine` treats a health check as one update of the node when it ends; its audit entry is left out, and so is a check refused for want of credentials, which changes nothing.
- Jobs in the old draft status, which nothing creates, and jobs lost in a restart of the process.
- The database store beyond its compare-and-set: rows are merged whole elsewhere, and those races are not modelled.
- Administrators changing a node's URL or credentials, and agents other than the in-process one.
- Scripts that are not commands joined by &&: the conditional of a backup and the process substitution of a reload.
- The in-process agent's addresses are numbers without the upper bound that one octet has.
- Fresh keys and ids are taken to be new.
- Sessions, password hashing and the routes: the limiter gets the trimmed lower-case login and the verdict on the password as inputs, and the device methods a device that the user may see.
- Lower-casing in the image tool is a parameter of which only the empty text is known; digests are taken to be free of collisions, the encoder to be a function of its inputs and version.
- Links, unreadable subdirectories, file systems that ignore case, and an output that would replace a directory.
- The manifest's JSON and the checks of its paths.
- The font pipeline, settings, support pages and the user interface.
