# Verified models of Ninety's native core

Ninety is a desktop VPN client. This project models, in Dafny, the parts of its native code where
a mistake would show only under an unlucky interleaving, a crash between two file operations, a
lost reply or an odd input, and proves what that code is for. Nothing here runs the program; each
module states what the Rust or Python code does, branch by branch, and the lemmas are about that.

| modules | what they model |
|---|---|
| `DpiLifecycle`, `DpiLifecycleOrderly`, `DpiLifecycleProgress`, `DpiLifecycleDuties`, `DpiLifecycleOverlap`, `DpiLifecycleExact`, `DpiStateObject` | start, autotest, sync and stop of the DPI engine as interleaved steps over one state: generation, `operation`, `operation_active`, the child slot |
| `WinwsArgs`, `WinwsMatching` | the rewrites of the winws command line, and what a section matches |
| `ChannelFiles`, `ChannelCommit`, `ChannelSync` | assembling and committing a new generation of the strategy channel on a disk that fails anywhere |
| `LineText`, `HostsMarkers`, `HostsBlock`, `HostsTheorems`, `HostsFile`, `HostsSanitizer`, `HostsRuns` | the managed block of the system hosts file |
| `DomainLists` | the learned list of domains and the user's lists |
| `DnsCheck`, `DnsProbe` | the parser of compressed names and the resolver probe |
| `KillSwitch`, `KillSwitchRuns` | leases on block-all sessions, the transition barrier, the versioned health cache |
| `MirrorRegistry`, `GitlabMirror`, `MirrorRuns` | promotion and rollback in a remote package registry |
| `BackupStore`, `BackupFence`, `AtomicFile` | the two-file snapshot store under crashes, the fenced clear, overwriting in place and replacing |
| `HostPressure` | the hysteresis of the host pressure monitor |
| `Common`, `Text`, `Traces` | options and results, Rust's string functions, sequences of states |

Code that changes state step by step is modelled by classes and loops proved against a
specification; the laws are then lemmas about that specification. Faults are arbitrary, and they
are inputs: the answers of the system to each call that can fail are given to the operation, and its
contract says what it does for every one of them. "At every moment" claims are stated over the
sequence of all intermediate states (`Traces.Through`), so they also cover a crash between any two
steps.

## What the proofs found

* **Stopping.** "A stop that answers Ok leaves no process of the operation it cancelled alive" does
  not hold in every interleaving. `DpiLifecycle.StopOkMeans` says what does, without conditions:
  the operation is over, and a survivor has lost its handle, is back in the slot, or is held by
  another thread. `DpiLifecycleOrderly.StopOkKillsEverything` proves the full claim for every run in
  which five things do not happen, each of them a condition on one step that can be checked before
  it: a stop is called while another one still owes the end of an operation; a start or autotest
  takes the flag while a stop holds or may take a child; a stop comes between the two halves of a
  start's or autotest's begin; a status query takes for dead a living child whose death is owed, or
  can come to be owed, by a stop; an unpublished child whose death is owed survives its
  termination. All other overlaps are allowed: begins answered "busy", begins during a stop's wait,
  syncs at any time, stops that cancel nothing. `EveryDutyIsNeeded` shows that none of the five can
  be allowed, for starts or for autotests: allowing just that one, there is a run that breaks the
  claim. They are sufficient over whole runs; `HarmIsExact` gives the exact condition on a single
  step, whatever the step and wherever in an orderly run it comes: `Harmless`. A stop may be called
  while another one owes the end of an operation exactly if no living process whose death is owed,
  or can come to be owed, is in the slot or about to be put back there. A start (never an autotest)
  may take the flag under a stop exactly if that stop owes the end of an operation, is about to take
  the handle and finds the slot empty. The other three conditions are exact as they stand. Without
  its condition, the run can go on, respecting all five, to a stop that answers Ok over a living
  process, because a stop that owes the end of an operation can always still answer Ok
  (`StopsCanFinish`); with it, no orderly continuation can, and the claim also holds for runs with
  any number of such overlaps one after the other (`StopOkStillKillsEverything`).
* **Survivors.** A process whose handle is lost is out of reach of every stop, autotest and status
  query. It lives until it exits or until the next start, which sweeps stray processes before it
  spawns (`LostProcessesDieOnlyThen`, `LostProcessesSurvive`, `OnlyLaterStartsSweep`).
* **Mirror.** A successful `promote_stable` need not have written anything: a read of the stable key
  that is served an older copy equal to the new body is taken for the answer. This matters for a
  rollback to a value the key had before. `PromoteStable` excludes it when the body is not such a
  copy, and `StaleCopyIsTakenForSuccess` produces the failing server whenever it is.
* **Backup.** A save is crash safe exactly when the state is `Intact`; a corrupt primary over a
  good older copy is not, because the rotation discards the good copy
  (`CrashSafeExactlyWhenIntact`).
* **Hosts.** The file left by an apply is accepted by the next run if and only if the body has no
  marker line, and the sanitiser keeps such comment lines (`ApplyIsAccepted`, `SanitizedBody`); so
  for the whole command it depends on the text of the channel alone (`HostsApply`).
  Foreign bytes survive exactly when a file with some CRLF has no lone line feed among them
  (`ForeignTextSurvives`).
* **Kill switch.** A probe between the version bump and the lock leaves a wrong answer in the cache
  exactly when the answer is not what holds after the command and the probe dropped no session, whichever
  of the four commands it is (`ProbeInBetween`). And asking for the status can lift the block: a
  lookup of a session that fails for any reason counts as "not found", and the session is closed, a
  transition barrier like any other. `ProbeActive` gives the exact condition for any leases and any
  pattern of failing lookups and closes: a live session is taken exactly if its lookup fails and its
  close does not; protection is lost exactly if that holds of every live session; and the answer is
  wrong exactly if no live session is found and one of them would not close. `AskUnblocks` and
  `AskDenies` give the two bad ends from every protected state, `GuardingRun` and `Run` the exact
  statement for whole runs.
* **DNS.** A pointer reads as the name it points to on every message, with no condition on where
  the walk leads (`PointersAreTransparent`): visiting a position again is an error either way.

## Model

| member | source | states |
|---|---|---|
| `DpiLifecycle.InvAlways` | src-tauri/src/dpi.rs:28-183 | in every interleaving of starts, autotests, syncs, stops, polls and process exits the guard, generation, handle and waiting invariants hold |
| `DpiLifecycle.AtMostOneOperation` | src-tauri/src/dpi.rs:121-133 | at most one guard is held, `operation` is set only under `operation_active`, and the second busy branch of a begin is never taken |
| `DpiLifecycle.FlagExactlyWhileGuarded` | src-tauri/src/dpi.rs:170-183 | `operation_active` is up exactly while some operation holds its guard, cancelled or not |
| `DpiLifecycle.NothingBegunBeforeACancelPublishes` | src-tauri/src/dpi.rs:1520-1531 | an operation begun before a cancel never publishes a child after it, whatever happens in between |
| `DpiLifecycle.WhoFillsTheSlot` | src-tauri/src/dpi.rs:82-95 | a child enters the slot only from the operation of the current generation, or back from a failed kill |
| `DpiLifecycle.HandlesAreLostExactlyThen` | src-tauri/src/dpi.rs:1520-1531 | a live process loses its only handle exactly when the slot is overwritten over a live child or an unpublished child survives termination |
| `DpiLifecycle.LostProcessesDieOnlyThen` | src-tauri/src/dpi.rs:1100-1130 | a process whose handle was lost dies exactly by exiting or in the stray sweep of a start; no stop, autotest, status query or kill reaches it |
| `DpiLifecycle.LostProcessesSurvive` | src-tauri/src/dpi.rs:60-119 | it survives every run without those two, however many stops answer Ok |
| `DpiLifecycle.OnlyLaterStartsSweep` | src-tauri/src/dpi.rs:1471-1481 | a sweep that reaches a process belongs to a start begun after the operation that spawned it |
| `DpiLifecycle.StopOkMeans` | src-tauri/src/dpi.rs:97-119 | any run: after an Ok stop the cancelled start or autotest has ended completely, and a process of it can be alive only with its handle lost, put back or held by another thread |
| `DpiLifecycleOrderly.StopOkKillsEverything` | src-tauri/src/dpi.rs:97-119 | any run in which the five steps do not happen: after an Ok stop the cancelled operation has ended and none of the processes it ever spawned is alive |
| `DpiLifecycleOrderly.NothingLeftToKill` | src-tauri/src/dpi.rs:116-118 | orderly runs: at the final stop everything the operation spawned is dead except the child being killed |
| `DpiLifecycleOrderly.LossesAreWrittenOff` | src-tauri/src/dpi.rs:3239-3266 | orderly runs: only an autotest clearing the slot loses a live process, and then no stop is still going to promise its death |
| `DpiLifecycleProgress.StopsCanFinish` | src-tauri/src/dpi.rs:97-119 | from every state, a stop that owes the end of an operation has an orderly run in which it answers Ok |
| `DpiLifecycleProgress.LossesDecide` | src-tauri/src/dpi.rs:1520-1531 | when the calls keep apart, a step drops no handle whose process is owed exactly if no orderly continuation reaches an Ok over a living process |
| `DpiLifecycleProgress.EscapesBeginWithALoss` | src-tauri/src/dpi.rs:97-119 | the same after every orderly run from the start |
| `DpiLifecycleExact.HarmIsExact` | src-tauri/src/dpi.rs:60-133 | after every orderly run, at every step of every kind: the step is harmless exactly if no orderly continuation reaches a stop that answers Ok over a living process of the operation it cancelled |
| `DpiLifecycleExact.StopOkStillKillsEverything` | src-tauri/src/dpi.rs:97-119 | the guarantee of the stop in every run whose calls overlap only as far as it does no harm |
| `DpiLifecycleExact.CancelHarms` | src-tauri/src/dpi.rs:82-119 | a stop called while another one owes the end of an operation, with a process that either owes in the slot or in an autotest's hands, can end in a false Ok |
| `DpiLifecycleExact.BeginHarms` | src-tauri/src/dpi.rs:121-133 | so can an autotest begun while a stop touches the child, and a start unless that stop owes an end and is about to find the slot empty |
| `DpiLifecycleExact.CancelSplitsBegin` | src-tauri/src/dpi.rs:121-133 | so can every stop called between the two halves of a start's or autotest's begin |
| `DpiLifecycleOverlap.CancelCrowds` | src-tauri/src/dpi.rs:82-119 | otherwise two overlapping stops keep what each owes out of the other's reach |
| `DpiLifecycleOverlap.UnderKept` | src-tauri/src/dpi.rs:97-119 | a start under a stop about to find the slot empty stays apart from what that stop owes, until the stop has returned or waits |
| `DpiLifecycleDuties.EveryDutyIsNeeded` | src-tauri/src/dpi.rs:82-119 | for each of the five, and for starts as for autotests, there is a run with none of the other four in which a stop answers Ok over a living process |
| `DpiLifecycleDuties.StopsMustNotOverlap` | src-tauri/src/dpi.rs:82-95 | the run for overlapping stops: one finds the slot empty while the other holds the child |
| `DpiLifecycleDuties.BeginsMustNotOverlapStops` | src-tauri/src/dpi.rs:89-93 | the run for a begin while a stop is killing: a put-back over a published child loses its handle, the start's sweep included |
| `DpiLifecycleDuties.StopsMustNotSplitBegins` | src-tauri/src/dpi.rs:121-133 | the same end when the stop comes between the swap of the flag and the control section |
| `DpiLifecycleDuties.PollMustBeSure` | src-tauri/src/dpi.rs:1587-1601 | the run for a poll that clears the slot of a child it could not query |
| `DpiLifecycleDuties.ChildMustDie` | src-tauri/src/dpi.rs:1525-1527 | the run for an unpublished child whose termination fails silently |
| `DpiStateObject.DpiState.RaiseFlag` | src-tauri/src/dpi.rs:121-124 | the atomic swap is the flag step of the protocol, and answers whether the flag was down |
| `DpiStateObject.DpiState.Register` | src-tauri/src/dpi.rs:125-133 | the control section of a begin performs exactly the protocol's registration step |
| `DpiStateObject.DpiState.CancelDpiOperation` | src-tauri/src/dpi.rs:157-161 | a cancel performs the protocol's step: next generation, no operation, the old one reported |
| `DpiStateObject.DpiState.Unregister` | src-tauri/src/dpi.rs:175-180 | the guard's drop withdraws the operation only of its own generation |
| `DpiStateObject.DpiState.TakeChild` | src-tauri/src/dpi.rs:82-86 | the slot is emptied and its child handed over |
| `DpiStateObject.DpiState.PutChildBack` | src-tauri/src/dpi.rs:88-94 | a child that would not die is back in the slot |
| `DpiStateObject.DpiState.PublishChild` | src-tauri/src/dpi.rs:1520-1531 | the child is published exactly if the operation is still current |
| `DpiStateObject.DpiState.MakeRoom` | src-tauri/src/dpi.rs:1379-1391 | a start goes on exactly if the slot is empty or its child has exited, and then leaves it empty |
| `DpiStateObject.DpiState.ForgetIfDead` | src-tauri/src/dpi.rs:1538-1568 | at its end a start clears away exactly a child that has exited |
| `DpiStateObject.DpiState.ChildLives` | src-tauri/src/dpi.rs:3253-3262 | an autotest goes on to clear the slot exactly if no living child is in it |
| `DpiStateObject.DpiState.IsRunning` | src-tauri/src/dpi.rs:1587-1601 | a status query forgets any child it does not know to be running |
| `WinwsArgs.RewriteActsPerSection` | src-tauri/src/dpi.rs:891-915 | splitting a rewritten command line at `--new` gives the rewritten sections, number and order kept |
| `WinwsArgs.SpreadExclusionAcrossSections` | src-tauri/src/dpi.rs:891-915 | the loop over arguments computes the section-wise exclusion |
| `WinwsArgs.UngateGameIpset` | src-tauri/src/dpi.rs:935-971 | the loop computes the section-wise ungating of game sections |
| `WinwsArgs.GateByAutohostlist` | src-tauri/src/dpi.rs:1003-1043 | the loop computes the section-wise gating by the learned list |
| `WinwsArgs.UngateIsIdempotent` | src-tauri/src/dpi.rs:935-971 | ungating twice is ungating once |
| `WinwsArgs.GateIsIdempotent` | src-tauri/src/dpi.rs:1003-1043 | gating twice is gating once |
| `WinwsArgs.SectionsCommute` | src-tauri/src/dpi.rs:935-1043 | on one section the two rewrites commute exactly if it is not a game section with the shared gate and without the any-protocol flag |
| `WinwsArgs.RewritesCommute` | src-tauri/src/dpi.rs:935-1043 | on a command line they commute exactly if none of its sections is of that kind |
| `WinwsArgs.RewritesAgree` | src-tauri/src/dpi.rs:891-1043 | two section-wise rewrites agree on a command line exactly if they agree on each of its sections |
| `WinwsArgs.DebugArgumentIsInert` | src-tauri/src/dpi.rs:1454-1464 | the debug argument put in front changes no section's hostname-awareness and nothing else |
| `WinwsArgs.WhichAreHostlists` | src-tauri/src/dpi.rs:852-863 | five options give a section a list of hosts, whatever their value |
| `WinwsArgs.VerbatimMeans` | src-tauri/src/dpi.rs:813-821 | verbatim paths lose their prefix, shares get back theirs, other paths stay |
| `WinwsMatching.SpreadMatches` | src-tauri/src/dpi.rs:865-915 | exactly which packets a section matches after the spread, in terms of those it matched before |
| `WinwsMatching.SpreadProtectsTheEndpoint` | src-tauri/src/dpi.rs:865-915 | afterwards no section matches a packet to an active VPN address, and a section without a hostlist matches all other packets as before, host-less ones included |
| `WinwsMatching.HostExclusionEverywhereWouldMuteVoice` | src-tauri/src/dpi.rs:871-889 | adding the host exclusion to a section without hostlists would stop its host-less packets |
| `WinwsMatching.GameFilterIgnoresIpsetMode` | src-tauri/src/dpi.rs:916-934 | an ungated game section matches the same packets whatever the shared ipset holds |
| `WinwsMatching.StartArgs` | src-tauri/src/dpi.rs:1436-1464 | section by section: the old one behind the gate the switches choose, the endpoint's exclusions after it, the debug argument at the very front exactly when asked for; no section is lost and none matches the active VPN address |
| `WinwsMatching.CoreMeans` | src-tauri/src/dpi.rs:1440-1451 | argument by argument: with the game filter a game section has the games' gate for the shared one, contested ones included; in the mode for blocked sites another section with hosts has the autohostlist and both thresholds for it; nothing else comes or goes |
| `ChannelFiles.NewGenerationIsComplete` | src-tauri/src/dpi.rs:2436-2596 | a generation made from an accepted bundle passes the completeness check |
| `ChannelFiles.BundleIsInstalled` | src-tauri/src/dpi.rs:2547-2587 | it holds the bundle's lists, services, strategies and payloads unchanged, but for the two fake slots |
| `ChannelFiles.NamedPayloadsAreThere` | src-tauri/src/dpi.rs:2139-2153 | every payload that some strategy argument names is in it |
| `ChannelFiles.LocalListsAreCarried` | src-tauri/src/dpi.rs:2531-2546 | every local list in force keeps its text, a missing one starts empty; the address base is the bundle's when it brings one, else the one in force, else the shipped one |
| `ChannelFiles.PayloadsComeFromTheBundle` | src-tauri/src/dpi.rs:2554-2556 | every payload in it is one of the bundle's, so nothing removed upstream survives |
| `ChannelFiles.ChosenFakesAreInForce` | src-tauri/src/dpi.rs:682-710 | each slot holds the chosen fake and the choice is recorded exactly if the bundle has it; otherwise the slot is the bundle's own and no choice is recorded |
| `ChannelFiles.VersionIsInstalled` | src-tauri/src/dpi.rs:2580-2584 | the version is the bundle's, trimmed, on one line |
| `ChannelFiles.BaseIsBrought` | src-tauri/src/dpi.rs:3039-3042 | a service file brings an address base exactly if some line is neither blank nor a comment, and then the whole file with CRLF replaced |
| `ChannelFiles.CheckStaged` | src-tauri/src/dpi.rs:2430-2505 | the checks in their order accept exactly the acceptable bundles |
| `ChannelFiles.NamedMeans` | src-tauri/src/dpi.rs:2144-2156 | an argument names the word behind its first %BIN%, if that ends in .bin |
| `ChannelFiles.PayloadNames` | src-tauri/src/dpi.rs:478-490 | what a payload's name may look like, so none leads out of its directory |
| `ChannelFiles.GenerationNames` | src-tauri/src/dpi.rs:279-283 | what a generation's name may look like |
| `ChannelFiles.SeedsAre` | src-tauri/src/dpi.rs:386-425 | a missing channel list starts as the shipped one, a missing local one empty, two are left alone |
| `ChannelCommit.PendingIsNoGeneration` | src-tauri/src/dpi.rs:2512-2514 | a directory being filled never passes for a generation |
| `ChannelCommit.SeenIsSound` | src-tauri/src/dpi.rs:319-333 | in every state readers may see, the pointer is absent or names a complete generation: the old one, or the whole new one |
| `ChannelCommit.Disk.Build` | src-tauri/src/dpi.rs:2518-2591 | building touches only the pending directory at every moment, and on success leaves exactly the specified generation there |
| `ChannelCommit.Disk.ChooseFake` | src-tauri/src/dpi.rs:656-710 | a choice is dropped exactly if the bundle no longer offers it, and else laid over its slot |
| `ChannelCommit.Disk.RemoveDir` | src-tauri/src/dpi.rs:2380-2384 | a removal that stops half-way touches no other directory |
| `ChannelSync.EnsureLists` | src-tauri/src/dpi.rs:386-425 | seeding only adds missing lists, in every state on the way |
| `ChannelSync.Sync` | src-tauri/src/dpi.rs:2393-2626 | with faults and crashes anywhere: readers see the old generation or all of the new one at every moment; refused exactly for a damaged pointer, a bad bundle or a failing call; an error leaves the pointer, and until the switch and on every error no directory that was there is touched but for added lists; Ok installs the specified generation with the local lists in force, and the previous one keeps its files; a single failure leaves no rubbish, and without one only the new and the previous generation are left |
| `ChannelSync.Cleanup` | src-tauri/src/dpi.rs:2346-2386 | the new and the previous generation survive untouched, and when no removal fails nothing else does |
| `ChannelSync.Discard` | src-tauri/src/dpi.rs:2602-2609 | what is removed before the switch, or after it, is nothing that readers or older paths use |
| `ChannelSync.AlwaysSound` | src-tauri/src/dpi.rs:2602-2618 | after any number of syncs, complete or cut off, and any edits of local lists and fake slots between them, the active generation is the one of the last sync that switched, complete and with the bundle it was made from; and the generation before that switch stays so as well, in every state until a later sync has switched again |
| `ChannelSync.SwitchesMoveOn` | src-tauri/src/dpi.rs:2597-2601 | a sync that replaces the pointer puts its bundle in force and the one before behind it; nothing else does |
| `LineText.CrlfOfNorm` | src-tauri/src/dpi.rs:2732-2738 | normalising line endings and writing CRLF back is the identity exactly on texts without a lone line feed |
| `LineText.TrimmedLines` | src-tauri/src/dpi.rs:2725-2727 | the trimmed lines of a text are the normalised trimmed text |
| `HostsMarkers.AcceptedMeans` | src-tauri/src/dpi.rs:2663-2699 | a file is accepted exactly if it has no marker line or one BEGIN line followed by one END line, and what is kept is all the rest in order |
| `HostsMarkers.MarkerInsideIsRefused` | src-tauri/src/dpi.rs:2663-2699 | any marker line inside a block makes the scan fail |
| `HostsFile.StripManagedBlock` | src-tauri/src/dpi.rs:2663-2699 | the loop returns the kept lines or exactly the error of the scan |
| `HostsFile.BlockShows` | src-tauri/src/dpi.rs:2657-2659 | in an accepted file a BEGIN line and a block are the same thing |
| `HostsFile.BytesComeBack` | src-tauri/src/dpi.rs:2711-2720 | decoding and encoding returns every byte sequence unchanged |
| `HostsFile.Encode` | src-tauri/src/dpi.rs:2715-2720 | encoding fails exactly on a character above 255 and is undone by decoding |
| `HostsFile.HostsFile.KeepBackup` | src-tauri/src/dpi.rs:2884-2903 | the original without our block, once; refuses exactly when a call fails |
| `HostsFile.HostsFile.Apply` | src-tauri/src/dpi.rs:2878-2932 | a damaged file is refused; otherwise the answer tells the content, Ok exactly if no call fails and the text can be written, and the old contents are back unless a second call fails |
| `HostsFile.HostsFile.Clear` | src-tauri/src/dpi.rs:2946-2961 | the same for taking the block out; without a block nothing is written |
| `HostsTheorems.ApplyIsAccepted` | src-tauri/src/dpi.rs:2905-2916 | what an apply leaves is accepted again exactly if the body has no marker line, and then reads as the kept text and that body |
| `HostsTheorems.ApplyKeepsEndings` | src-tauri/src/dpi.rs:2732-2738 | a file keeps its kind of line endings through an apply |
| `HostsTheorems.LastApplyWins` | src-tauri/src/dpi.rs:2878-2932 | applying two bodies one after the other is applying the second |
| `HostsTheorems.ClearUndoesApply` | src-tauri/src/dpi.rs:2946-2961 | clearing after an apply leaves the kept text with its end trimmed, which a further clear does not change |
| `HostsTheorems.StatusSeesTheBody` | src-tauri/src/dpi.rs:2812-2841 | the status scan after an apply finds one block whose text is the body |
| `HostsBlock.ForeignTextSurvives` | src-tauri/src/dpi.rs:2729-2738 | foreign bytes before the trimmed end are unchanged exactly if a CRLF file has no lone line feed among them |
| `HostsSanitizer.SanitizeHostsBody` | src-tauri/src/dpi.rs:2774-2807 | accepts exactly the bodies all of whose lines are fit, reports the first unfit one, and returns the cleaned lines |
| `HostsSanitizer.SanitizedMeans` | src-tauri/src/dpi.rs:2776-2805 | every line that gets through is blank, a comment, or an address with at least one valid domain |
| `HostsSanitizer.SanitizedBody` | src-tauri/src/dpi.rs:2778-2780 | a sanitised body has no stray carriage returns and keeps a marker line exactly if the input had one |
| `HostsRuns.PrepareBody` | src-tauri/src/dpi.rs:2847-2867 | from the channel text to the body: refused exactly without records, or at a line that is not fit |
| `HostsRuns.BodiesAreClean` | src-tauri/src/dpi.rs:2857-2872 | every body has clean line ends, and a marker line exactly if the channel text had one |
| `HostsRuns.HostsApply` | src-tauri/src/dpi.rs:2847-2932 | Ok leaves the text with the prepared body, accepted again exactly without marker lines in the channel text; each refusal has its reason, and when no call fails it is a bad channel text, a damaged file or a text that cannot be written |
| `HostsRuns.ApplyTwiceAndClear` | src-tauri/src/dpi.rs:2847-2961 | on the bytes of the file, for any two channel texts: when applying, applying again and clearing answer Ok, exactly the foreign lines of the original are left, and the backup is the original without a block |
| `DomainLists.AutoDomainsFrom` | src-tauri/src/dpi.rs:1047-1059 | the backward loop returns the specified list |
| `DomainLists.ListedMeans` | src-tauri/src/dpi.rs:1047-1059 | every domain of the file is listed, once whatever its case, and nothing else |
| `DomainLists.DomainLines` | src-tauri/src/dpi.rs:1047-1060 | a line names a domain exactly if it is not blank and its text begins neither with '#' nor with two slashes |
| `DomainLists.ListedIsNewestFirst` | src-tauri/src/dpi.rs:2985-2992 | each in the spelling of the last line that names it, latest line first |
| `DomainLists.ForgetCommutes` | src-tauri/src/dpi.rs:3000-3024 | listing after forgetting is the old list without every spelling of the domain, order kept |
| `DomainLists.AutoForget` | src-tauri/src/dpi.rs:3000-3024 | an empty domain is refused; else the returned list is that one, and reading the written file again gives the same |
| `DomainLists.WriteList` | src-tauri/src/dpi.rs:1711-1735 | writes the specified lines and counts the different domains |
| `DomainLists.SavedMeans` | src-tauri/src/dpi.rs:1711-1735 | saved lines are trimmed, no domain twice, no domain or comment lost or invented |
| `DomainLists.SavingIsIdempotent` | src-tauri/src/dpi.rs:1711-1735 | saving what was saved changes neither text nor domains |
| `DnsCheck.ReadDnsName` | src-tauri/src/dnscheck.rs:80-124 | terminates on every message and start; Ok is the name denoted there, an error has its cause and means that no name is denoted |
| `DnsCheck.NamesAreUnique` | src-tauri/src/dnscheck.rs:80-124 | a position denotes at most one name |
| `DnsCheck.NoWayOutOfACycle` | src-tauri/src/dnscheck.rs:86-89 | coming back to a visited position means that the name never ends |
| `DnsCheck.NamesStayInBounds` | src-tauri/src/dnscheck.rs:80-124 | start < end <= message length, labels of 1 to 63 bytes |
| `DnsCheck.PointersAreTransparent` | src-tauri/src/dnscheck.rs:91-102 | a pointer denotes exactly the labels of its target and ends two bytes on (RFC 1035 section 4.1.4) |
| `DnsProbe.BuildDnsQuery` | src-tauri/src/dnscheck.rs:23-62 | accepts exactly the hosts whose labels and encoded name fit (RFC 1035 section 2.3.4), with the right error otherwise, and returns the specified query |
| `DnsProbe.ParseDnsQuestion` | src-tauri/src/dnscheck.rs:126-136 | Ok exactly if the message asks a question there, and returns it |
| `DnsProbe.ValidateDnsResponse` | src-tauri/src/dnscheck.rs:138-171 | Ok exactly if the response answers the query, and every refusal has its reason |
| `DnsProbe.EncodedNameReads` | src-tauri/src/dnscheck.rs:37-58 | an encoded name, wherever it stands, reads as its labels in lower case |
| `DnsProbe.QueryAsksForItsHost` | src-tauri/src/dnscheck.rs:23-62 | the built query asks for exactly the lower-cased labels of its host, type 1, class 1 |
| `DnsProbe.EveryEchoIsAccepted` | src-tauri/src/dnscheck.rs:138-171 | every successful echo with an answer is accepted, whatever the case of its labels (RFC 1035 section 2.3.3) |
| `DnsProbe.NothingElseIsAccepted` | src-tauri/src/dnscheck.rs:138-171 | an accepted response echoes the question for the host, type A, class IN: its labels are the host's, of the same lengths, byte by byte equal up to the case of ASCII letters |
| `DnsProbe.HostMeans` | src-tauri/src/dnscheck.rs:22-34 | the queried name is the host without blanks around and dots behind, and its labels are the texts between the dots |
| `DnsProbe.Utf8IsOneToOne` | src-tauri/src/dnscheck.rs:57-61 | different texts are different bytes in a query (RFC 3629) |
| `DnsCheck.FoldingMeans` | src-tauri/src/dnscheck.rs:111-117 | two byte strings fold together exactly if they differ only in the case of ASCII letters, and no capital is left |
| `DnsCheck.PointersPoint` | src-tauri/src/dnscheck.rs:91-103 | a compression pointer leads where RFC 1035 section 4.1.4 says |
| `KillSwitch.KillSwitchState.ArmPolicy` | src-tauri/src/killswitch.rs:126-197 | for any session that builds or not and any set that refuses to close: refused exactly for inadmissible policies with the right error; if the session does not build nothing changes; else it replaces exactly the policies that close, the barrier stays, the answer is Ok exactly if all closed, and there is no moment without a live session if there was one |
| `KillSwitch.RefusedOrAdmissible` | src-tauri/src/killswitch.rs:142-157 | the checks in their order refuse exactly what is not admissible |
| `KillSwitch.KillSwitchState.TransitionArm` | src-tauri/src/killswitch.rs:202-226 | the answer in every case; a second barrier is never built, nothing is ever taken away |
| `KillSwitch.KillSwitchState.TransitionRelease` | src-tauri/src/killswitch.rs:253-282 | closes exactly the barrier sessions that do not refuse, leases go exactly with their sessions, Ok exactly if none refuses |
| `KillSwitch.KillSwitchState.DisarmPolicy` | src-tauri/src/killswitch.rs:321-343 | closes exactly the sessions that do not refuse, the leases left are those of the refusing ones, Ok exactly if there are none |
| `KillSwitch.KillSwitchState.ProbeActive` | src-tauri/src/killswitch.rs:369-407 | for any leases and any failing lookups and closes: what is left is exactly what was found or would not close; protection is lost exactly if every live session's lookup failed and its close did not; the answer is wrong exactly if no live session was found and one would not close; the version is bumped exactly if a lease was dropped |
| `KillSwitch.KillSwitchState.StoreHealth` | src-tauri/src/killswitch.rs:112-121 | an answer is kept only if the version is still the one it was asked under |
| `KillSwitch.KillSwitchState.IsActive` | src-tauri/src/killswitch.rs:358-366 | from the cache nothing changes and a coherent cache answers right; otherwise the answer is right exactly if the probe is not misled, and a wrong one is cached exactly if the probe dropped nothing |
| `KillSwitch.KillSwitchState.ForceDisarm` | src-tauri/src/killswitch.rs:411-420 | closes exactly the sessions that do not refuse, forgets all leases |
| `KillSwitch.Released` | src-tauri/src/killswitch.rs:253-282 | closing barriers leaves the policies as they were, and one lease to each open session |
| `KillSwitchRuns.Run` | src-tauri/src/killswitch.rs:84-420 | over any run: each command leads to exactly the live sessions it should; sessions are conserved and at most one barrier is held; unless the engine lost sessions, an answer is wrong exactly if a probe was misled |
| `KillSwitchRuns.GuardingRun` | src-tauri/src/killswitch.rs:369-407 | through a run of arming, barrier and status commands there is a moment without a live session exactly if a status query takes all there are, and the barrier sessions gone are exactly those that queries took |
| `KillSwitchRuns.AskUnblocks` | src-tauri/src/killswitch.rs:380-388 | in every protected state a query that looks and whose lookups fail closes every session, the barrier too, and forgets them |
| `KillSwitchRuns.AskDenies` | src-tauri/src/killswitch.rs:583-611 | if the closes fail as well, it denies the protection that is still there, and so do the queries answered from the cache |
| `KillSwitchRuns.ProbeInBetween` | src-tauri/src/killswitch.rs:138-139 | a probe between the bump and the lock of any command leaves a wrong answer in the cache exactly if it had nothing to drop and protection after the command, which the faults decide, is not what it answered |
| `MirrorRegistry.Download` | scripts/gitlab_mirror.py:118-143 | at most three requests, each but the last answered by a transient failure, and the last answer decides; an older copy only of the stable key |
| `MirrorRegistry.Upload` | scripts/gitlab_mirror.py:145-171 | the same for writes; the file is there exactly if one of them landed, whatever the answers say |
| `MirrorRegistry.VerifyBlob` | scripts/gitlab_mirror.py:183-212 | Ok only after reading the expected content, and, while reads do not fail, exactly if one of six shows it |
| `GitlabMirror.Prepare` | scripts/gitlab_mirror.py:267-283 | accepts exactly sources with an installer, a version and the matching signature, and the metadata it makes is valid for its own address |
| `GitlabMirror.EnsureImmutable` | scripts/gitlab_mirror.py:214-240 | versioned files never change; however writes are treated, as long as reads are served another content is a conflict, and Ok says exactly that the file is there: a landed write whose replies were lost counts |
| `GitlabMirror.PromoteStable` | scripts/gitlab_mirror.py:242-257 | old file or body at every moment; however writes are treated, as long as reads are served Ok says exactly that the stable file is the body; an older copy equal to the body is taken for it |
| `GitlabMirror.StaleCopyIsTakenForSuccess` | scripts/gitlab_mirror.py:243-245 | whenever the body is a servable older copy, some server makes the promotion succeed without writing |
| `GitlabMirror.StagesAreSafe` | scripts/gitlab_mirror.py:260-297 | in every stage of a promotion versioned files are unchanged, and the stable file is the old one or the metadata under its own version key with its installer present |
| `GitlabMirror.StagesConverge` | scripts/gitlab_mirror.py:260-297 | promoting again from any stage stays within the stages of the first promotion and ends in the same registry |
| `GitlabMirror.PromoteRelease` | scripts/gitlab_mirror.py:260-297 | passes only through stages of its release; as long as reads are served and neither file conflicts, Ok exactly if the registry is the promoted one; Ok on an answering server |
| `MirrorRuns.RollbackStable` | scripts/gitlab_mirror.py:300-323 | safe after every write; on an answering server it succeeds exactly for complete releases, and as long as reads are served exactly if the stable file then is that release's metadata |
| `MirrorRuns.VersionMeans` | scripts/gitlab_mirror.py:302-303 | a release version is three numbers with dots between them |
| `MirrorRuns.RunJobs` | scripts/gitlab_mirror.py:260-323 | over any sequence of promotions and rollbacks, after every single write: versioned files unchanged, the stable file the first one or consistent |
| `MirrorRuns.Resume` | scripts/gitlab_mirror.py:260-297 | a promotion interrupted anywhere is completed by running it again once the server answers |
| `BackupStore.SaveIsCrashSafe` | src-tauri/src/backup.rs:67-103 | from an intact state, stopped anywhere, a load gives the new snapshot or what it gave before, and the state is intact again |
| `BackupStore.CrashSafeExactlyWhenIntact` | src-tauri/src/backup.rs:67-103 | that holds for every fault exactly from intact states |
| `BackupStore.OtherwiseACrashLosesTheSnapshot` | src-tauri/src/backup.rs:67-103 | from any other state a fault in the rotation loses the snapshot |
| `BackupStore.SaveWithoutFaults` | src-tauri/src/backup.rs:67-103 | a save that meets no fault makes the new snapshot the one that is loaded |
| `BackupStore.SaveOnlyMoves` | src-tauri/src/backup.rs:67-103 | a save brings nothing to the disk but the new snapshot and what was there |
| `BackupStore.Store.Save` | src-tauri/src/backup.rs:67-103 | the steps on the files are those of the specification |
| `BackupStore.Store.Clear` | src-tauri/src/backup.rs:284-305 | removes the four files in order up to the first failure, and counts those that were there |
| `BackupStore.LoadMeans` | src-tauri/src/backup.rs:256-271 | which file is loaded |
| `BackupFence.FenceHolds` | src-tauri/src/backup.rs:20-66 | in every interleaving all data on disk was captured after every clear that answered Ok |
| `BackupFence.SaveRespectsTheFence` | src-tauri/src/backup.rs:52-66 | under the lock a save puts nothing on the disk that was captured before a finished clear |
| `BackupFence.ClearedDataStaysGone` | src-tauri/src/backup.rs:284-305 | a snapshot loaded after an Ok clear comes from a save that captured its generation after that clear |
| `BackupFence.ClearErases` | src-tauri/src/backup.rs:284-305 | right after an Ok clear there is nothing to load |
| `BackupFence.CurrentSavesAreLoaded` | src-tauri/src/backup.rs:52-170 | a save with the current generation and no failing operation is what the next load finds |
| `AtomicFile.Target.WriteAll` | src-tauri/src/atomic_file.rs:109-114 | under short writes, interruptions and faults, Ok means all was written and an error some beginning of it |
| `AtomicFile.Target.OverwriteOrRestore` | src-tauri/src/atomic_file.rs:119-136 | the outcome tells the exact content, and is decided by the calls that fail: none, and the body is written; one, wherever it is, and the original is put back; only a second one leaves the file damaged |
| `AtomicFile.Directory.WriteBytesReplace` | src-tauri/src/atomic_file.rs:44-67 | wherever it is refused or dies: old or new contents at every moment; replaced exactly if it is not stopped and the temporary file is new; an error leaves the destination alone |
| `HostPressure.HostPressureState.Observe` | src-tauri/src/host_pressure.rs:149-191 | the counters answer what the whole sample history says |
| `HostPressure.Run` | src-tauri/src/host_pressure.rs:149-191 | after any history pressure is on exactly if the last pair of over samples ends later than the last triple of under samples, with a reason exceeded in the latest over sample |
| `HostPressure.ThresholdsAreApart` | src-tauri/src/host_pressure.rs:57-87 | no sample is over and under at once |
| `HostPressure.WhereTheBandsLie` | src-tauri/src/host_pressure.rs:57-87 | pressure is entered by any one gauge and left only by all, at the documented values; a gauge that cannot be read does neither |
| `HostPressure.NoCpuLoad` | src-tauri/src/host_pressure.rs:204-220 | when there is no CPU reading |
| `HostPressure.PressureStep` | src-tauri/src/host_pressure.rs:149-191 | one more sample turns pressure on with a pair, off with a triple, and keeps it otherwise |
| `HostPressure.CpuLoadIsTheBusyShare` | src-tauri/src/host_pressure.rs:204-219 | never above the busy share; that share rounded down while a hundredfold of it fits 64 bits, and saturated beyond |

## Left out

- Network, processes, the registry, Job Objects and the Windows filtering engine: calls into them are steps that succeed or fail.
- Cryptography and formats: signatures, sealed backups, zip and JSON are taken as given; a verified bundle, a parsed file and a sealed text appear as plain values. SHA-256 and length together are taken as equality of contents.
- `valid_snapshot_value` and the migration of plain backups: a snapshot is valid or not, as a given predicate of its text.
- Clocks: timeouts, cache age and retry delays are arbitrary choices or bounded counters. Generation counters do not wrap.
- DpiLifecycleOrderly.StopOkKillsEverything: holds for the runs without five kinds of step, none of which can be allowed everywhere (`EveryDutyIsNeeded`); `DpiLifecycleExact.HarmIsExact` is the exact condition on one step, and `DpiLifecycle.StopOkMeans` the unconditional part.
- DpiLifecycle.InvAlways: does not model `driver_loaded`, `owned_services` and the data lock, which play no part in who owns a process.
- GitlabMirror.PromoteStable: Ok does not mean written when the body is an older copy of the stable file, which is how the code behaves.
- GitlabMirror.PromoteRelease: one promoter at a time, reads of versioned keys are current, and a write whose reply is lost lands at once or never; the installer's name is not `latest.json`, as `main` finds it by `*-setup.exe`.
- MirrorRuns.RollbackStable: version digits are ASCII; package addresses are one to one with keys, percent-encoding itself is not modelled.
- ChannelSync.Sync: a failed rename or replace changes nothing, and directory names made from clock, process and counter are new; the chosen fakes are an argument; which of the checks on a staged bundle failed is not distinguished; seeding a missing list is one step.
- ChannelSync.AlwaysSound: edits happen between syncs, which the data lock ensures for the program's own commands; what winws writes to the learned list during a sync is not modelled.
- ChannelSync.Cleanup: the warnings it collects are not modelled.
- KillSwitch.KillSwitchState.ArmPolicy: filters and address masks are not modelled, only that a session blocks while it lives; commands are atomic, except in `ProbeInBetween`; a session that fails to build leaves nothing open.
- HostsFile.HostsFile.Apply: flushing the DNS cache is not modelled.
- HostsSanitizer.SanitizeHostsBody: whether a word is an IP address is a given predicate.
- DomainLists.WriteList: the choice between the files of the user's lists, and their reading, are not modelled.
- AtomicFile.Target.OverwriteOrRestore: opening the file is not modelled here; nothing is promised when the rollback fails as well.
- HostPressure.HostPressureState.Observe: the snapshot's informational copies of the last sample are not modelled.
- The connection lifecycle in `src/main.js`, the tray and window code, and the smaller modules of the native side: only short or local claims.
