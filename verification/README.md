# cc-clip: a verified model

cc-clip carries the clipboard, notifications and editor hooks of a desktop to remote hosts over SSH. This
project models the parts of it that keep state or rewrite text, in the form the program has them, and
proves what their comments and documentation promise: methods with loops and frames where the program
changes things step by step, functions and lemmas where it computes.

Everything the program cannot decide for itself is an input. Other processes, the child `ssh`, probes,
clocks, disks and schedulers are finite scripts that the methods consume: before every system call the
script may rewrite what others can reach and may make the call fail. A theorem about a method is
therefore a theorem about every interleaving.

| files | subject |
|---|---|
| `Directories`, `ShimUninstall`, `ShimInstall` | Shims beside the programs they stand for. A directory maps names to entries; others act on every shared name between any two calls. Installing clears all destinations first and undoes what it did on failure; uninstalling swaps, carries to a private name, looks, and only then unlinks. |
| `TunnelStore`, `TunnelTrace`, `SshBackend`, `TunnelSupervisor` | The supervisor of a managed tunnel: the record on disk, the backend object whose reap goroutines race every call, the loop with its crash-loop breaker, its fail-closed healthy state and its stable window, and many runs on one store. |
| `SshConfig`, `SshConfigEdit`, `SshConfigMeaning`, `SshConfigEffect` | The edit of `~/.ssh/config`, an evaluator of the first-obtained-value rule of ssh_config(5), and what OpenSSH obtains before and after. |
| `ClipboardCache`, `ClipboardReaders` | The Windows clipboard cache: buffers nobody shares, and readers beside writers as a state machine. |
| `NonceRegistry`, `NonceTable`, `Deduper`, `NotifyQueues` | Notification nonces (a map and an order slice over a backing array), the swept deduper against its full history, and the two bounded queues with priority. |
| `ClaudeSettings`, `ClaudeHooks` | Merging hooks into a JSON settings tree and removing them again. |
| `DibMasks`, `DibDecoder`, `DibRoundTrip` | Clipboard bitmaps decoded to pixels, and a writer whose output decodes to itself. |
| `CodexNotify` | The scanner of the Codex notify line against a printer of such lines. |
| `Wrappers`, `Text`, `Numerals` | Options and bytes, the string functions of the Go library the rest uses, decimal numerals. |

`dafny verify dfyconfig.toml` checks all of it.

## What turned out false, and when it holds

* **A rollback does not give back everything.** `ShimInstall.InstallWithOptions` says exactly when a failed
  install restores the directory. A link, or a shim of ours, that the main shim replaced is lost
  (`ShimInstall.ReplacedLinkIsLost` is a run that loses one), and so is a sidecar that was in the way but
  could not be looked at (`ShimInstall.OverlookedSidecarIsLost`, a run that even reports success). Without
  interference no other program is ever overwritten.
* **Installing and uninstalling is the identity** exactly when every destination was vacant or a program
  that was adopted, and had no sidecar (`ShimInstall.RoundTrip`).
* **A shim can fall back to itself**: one installed into /usr/bin when no other program is found.
  `ShimInstall.FallsBackToItself` says exactly when.
* **A half-done Wayland uninstall resumes** exactly when no foreign program had been adopted at the main
  path (`ShimUninstall.HalfDoneResumes`).
* **An edit of the SSH configuration without a warning is not always effective.** A Host line that also
  negates the host (`SshConfigEffect.NegatedPattern`) and an `Include` inside the block
  (`SshConfigEffect.IncludeInBlock`) defeat it silently. `SshConfigEffect.RunConnects` says exactly when the
  file a run leaves gives the three directives.
* **A second run of the edit changes nothing** exactly when the first found a block of the host or the host
  can stand on a Host line as one word that does not begin with `=` (`SshConfigMeaning.OneRunSettles`).
* **The comment in `server.go:224-226` says that registering a nonce again keeps its place.** The code moves
  it to the back when it is for the same non-empty host (`NonceRegistry.ReRegistering`); the code is modelled.
* **Removing the Claude hooks undoes merging them** exactly when the merge changed nothing or no event array
  and no hooks object was empty (`ClaudeHooks.RemoveUndoesMerge`). A matcher without a `matcher` key that
  holds one managed command is dropped with its other key (`ClaudeSettings.OtherKeyIsLost`).
* **A colour mask with gaps may or may not scale to the full range** (`DibMasks.GapsEitherWay`); for every
  mask `DibMasks.FullIff` says which.
* **Type can answer differently from the cache** when the clipboard holds an image and text
  (`ClipboardReaders.CachedTypeDiffers`, exact in `CachedTypeAgrees`).

## Model

| member | source | states |
|---|---|---|
| `Directories.Directory.IsOurShim` | internal/shim/install.go:636-651 | a shared name may change between the two looks; on a private name or undisturbed, yes means a regular file with the marker in its header, and undisturbed without faults exactly then |
| `Directories.Directory.MoveNoReplace` | internal/shim/exchange_linux.go:13-15 | never replaces an entry; fails without a change; whatever others do, no foreign entry is lost between its two names |
| `Directories.Directory.Exchange` | internal/shim/exchange_linux.go:8-11 | swaps two entries at the moment of the call or changes nothing, and loses no foreign entry |
| `Directories.Directory.RemovePrivate` | internal/shim/install.go:432-443 | unlinks a private name, and only scratch or a shim |
| `Directories.LossIsNotOurs` | internal/shim/install.go:391-403 | whenever a foreign entry disappears from all its homes during a safe stretch of calls, some move of another process removed it |
| `ShimUninstall.Preflight` | internal/shim/install.go:367-389 | only looks; undisturbed it decides exactly as the entries call for |
| `ShimUninstall.PrepareQuarantine` | internal/shim/install.go:448-469 | the rename without replacing has just worked on private names, nothing others can see has changed, and the private name handed out is vacant |
| `ShimUninstall.TakeBack` | internal/shim/install.go:403-425 | swaps the sidecar back by one exchange or makes no step |
| `ShimUninstall.Retire` | internal/shim/install.go:425-446 | the displaced entry is unlinked only after it was seen to be a shim at the private name; else it goes back or stays in quarantine |
| `ShimUninstall.UninstallShim` | internal/shim/install.go:403-446 | for every interleaving each step is safe: foreign entries stay on the path, the sidecar or the quarantine name and at most one shim is unlinked, at the private name; a refusal touches no shared name; undisturbed it restores exactly; no shared name is touched before the rename was shown to work on private ones |
| `ShimUninstall.UninstallAlreadyDone` | internal/shim/install.go:323-329 | undisturbed, yes means that neither the path nor its sidecar is there |
| `ShimUninstall.ProbeCapabilities` | internal/shim/install.go:335-365 | yes means that since the call a rename of a private entry went through and, if asked for, an exchange of two; left alone it says yes exactly when none of its first four or five calls fails; nothing others can see changes, whatever fails |
| `ShimUninstall.GatherPending` | internal/shim/install.go:259-284 | inspects every destination before anything changes; left alone the exchange is asked for exactly when some path has an adopted program to go back; undisturbed the list is exactly the due paths |
| `ShimUninstall.ProcessAll` | internal/shim/install.go:297-301 | each path is processed safely; undisturbed the result is all paths restored, one after the other |
| `ShimUninstall.Uninstall` | internal/shim/install.go:248-303 | a whole request is safe for every interleaving; a refusal before the first path leaves everything others can see; undisturbed it succeeds exactly when it should and then equals the specified result; no shared name is touched before the rename, nor, when an adopted program is to go back, before the exchange has been shown to work on private names |
| `ShimUninstall.AfterMeans` | internal/shim/install.go:254-303 | restoring the due paths in order is restoring the main path and then the companion |
| `ShimUninstall.StillDue` | internal/shim/install.go:297-301 | what was found due before the batch is still due when its turn comes |
| `ShimUninstall.HalfDoneResumes` | internal/shim/install.go:265-276 | a half-done Wayland request is accepted again exactly when no foreign program had been adopted at the main path |
| `ShimInstall.ShimTextIsOurs` | internal/shim/install.go:629-651 | every shim this program writes is recognised as its own |
| `ShimInstall.ShimTextTells` | internal/shim/template.go:7-23 | no two pairs of port and program give a shim the same text |
| `Directories.OwnershipMeans` | internal/shim/install.go:616-651 | a shim of ours is exactly a readable regular file with the marker line within its first 512 characters |
| `ShimInstall.PrepareShimPath` | internal/shim/install.go:522-586 | decides without a change whether a destination is clear, adopted or refused; whatever calls fail, only a program is adopted and only a vacant place, a link or a shim of ours is overwritten, and a sidecar in the way is overlooked only if the very look at it failed; undisturbed exactly as specified |
| `ShimInstall.WriteShimFile` | internal/shim/install.go:597-627 | writes through a private file and one rename; undisturbed only the path changes |
| `ShimInstall.Replay` | internal/shim/install.go:193-206 | plays the undo stack backwards; undisturbed the result is the specified undoing |
| `ShimInstall.Perform` | internal/shim/install.go:193-246 | a failed install whose rollback went through leaves every entry but those on the lost names; a finished one leaves exactly the adopted programs and shims |
| `ShimInstall.InstallWithOptions` | internal/shim/install.go:117-246 | all destinations are cleared before any is touched; a refusal changes nothing; a failure whose rollback went through restores the directory if and only if the main shim had replaced nothing and no sidecar had been overlooked; what was replaced was a link or a shim of ours; a success leaves shims that fall back to the adopted program; after a calm install each shim has the port and falls back to one program: what was adopted, else what a live link elsewhere led to, else what an earlier adoption kept, else the search result, else the one in /usr/bin; and on no schedule to itself unless the search says so or nothing was found for a shim in /usr/bin |
| `ShimInstall.FallsBackToItself` | internal/shim/install.go:159-190 | a shim is told to fall back to its own path if and only if nothing was adopted, linked elsewhere or kept, and the search gave that path or, in /usr/bin, nothing |
| `ShimInstall.ReplacedLinkIsLost` | internal/shim/install.go:220-237 | a run, with its one fault, in which a link is replaced, the companion cannot be written, the rollback goes through and the link is gone |
| `ShimInstall.OverlookedSidecarIsLost` | internal/shim/install.go:569-580 | a run, with its one fault, that reports success and has overwritten a sidecar it could not see |
| `ShimInstall.UndoSpares` | internal/shim/install.go:193-206 | undoing touches no name it has no entry for |
| `ShimInstall.RoundTrip` | internal/shim/install.go:117-303 | uninstalling what was installed gives the starting directory back if and only if every destination was vacant or adopted and had no sidecar |
| `ShimInstall.CalmRoundTrip` | internal/shim/install.go:117-303 | the same for what others can see, through the decisions of both requests |
| `ShimInstall.InstallThenUninstall` | internal/shim/install.go:117-303 | the two requests in a row, as they run, restore what the user had exactly when the installation was reversible |
| `TunnelStore.NameInjective` | internal/tunnelmgr/state.go:28-76 | different states have different names |
| `TunnelStore.ParseStateMeans` | internal/tunnelmgr/state.go:85-97 | exactly the names of states parse, each to its state |
| `TunnelStore.DecodeMeans` | internal/tunnelmgr/store.go:122-227 | a file decodes to a record exactly when it is the encoding of that valid record |
| `TunnelStore.CountMeans` | internal/tunnelmgr/supervisor.go:387-413 | the count of a history is of exactly the early failures since the last late failure, clean stop or reset |
| `TunnelStore.Store.Load` | internal/tunnelmgr/store.go:122-141 | loads exactly a stored valid record, and tells a missing file from an unreadable one |
| `TunnelStore.Store.Save` | internal/tunnelmgr/store.go:143-188 | stores the record as a whole or leaves the old one; invalid records are refused |
| `TunnelStore.Store.Reset` | internal/tunnelmgr/store.go:108-120 | whatever the file holds, a success leaves a first record, a closed breaker and a count of zero, and establishes the invariant of the store; a failure leaves the file |
| `TunnelTrace.SeenMeans` | internal/tunnelmgr/supervisor.go:138-321 | what an iteration is credited with was seen in that same iteration |
| `TunnelTrace.HealthyIsProven` | internal/tunnelmgr/supervisor.go:204-314 | whenever Healthy is stored or observed, the same iteration saw the local daemon match, the forward of the child started last, the remote probe OK and the expected identity |
| `TunnelTrace.ClearedAfterStableWindow` | internal/tunnelmgr/supervisor.go:461-472 | the retry counter is cleared only right at a healthy observation, a window later than another, both with all four checks passed and no other state between |
| `TunnelTrace.NoStartOnceOpen` | internal/tunnelmgr/supervisor.go:138-202 | every child started in a run was started by a call made with fewer saved failures than the threshold, and none after the breaker opened |
| `TunnelTrace.StartsGrow` | internal/tunnelmgr/supervisor.go:138-202 | the starts of a trace are of different children, in growing order, and are counted |
| `SshBackend.Backend.ReapChild` | internal/tunnelmgr/sshbackend.go:102-119 | the current child is gone with its forward and its exit kept; a late reap of an older child changes no field |
| `SshBackend.Backend.Start` | internal/tunnelmgr/sshbackend.go:53-100 | succeeds exactly when no child runs at that moment and the process comes up; then a new child is running, not forwarded and without a pending exit, else nothing has changed but by reaps |
| `SshBackend.Backend.Running` | internal/tunnelmgr/sshbackend.go:121-125 | the answer is the flag at that moment, whatever reaps came before |
| `SshBackend.Backend.Forwarded` | internal/tunnelmgr/sshbackend.go:127-131 | the answer is running and forwarded at that moment |
| `SshBackend.Backend.ConsumeLastExit` | internal/tunnelmgr/sshbackend.go:143-153 | exactly the pending exit is handed out and forgotten |
| `SshBackend.Backend.WaitReady` | internal/tunnelmgr/sshbackend.go:173-197 | ready exactly when a check of the socket goes through before the child is gone or the time is over; waiting changes nothing but by reaps |
| `SshBackend.ReadyMeans` | internal/tunnelmgr/sshbackend.go:173-197 | a wait ends well if and only if in some round the child runs and the socket answers, before the child is gone or the time is over |
| `SshBackend.Backend.Forward` | internal/tunnelmgr/sshbackend.go:206-222 | succeeds exactly when the command over the current control socket does, and tells a conflict from other failures |
| `SshBackend.Backend.Cancel` | internal/tunnelmgr/sshbackend.go:224-238 | the forward is off or the call failed, and nothing starts; with no child running nothing is done |
| `SshBackend.Backend.Stop` | internal/tunnelmgr/sshbackend.go:240-301 | afterwards the backend owns no child, on every path, and a child that was running has been reaped, or was killed in the course of it; an exit that then waits is that of the child, if it was reaped before it was let go |
| `SshBackend.Backend.WindDown` | internal/tunnelmgr/sshbackend.go:251-289 | the log, the fields and the turns that pass are those of the specified course: cancel, ask, wait; terminate, wait; kill |
| `SshBackend.WindingMeans` | internal/tunnelmgr/sshbackend.go:251-289 | a child whose forward is cancelled, that accepts the request to exit and is seen to go in time gets no signal; any other is told to terminate; it is killed if and only if the turn after that ends with it unreaped or too late, and that turn stands between the two signals |
| `SshBackend.StopIsGentle` | internal/tunnelmgr/sshbackend.go:240-301 | stopping a child that obeys, or is gone, signals nobody |
| `SshBackend.ExitOfMeans` | internal/tunnelmgr/sshbackend.go:102-119 | how a child ended is the one exit it was reaped with while the backend owned it |
| `SshBackend.FieldsAreReplayed` | internal/tunnelmgr/sshbackend.go:53-301 | at every moment the log is legal and the fields are what replaying it gives |
| `SshBackend.RunningMeans` | internal/tunnelmgr/sshbackend.go:53-125 | for every history, Running holds if and only if the latest started child was neither reaped nor let go |
| `SshBackend.ForwardedMeans` | internal/tunnelmgr/sshbackend.go:127-238 | while a child runs, Forwarded holds if and only if Forward succeeded on that same child and was not cancelled |
| `SshBackend.SignalsItsOwn` | internal/tunnelmgr/sshbackend.go:238-289 | whatever is asked to exit, terminated or killed is the child started last, which the backend still owns |
| `SshBackend.WaitingExitIsNew` | internal/tunnelmgr/sshbackend.go:102-153 | an exit that waits belongs to a reaped child and was not handed out before |
| `SshBackend.ExitTakenOnce` | internal/tunnelmgr/sshbackend.go:143-153 | each exit is consumed at most once |
| `TunnelSupervisor.KeyInjective` | internal/tunnelmgr/supervisor.go:499-525 | the joined key determines state, remote state, last error and failure count |
| `TunnelSupervisor.SameKey` | internal/tunnelmgr/supervisor.go:499-525 | a save that is skipped for an equal key would have saved the same record |
| `TunnelSupervisor.Supervisor.Persist` | internal/tunnelmgr/supervisor.go:499-525 | after success the record on disk agrees with memory even when the save is skipped; a failure leaves the old record |
| `TunnelSupervisor.Supervisor.Transition` | internal/tunnelmgr/supervisor.go:444-459 | memory is the new state, remote state and error, and any state but Healthy ends the window; Healthy is stored only on the full evidence; the invariant of run, store and backend is kept |
| `TunnelSupervisor.Supervisor.Tally` | internal/tunnelmgr/supervisor.go:387-400 | only failures before the starting gate count; authentication and host-key failures are ignored, by the retry counter too |
| `TunnelSupervisor.Supervisor.RecordStartFailure` | internal/tunnelmgr/supervisor.go:387-413 | the saved history grows by exactly this failure, and the breaker opens exactly when its count reaches the threshold |
| `TunnelSupervisor.Supervisor.ObserveHealthy` | internal/tunnelmgr/supervisor.go:461-472 | requires the four pieces of evidence and stores Healthy; the window goes on or begins now, and the retry counter is cleared exactly when it is over |
| `TunnelSupervisor.Supervisor.LocalReady` | internal/tunnelmgr/supervisor.go:352-372 | the first of daemon, token and identity that does not answer as expected gives the state and the reason; ready is noted exactly when all do |
| `TunnelSupervisor.Supervisor.LoadOrInitialize` | internal/tunnelmgr/supervisor.go:323-346 | for every file: a record is taken exactly when it is valid and of this very tunnel, or a first one where there is no file; anything unreadable or foreign is refused and left |
| `TunnelSupervisor.Supervisor.EnsureChild` | internal/tunnelmgr/supervisor.go:138-202 | a pending exit is in the saved history before anything else; going on means that one child was started; without a pending exit a child that never got ready is recorded by how it ended |
| `TunnelSupervisor.Supervisor.Launch` | internal/tunnelmgr/supervisor.go:165-201 | a start is attempted unless the save failed; a child that was started and never got ready is recorded, in memory and history, once and by the exit it was reaped with, or by the reason if it was not; a refused login or host key then leaves the count and the history as they were |
| `TunnelSupervisor.Supervisor.LastWords` | internal/tunnelmgr/supervisor.go:183-192 | what is recorded of a failed bootstrap is how the child ended, before it was stopped or in the course of that, else the reason |
| `TunnelSupervisor.ClassifyMeans` | internal/tunnelmgr/supervisor.go:563-577 | exit code 255 with "permission denied" in any case of letters is a refused login, else with one of the two host key texts a refused host; everything else is a failure to retry |
| `TunnelSupervisor.RemoteStateMeans` | internal/tunnelmgr/supervisor.go:374-385 | each answer of the remote side has the state of its own name |
| `TunnelSupervisor.Supervisor.EnsureForward` | internal/tunnelmgr/supervisor.go:204-237 | goes on exactly when the forward is held or added; otherwise it is a conflict, a start failure or an open breaker |
| `TunnelSupervisor.Supervisor.ForwardFailed` | internal/tunnelmgr/supervisor.go:209-236 | a conflict keeps a master that runs and answers, and is stored; anything else gives up the child and its exit and is a start failure |
| `TunnelSupervisor.Supervisor.Doubt` | internal/tunnelmgr/supervisor.go:258-271 | after a probe that did not come through a master that answers leaves the remote state unknown; one that does not is stopped, and nothing is stored |
| `TunnelSupervisor.Supervisor.Probe` | internal/tunnelmgr/supervisor.go:254-314 | what is stored is exactly what the probes found; without a clear answer the child is given up or the remote state is unknown |
| `TunnelSupervisor.FindingIsHealthy` | internal/tunnelmgr/supervisor.go:275-310 | the finding is Healthy if and only if both probes came through, the first was OK and the second named the expected instance |
| `TunnelSupervisor.Supervisor.Iterate` | internal/tunnelmgr/supervisor.go:138-321 | one round keeps every invariant, and every return leaves the backend not running; with a child that stays up and forwarded the state afterwards is what the local side and the probes call for |
| `TunnelSupervisor.Supervisor.Shutdown` | internal/tunnelmgr/supervisor.go:527-538 | the child is stopped and a clean stop saved, which starts the count anew |
| `TunnelSupervisor.Supervisor.Run` | internal/tunnelmgr/supervisor.go:113-321 | all guarantees hold on every return path; with the breaker open or a file that cannot be read no child is started and the file stays; a clean stop, which zeroes the count, needs a context that has ended |
| `TunnelSupervisor.HealthyIsEarned` | internal/tunnelmgr/supervisor.go:204-314 | whether it is the field or the saved record that says Healthy, the run stored it in an iteration that had seen all four checks pass |
| `TunnelSupervisor.StartsAreTheBackends` | internal/tunnelmgr/supervisor.go:168-177 | the starts in the trace are exactly the children the backend has started in the run |
| `TunnelSupervisor.OneRun` | internal/tunnelmgr/supervisor.go:71-321 | a new process on the store keeps its invariant; while the breaker is open or the file is unreadable it starts nothing and changes nothing |
| `TunnelSupervisor.Operate` | internal/tunnelmgr/supervisor.go:113-177 | for every sequence of runs, resets and spoilt files: the record counts the failures since the last late failure, clean stop or reset, and once a run has left the breaker open or the file was spoilt no later run starts a child until a reset |
| `SshConfig.ParseWritten` | internal/setup/sshconfig.go:298-310 | a directive reads back as keyword and value, however it is indented |
| `SshConfig.ParseSeparated` | internal/setup/sshconfig.go:291-310 | keyword and value are told apart whatever run of blanks, tabs and equals signs stands between them, whatever white space is around them |
| `SshConfig.HostLineIsRead` | internal/setup/sshconfig.go:257-268 | so a Host line names exactly the words of its value, however it is written |
| `SshConfig.ForwardValueMatches` | internal/setup/sshconfig.go:207-226 | the forward this program writes is one it recognises |
| `SshConfig.ForwardIsWanted` | internal/setup/sshconfig.go:207-226 | a forward is the wanted one if and only if it listens on the port and leads to the same port of localhost, in any case of letters, or of a loopback address |
| `SshConfig.NormalizedMeans` | internal/setup/sshconfig.go:194-196 | a value agrees with the required word if and only if it is that word but for case |
| `SshConfigEdit.FindHostBlock` | internal/setup/sshconfig.go:228-255 | finds the block of the host, the last of adjacent ones that name it, and its directives in order |
| `SshConfigEdit.BlockUnique` | internal/setup/sshconfig.go:228-255 | there is only one such block |
| `SshConfigEdit.FirstDirective` | internal/setup/sshconfig.go:179-186 | the first occurrence among the directives |
| `SshConfigEdit.FirstInDirectives` | internal/setup/sshconfig.go:176-255 | the recorded directives know the first line with a keyword |
| `SshConfigEdit.HasRemoteForward` | internal/setup/sshconfig.go:198-205 | yes exactly when some RemoteForward of the block is the loopback forward of the port |
| `SshConfigEdit.AnyInDirectives` | internal/setup/sshconfig.go:198-255 | the recorded directives hold a wanted forward if and only if the lines do |
| `SshConfigEdit.InsertDirectiveInBlock` | internal/setup/sshconfig.go:312-322 | the line is put behind the last line of the block that is not blank |
| `SshConfigEdit.IndexStaysValid` | internal/setup/sshconfig.go:126-131 | a directive found before lines were added is still at its line number |
| `SshConfigEdit.EnsureSingle` | internal/setup/sshconfig.go:121-140 | a single-valued directive is left, rewritten at its first occurrence or added, and which of these is reported |
| `SshConfigEdit.MasterIsRewritten` | internal/setup/sshconfig.go:94-142 | the first ControlMaster of the block, whatever its indentation, case and separator, stays if its value is "no" and else is rewritten in its place; no other is added |
| `SshConfigEdit.PathIsRewritten` | internal/setup/sshconfig.go:94-142 | the same for ControlPath and "none" |
| `SshConfigEdit.EditBlock` | internal/setup/sshconfig.go:94-142 | the three steps together are the specified edit, and each is reported as left, rewritten or added |
| `SshConfigEdit.ScopeWarnings` | internal/setup/sshconfig.go:334-358 | a warning for an Include and one for a conflict, exactly when one stands above |
| `SshConfigEdit.InsertNewBlock` | internal/setup/sshconfig.go:71-93 | the new block goes before the block for every host, or behind a blank line at the end |
| `SshConfigEdit.EnsureLines` | internal/setup/sshconfig.go:55-142 | the whole edit and its whole report, and modified exactly when something was missing |
| `SshConfigEdit.EditIsUnique` | internal/setup/sshconfig.go:71-142 | lines, host and plan determine the edited lines |
| `SshConfigEdit.ReportMeans` | internal/setup/sshconfig.go:66-142 | a report warns of exactly what stands above, and tells of no change if and only if nothing was missing |
| `SshConfigEdit.EnsureSSHConfigAt` | internal/setup/sshconfig.go:48-162 | whatever write fails and whatever it leaves, the user's text is in the configuration or in the backup; neither is written when nothing was missing; success is exactly as the writes allow, with the specified file and report |
| `SshConfigEdit.PatternDropsUser` | internal/setup/sshconfig.go:41-46 | the user of a destination is dropped |
| `SshConfigMeaning.EditKeepsTheRest` | internal/setup/sshconfig.go:71-159 | lines are added in one place, behind the last line of the block or as the new block, and they are exactly the missing ones; every other line stays verbatim and in order, but the first ControlMaster and ControlPath of the block where they will not do, which keep their indentation |
| `SshConfigMeaning.OneRunSettles` | internal/setup/sshconfig.go:48-162 | after one run nothing is missing, if and only if a block was found or the host can be named |
| `SshConfigMeaning.SettledStays` | internal/setup/sshconfig.go:94-142 | an edit of settled lines is the same lines |
| `SshConfigMeaning.SecondRunChangesNothing` | internal/setup/sshconfig.go:48-162 | run on the file it has written, the program leaves the file as it is |
| `SshConfigMeaning.HostLineMisses` | internal/setup/sshconfig.go:72-77 | a host that is empty, holds white space or begins with an equals sign is not named by the line written for it |
| `SshConfigEffect.SettledTakesEffect` | internal/setup/sshconfig.go:334-358 | with nothing above that can win and a matching Host line, OpenSSH obtains what is required exactly when no Include stands before it in the block |
| `SshConfigEffect.EditTakesEffect` | internal/setup/sshconfig.go:48-162 | the same for an edited block, in terms of the lines before the edit |
| `SshConfigEffect.EditIsLost` | internal/setup/sshconfig.go:228-268 | when the Host line does not match, the edit changes nothing the host obtains, for any keyword |
| `SshConfigEffect.LostEditIsNoEffect` | internal/setup/sshconfig.go:228-268 | when the Host line does not match, the host gets what is required after the edit if and only if it did before |
| `SshConfigEffect.NamedHostMatches` | internal/setup/sshconfig.go:257-268 | a Host line that names the host matches it unless a pattern negates it |
| `SshConfigEffect.NewBlockTakesEffect` | internal/setup/sshconfig.go:71-93 | a new block without a warning is effective if and only if the Host line written for the host matches it, or the lines were effective before |
| `SshConfigEffect.PlainMatches` | internal/setup/sshconfig.go:72-77 | a plain name matches its own Host line if and only if it does not begin with an exclamation mark |
| `SshConfigEffect.RunIsEffective` | internal/setup/sshconfig.go:48-162 | the file a run without a warning leaves, as it is read back, is effective if and only if: the Host line matches and no Include of the block is read before the two directives; or it does not match and the file was effective before |
| `SshConfigEffect.RunConnects` | internal/setup/sshconfig.go:48-162 | after a run that reported no warning OpenSSH obtains ControlMaster no, ControlPath none and the loopback forward of the port, for every outcome of Match criteria, if and only if the same condition holds |
| `SshConfigEffect.UnhinderedRunConnects` | internal/setup/sshconfig.go:48-162 | in particular for a plain name with no Include in its block and no pattern that negates it |
| `SshConfigEffect.NegatedPattern` | internal/setup/sshconfig.go:257-268 | a negated host defeats the edit without a warning |
| `SshConfigEffect.IncludeInBlock` | internal/setup/sshconfig.go:334-358 | an Include in the block defeats the edit without a warning |
| `ClipboardCache.Cache.CachedImage` | internal/daemon/clipboard_windows.go:151-163 | answers exactly the remembered image of that number, in a fresh buffer; the cache shares no buffer |
| `ClipboardCache.Cache.CachedText` | internal/daemon/clipboard_windows.go:165-175 | answers exactly the remembered text of that number |
| `ClipboardCache.Cache.StoreCachedImage` | internal/daemon/clipboard_windows.go:206-218 | remembers a copy, unless the number is zero, the image empty or over the limit |
| `ClipboardCache.Cache.StoreCachedText` | internal/daemon/clipboard_windows.go:220-231 | remembers the text, under the same conditions, instead of the image |
| `ClipboardCache.Scribble` | internal/daemon/clipboard_windows.go:160-162 | whatever is written into a buffer handed in or out, the cache keeps its value |
| `ClipboardCache.HitIsLast` | internal/daemon/clipboard_windows.go:151-231 | what was stored last is answered for its own number and kind and for nothing else |
| `ClipboardReaders.ChangeSound` | internal/daemon/clipboard_windows.go:79-231 | a change by a writer keeps what the cache and every call in progress rely on |
| `ClipboardReaders.HitIsCurrent` | internal/daemon/clipboard_windows.go:83-86 | a hit for a number read during the call is what the clipboard was worth during the call, even if it was stored under an older number |
| `ClipboardReaders.StepSound` | internal/daemon/clipboard_windows.go:79-231 | every step of every writer and reader keeps the system sound |
| `ClipboardReaders.ReadersAreLinearizable` | internal/daemon/clipboard_windows.go:79-149 | in every run each successful ImageBytes or Text, cached or not, returns what the clipboard was worth at some time between its begin and its return |
| `ClipboardReaders.WindowsClipboard.Read` | internal/daemon/clipboard_windows.go:79-149 | one call written out among arbitrary steps of all others, with the same guarantee: the number, the cache, and the clipboard unless the cache answers |
| `ClipboardReaders.UndisturbedRead` | internal/daemon/clipboard_windows.go:79-149 | undisturbed, a call answers with what the clipboard is worth, cached or not, and fails only where the system turns it down and the cache has no answer |
| `ClipboardReaders.FirstFormatDecides` | internal/daemon/clipboard_windows.go:79-149 | the first format there decides, PNG before DIB version 5 before DIB and Unicode before ANSI, within its limits, and if it is worth nothing no other is tried |
| `ClipboardReaders.CachedTypeAgrees` | internal/daemon/clipboard_windows.go:52-77 | in every state of every run a type answered from the cache is the content's type if and only if an image was remembered or there is none |
| `ClipboardReaders.CachedTypeDiffers` | internal/daemon/clipboard_windows.go:177-204 | a run after which the two answers differ |
| `NonceRegistry.RegisteredMeans` | internal/daemon/server.go:201-249 | whatever was loaded: the order enumerates the map without repeats, at most 1024 nonces, and the nonce is there, at the back or in its place, and the only one of its host; one per host is kept |
| `NonceRegistry.OthersStay` | internal/daemon/server.go:213-240 | everybody else keeps their grant but those of the same host and the oldest of a full registry |
| `NonceRegistry.ReRegistering` | internal/daemon/server.go:216-229 | the same host moves a nonce to the back, another host keeps its place |
| `NonceRegistry.RegisteredLooksUp` | internal/daemon/server.go:275-286 | a nonce is good for its host until its lifetime is over, and the host's others are not |
| `NonceRegistry.CleanedLooksUp` | internal/daemon/server.go:288-305 | cleaning up never changes what a later lookup answers |
| `NonceRegistry.LoadedListed` | internal/daemon/nonce_store.go:56-84 | whatever the file holds, what is loaded enumerates the map without repeats and fits |
| `NonceRegistry.LoadOfFiled` | internal/daemon/nonce_store.go:38-129 | what was filed is loaded again, in order, but for the expired |
| `NonceRegistry.HistoryListed` | internal/daemon/server.go:201-305 | whatever the file held at first: through any registrations, clean-ups and restarts, with writes that fail, the order enumerates the map without repeats and fits |
| `NonceRegistry.HistoryBacked` | internal/daemon/nonce_store.go:38-129 | and if there was one nonce for every host there stays one, and the file answers every later lookup as memory does |
| `NonceRegistry.RestartLooksUp` | internal/daemon/nonce_store.go:38-85 | a restart never changes what a later lookup answers, not even after writes have failed |
| `NonceTable.Table.AppendToOrder` | internal/daemon/server.go:227-229 | the order grows by one, in place or in a new array |
| `NonceTable.Table.ShiftDown` | internal/daemon/server.go:254-261 | the elements behind the removed one move down in the backing array |
| `NonceTable.Table.RemoveFromOrder` | internal/daemon/server.go:254-261 | the first occurrence is gone and the rest in order |
| `NonceTable.Table.DropAll` | internal/daemon/server.go:216-223 | in whatever order the map gives them, the dropped go and map and order stay in step |
| `NonceTable.Table.EvictOldest` | internal/daemon/server.go:236-240 | the oldest go until the registry fits |
| `NonceTable.Table.Enrol` | internal/daemon/server.go:213-240 | the specified registration, on map and backing array, of any registry that can be loaded |
| `NonceTable.Table.Records` | internal/daemon/nonce_store.go:94-122 | one record for each nonce, in the order |
| `NonceTable.Table.Persist` | internal/daemon/nonce_store.go:89-129 | the file is replaced as a whole or left |
| `NonceTable.Table.Register` | internal/daemon/server.go:201-249 | all of a registration or none of it: a failed persist puts map and order back although the order was shifted in place |
| `NonceTable.Table.CleanupExpired` | internal/daemon/server.go:290-305 | the expired are gone from memory even when the file cannot be written |
| `NonceTable.Table.Load` | internal/daemon/nonce_store.go:38-85 | the registry is what the file gives, or unchanged if there is none |
| `NonceTable.Table.LookupValid` | internal/daemon/server.go:275-286 | the host of a registered nonce that has not expired |
| `Deduper.Deduper.Sweep` | internal/daemon/dedup.go:87-91 | exactly the entries older than the window are gone |
| `Deduper.Deduper.AllowKey` | internal/daemon/dedup.go:79-101 | a key passes exactly when its last call, passed or suppressed, was more than a window ago; the count is the length of the burst; nothing older than the window stays |
| `Deduper.Deduper.AllowAt` | internal/daemon/dedup.go:49-111 | critical and keyless envelopes pass untouched and leave no trace; a suppressed message carries the burst length |
| `Deduper.NoKeyMeans` | internal/daemon/dedup.go:49-77 | exactly envelopes of urgency 2, and those with neither an image nor a message, are held against no other |
| `Deduper.SameImage` | internal/daemon/dedup.go:57-66 | two images are the same if and only if source, host, session and the digest of the fingerprint agree |
| `Deduper.SameMessage` | internal/daemon/dedup.go:67-75 | two messages are the same if and only if source, host, session, event, title and the digest of the body agree |
| `Deduper.OnePassPerBurst` | internal/daemon/dedup.go:79-101 | of every burst exactly the first call passed |
| `NotifyQueues.AtMostOneOvertakes` | internal/daemon/server.go:344-360 | from the time a critical envelope is queued until it is taken itself, at most one other envelope is taken |
| `NotifyQueues.NotYetTaken` | internal/daemon/server.go:344-360 | while it is queued, no more are taken than had entered before it |
| `NotifyQueues.StrictPriority` | internal/daemon/server.go:344-360 | left alone, a loop that starts over delivers all critical envelopes, those of waiting senders too, and then the others, each in order |
| `NotifyQueues.Drains` | internal/daemon/server.go:344-360 | left alone, any loop delivers everything, with at most one other envelope before the critical ones |
| `NotifyQueues.Server.EnqueueEnvelope` | internal/daemon/server.go:312-334 | an envelope is suppressed, enters its queue, waits or is dropped, exactly as the verdict and the room decide; bounds, order and conservation are kept |
| `NotifyQueues.Server.Expire` | internal/daemon/server.go:320-326 | a critical sender that waited too long drops its envelope |
| `NotifyQueues.Server.TakeCritical` | internal/daemon/server.go:349-355 | the first critical envelope is taken and the first waiting sender gets its room |
| `NotifyQueues.Server.TakeOther` | internal/daemon/server.go:353-357 | another envelope is taken only by a loop that had found no critical one |
| `NotifyQueues.Server.Select` | internal/daemon/server.go:347-360 | the outer select until it finds no critical envelope, then the inner one |
| `NotifyQueues.Server.RunNotifier` | internal/daemon/server.go:344-384 | for every schedule, what is delivered and what is left is what the selects of the schedule give; what is delivered is what was taken, in order, and the queues stay within 4 and 8, first in first out, nothing lost or doubled |
| `ClaudeSettings.MarkersAreValid` | internal/shim/settings.go:20-60 | the current command is managed, and no bare hook is |
| `ClaudeSettings.MarkersMean` | internal/shim/settings.go:33-60 | a command is managed if and only if it starts with the owner words, so also one of an older version; a bare cc-clip-hook is the user's own |
| `ClaudeSettings.CurrentTellsPort` | internal/shim/settings.go:10-26 | the command for each port, and no two ports share one |
| `ClaudeSettings.StripLeavesUnmanaged` | internal/shim/settings.go:388-432 | stripping leaves exactly the unmanaged commands, in order |
| `ClaudeSettings.StripMatcherKeepsKeys` | internal/shim/settings.go:421-430 | a matcher goes as a whole if and only if it held one command, a managed one, and one other key that is no matcher of something; else it keeps its other keys |
| `ClaudeSettings.OtherKeyIsLost` | internal/shim/settings.go:509-515 | a matcher without a matcher key loses its other key with its one managed command |
| `ClaudeSettings.MergedEventMeans` | internal/shim/settings.go:220-278 | exactly one managed command, the current one, or none beside a bare hook; the others as they were |
| `ClaudeSettings.StripOfMerged` | internal/shim/settings.go:203-344 | stripping a merged event that had nothing managed gives it back |
| `ClaudeHooks.StripManagedFromEvent` | internal/shim/settings.go:388-432 | the loop computes the specified stripping, or fails exactly on a malformed event |
| `ClaudeHooks.ManagedCommandCounts` | internal/shim/settings.go:440-469 | counts the managed and the current commands |
| `ClaudeHooks.EventHasBareHook` | internal/shim/settings.go:476-502 | says whether there is a bare hook, stopping at the first |
| `ClaudeHooks.MergeEvent` | internal/shim/settings.go:220-278 | one event merged as specified, and whether it changed |
| `ClaudeHooks.MergeClaudeHooks` | internal/shim/settings.go:203-289 | fails exactly on malformed settings; otherwise the specified merge, whether it changed anything, and a warning for exactly the events with a bare hook |
| `ClaudeHooks.RemoveClaudeManagedHooks` | internal/shim/settings.go:291-344 | fails exactly on malformed settings; otherwise the specified removal, in whatever order the map gives the events |
| `ClaudeHooks.MergeMeans` | internal/shim/settings.go:203-289 | after a merge every managed event has one managed command, or none beside a bare hook, and its other commands in order |
| `ClaudeHooks.MergeKeepsTheRest` | internal/shim/settings.go:203-289 | every other key and event is as it was |
| `ClaudeHooks.MergeSettles` | internal/shim/settings.go:248-257 | a second merge reports no change |
| `ClaudeHooks.RemoveMeans` | internal/shim/settings.go:311-330 | no managed command is left in any event, and the others stay in order |
| `ClaudeHooks.RemoveKeepsTheRest` | internal/shim/settings.go:291-344 | every key but the hooks is as it was |
| `ClaudeHooks.RemoveUndoesMerge` | internal/shim/settings.go:203-344 | removing undoes merging if and only if the merge changed nothing or nothing was empty |
| `DibMasks.ScaleMaskMonotone` | internal/daemon/clipboard_windows_dib.go:212-223 | for every mask without gaps scaling is monotone, takes 0 to 0 and full to 255 |
| `DibMasks.ScaleMaskOfRun` | internal/daemon/clipboard_windows_dib.go:212-223 | the field under a mask without gaps, scaled, without overflow of the word |
| `DibMasks.FullIff` | internal/daemon/clipboard_windows_dib.go:212-223 | for every mask, all bits under it scale to 255 if and only if the eight highest places its ones count for are ones, or, with fewer than eight ones, the product with 255 leaves a remainder in the last of 256 divisors |
| `DibMasks.GapsEitherWay` | internal/daemon/clipboard_windows_dib.go:212-223 | of two masks with gaps one scales to 169 and one to 255 |
| `DibDecoder.PixelInside` | internal/daemon/clipboard_windows_dib.go:92-103 | every byte read for a pixel is inside |
| `DibDecoder.ParsedFits` | internal/daemon/clipboard_windows_dib.go:50-103 | a header that is accepted describes rows that fit the bytes |
| `DibDecoder.ParseMeans` | internal/daemon/clipboard_windows_dib.go:50-157 | exactly which byte strings are decoded, and size, direction, masks, offset and stride of each |
| `DibDecoder.StrideIs` | internal/daemon/clipboard_windows_dib.go:120-126 | the stride is the least multiple of four that holds a row |
| `DibDecoder.Fill24BitDIB` | internal/daemon/clipboard_windows_dib.go:164-177 | every pixel is the source pixel of its row, opaque |
| `DibDecoder.Fill32BitDIB` | internal/daemon/clipboard_windows_dib.go:179-210 | every pixel is the source pixel under the masks, opaque if and only if the mask is non-zero and every alpha is zero |
| `DibDecoder.ImageFromDIB` | internal/daemon/clipboard_windows_dib.go:50-118 | for every byte string an error exactly when the header says so, else the specified image |
| `DibRoundTrip.WrittenIsDecoded` | internal/daemon/clipboard_windows_dib.go:50-210 | every picture written from the top or the bottom, in three bytes or four, is decoded to itself |
| `DibRoundTrip.PlainMasks` | internal/daemon/clipboard_windows_dib.go:139-141 | the masks of an uncompressed bitmap take out its bytes |
| `CodexNotify.CodexNotifyArgv` | internal/shim/ssh.go:698-736 | the scanner terminates and computes the specified reading |
| `CodexNotify.PrintedIsRead` | internal/shim/ssh.go:707-731 | the elements that were printed are the elements that are read |
| `CodexNotify.LineIsRead` | internal/shim/ssh.go:698-736 | every printed line, with any blanks, a trailing comma and a comment, is read as its strings |
| `CodexNotify.CodexNotifyLineProblem` | internal/shim/ssh.go:638-688 | the loop over the environment computes the specified verdict |
| `CodexNotify.JudgedByShape` | internal/shim/ssh.go:626-688 | a line is accepted for a port, or said to be for another, if and only if it is one of the documented commands and posts there: the port of its flag, else the last its variables set, else the default |
| `CodexNotify.ProgramMeans` | internal/shim/ssh.go:644-660 | a program is named by itself or at the end of a path |
| `CodexNotify.AssignmentMeans` | internal/shim/ssh.go:646-656 | a word is a variable if and only if it has an equals sign and does not begin with a dash |
| `Numerals.AtoiMeans` | internal/shim/ssh.go:648-654 | what reads as a number is digits, with a sign or without, that fit into 64 bits, and nothing else |
| `CodexNotify.ManagedIsRead` | internal/shim/ssh.go:784-797 | the line this program writes is read as its words |
| `CodexNotify.ManagedBlockLines` | internal/shim/ssh.go:784-797 | the block between its markers is that one line of the file |
| `CodexNotify.ManagedLineFitsItsPort` | internal/shim/ssh.go:638-797 | the line written for a port is accepted for that port and for no other, and names the port it was written for |

## Left out

- The text of the shims beyond its header, the marker, the port and the program it falls back to (which it checks again when it runs), file modes and ownership of what is written, and the choice of the target from the environment.
- Faults after the exchange of an uninstall commits, a killed process and changes to the content of an open shim, which the program itself declares out of scope.
- Where `findRealBinary` looks for the program a shim falls back to; the result of the search is a parameter.
- Backoff durations, jitter, probe intervals and log lines of the supervisor; a pause is one turn of the script. The duration printed in the message of a failed start is not part of the message.
- `SshBackend.Backend.Stop`: the grace periods and the control socket files are not modelled; a step that waits is a turn in which any reap may happen.
- `TunnelSupervisor.Supervisor.Probe`: the error texts are shorter than the ones the program stores.
- `TunnelSupervisor.Supervisor.ForwardFailed`: when a conflict is followed by a failed check of the master, the text that is recorded is that of the conflict.
- Two supervisors on one record, or another writer that leaves a valid record; one that spoils the file is modelled.
- `SshConfigEdit.EnsureSSHConfigAt`: a configuration that exists but cannot be read, and a `.ssh` directory that cannot be made, end the run before the edit and are not modelled.
- Quoted arguments of ssh_config, tokens and canonicalisation; Match criteria are an oracle, and so is the parse of an IP address.
- Wrap-around of the clipboard sequence number. That the number grows with every change and that only one party has the clipboard open are assumptions about Windows.
- The decoding of UTF-16, the PNG encoder and the Unquote of escapes, which are oracles.
- `ClipboardCache.Cache.CachedText`: the string is a value, as it is in Go, so there is nothing to share.
- `NonceTable.Table.Persist`: encoding and the atomic replacement of the file are one step that succeeds or leaves the old file.
- `Deduper.Deduper.AllowAt`: the hash of the body is an oracle, and the times of successive calls do not decrease.
- `NotifyQueues.Server.EnqueueEnvelope`: the timer of a waiting sender may fire at any time after it began to wait, not after 500 ms.
- `NotifyQueues.Server.RunNotifier`: what a delivery does, and that it may panic, is not modelled.
- `ClaudeHooks.MergeClaudeHooks`: which of several faults is reported first, and the rewriting of numbers by the JSON encoder.
- `DibDecoder.ImageFromDIB`: the image is a two-dimensional array of pixels rather than one buffer of bytes with a stride.
- Session ring, tokens, receipts, the host registry, install sources, update, connect, doctor and the user interfaces: state kept in ways that would only add easier members.
