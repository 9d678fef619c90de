# kpulse alert engine: a verified model

This project models the part of kpulse that decides what users are told: the alert engine with its
limiter, digest queue and statistics, the monitors that feed it, the persistence of the limiter, and
the expansion of `$TOKEN` references in the configuration.

* `alert.dfy` is the alert record and its key. Instants are nanoseconds after Go's zero time. The key
  is the joined text itself; the hash over it is taken to be injective.
* `dedupe.dfy` is the limiter, with the theory of its greedy choice.
* `enginespec.dfy` is the engine as a function of its state and one atomic operation: fire, resolve,
  sweep, tick, reset. A reconcile is its fires followed by one sweep, whose `order` is the order in
  which the active map happened to be walked. Every theorem holds for every such order, and runs start as
  the program does, with whatever the limiter was restored to (`Started`).
* `engine.dfy` is the engine object with its 256-place input queue, its handlers and its loop, with
  inputs arriving while it runs. Each
  method is proved against `enginespec.dfy`. A ghost log holds everything handed to the notifiers.
* `wording.dfy` says from the outside what routes, digests, decimals and prepared alerts have to look like.
* `cells.dfy` shows that the engine is, for every key at once, a machine with a single cell.
* `replay.dfy` says what the active set means, what a reconcile does and what the digest conserves.
* `races.dfy` takes the handlers apart at their locks and lets Reset fall between any two actions.
* `stats.dfy` ties the counters, the feed and the exchange sort to the log of sends.
* `submitter.dfy` says what a monitor's calls do to one alert while other monitors are active.
* `farewells.dfy` says when the end of an alert is announced though no fire of it passed the limiter.
* `messages.dfy` explains every message of a run, field by field, by the operation that sends it.
* `timers.dfy`, `nodes.dfy`, `rollout.dfy`, `restarts.dfy`, `crashes.dfy` and `cronjob.dfy` are the
  monitors, each also stated by the fields of what it observes. The theorems named ThroughEngine compose a monitor with the engine, with arbitrary
  traffic of other monitors in between, no dropped input and no Reset.
* `state.dfy` is the stored limiter over any number of restarts.
* `secrets.dfy` is the token scanner and the expansion.

`dafny verify dfyconfig.toml` checks everything.

## What the proofs say about the code

* The documentation says that no resolved message is sent for an alert that the limiter suppressed.
  The code marks a suppressed alert active, so its end is announced although its beginning was not
  (`SuppressedFireIsStillResolved`). An ended activation had no accepted fire exactly when its last fire
  came within the window of the last accepted time before it, with no Reset between; that time may be one
  of an earlier run that the limiter was restored to (`SilentExactly`). A run keeps the promise exactly
  when it has no such activation (`FarewellsFollowExactly`).
* The documentation also promises a fresh firing message after a restart for what still fires. It is sent
  exactly when the restored time has left the window. The end is announced either way, with nothing
  announced before it in this run if the time has not (`FirstFireAfterRestart`).
* A Reset that falls between the limiter and the mark of a fire leaves an active entry that the limiter
  has forgotten, which cannot happen when the two are atomic (`ResetMayMissAFire`, `AtomicStaysWithin`).
  A schedule never does this exactly when no second half of a Reset falls while an entry is active or a
  fire stands between limiter and mark (`MoveKeepsReady`, `ResetRaceExactly`).
* A `pod_crashes` alert is active exactly when the latest report with its key is a submit
  (`CrashThroughEngine`). What the monitor remembers and what is active still agree after an event exactly
  when two things hold for every key: if the event's last report closed it, no container is remembered with
  it afterwards; if the event replaced an entry of it by another alert and did not close it last, some
  container still is (`EventAgreesExactly`, `DeletionAgreesExactly`, and over whole runs
  `RunAgreesExactly`). `UpdateAgreesExactly` says the same of an update by its statuses and the memory
  before it. A container that changes its crash reason breaks the second, and its
  first alert outlives its recovery (`ChangedReasonStaysActive`).
* The missed-run count is right exactly when a further run is scheduled or the cap is reached. A
  schedule that never runs again always fires (`MissedRunsExact`, `DryScheduleFires`).
* Storing times in whole seconds shortens the dedupe window by less than one second in total, however
  often kpulse restarts, and the bound is met to the nanosecond (`SpacingSurvivesRestarts`, `SpacingIsTight`).
* With digests on and no positive interval the listed alerts are queued and never sent (`LoopFlushes`).
* An alert can share its key with one of other fields exactly when one of its five fields holds a '|'
  (`KeySharedExactly`). Kubernetes names hold none.

## Model

| member | source | states |
|---|---|---|
| Alerts.KeyRoundTrip | internal/alert/alert.go:86-90 | The five fields can be read back from the key exactly when the first four hold no bar |
| Alerts.KeyFaithful | internal/alert/alert.go:86-90 | Two bar-free alerts share a key exactly when all five identifying fields agree |
| Alerts.MonitorsApart | internal/alert/alert.go:86-90 | Alerts of different monitors never share a key |
| Alerts.KeySharedExactly | internal/alert/alert.go:86-90 | An alert shares its key with an alert of other identifying fields exactly when some field of it holds a bar |
| Dedupe.Deduper.Allow | internal/engine/dedupe.go:22-31 | Refuses exactly the keys accepted less than the window ago, and remembers only what it accepts |
| Dedupe.Deduper.Snapshot | internal/engine/dedupe.go:33-41 | The copy equals the remembered map |
| Dedupe.Deduper.Restore | internal/engine/dedupe.go:43-49 | Given entries win over remembered ones, the others stay |
| Dedupe.Deduper.Reset | internal/engine/dedupe.go:52-58 | Forgets everything and returns how much that was |
| Dedupe.LastIsLatestAllowed | internal/engine/dedupe.go:22-31 | After any run the map holds, for each key, its latest accepted time and nothing else |
| Dedupe.AllowIsGreedy | internal/engine/dedupe.go:22-31 | Among attempts on many keys, a key is accepted exactly at the greedy choice of its own times |
| Dedupe.AllowedApart | internal/engine/dedupe.go:22-31 | Accepted attempts on a key are pairwise at least a window apart |
| Dedupe.RefusedExactly | internal/engine/dedupe.go:22-31 | An attempt is refused exactly when an accepted one on its key lies less than a window before it |
| Dedupe.AllowIsOptimal | internal/engine/dedupe.go:22-31 | No other window-spaced choice of the attempts on a key is larger than the accepted ones |
| EngineSpec.MergedKeepsKey | internal/engine/engine.go:256-272 | A resolved message keeps the key and cluster of what was firing, is of severity Info, is stamped when sent and always has a title and a body |
| EngineSpec.KeysAlwaysAgree | internal/engine/engine.go:171-254 | In every reachable state the entry under a key is an alert with that key |
| EngineSpec.DigestListsAll | internal/engine/engine.go:282-286 | The digest text is the lines of the alerts queued before any given one, its own, and those of the alerts queued after it, and nothing else |
| EngineSpec.SweepIsTaken | internal/engine/engine.go:232-253 | Deleting while walking and announcing afterwards amounts to retiring the entries one by one |
| Wording.RoutedByFirst | internal/engine/route.go:17-37 | The channels are those of the first rule that agrees with all it names and names something, else the defaults |
| Wording.DigestReads | internal/engine/engine.go:274-291 | A digest is of severity Info, names the size of its batch in decimal and has one line per alert with severity, place, reason and title, in order and nothing else |
| Messages.EveryMessageIsSent | internal/engine/engine.go:171-297 | Every message of every run is sent by an operation: a due alert that is not batched, as it is; the end of an active alert with its identity, severity Info, the stamp of sending, the caller's or the stock texts and the channels of an Info alert of its monitor; or the digest of the waiting batch |
| Messages.FireGoesOut | internal/engine/engine.go:171-198 | A fire due in its window is sent by that very operation, or queued when digests are on and take its severity; nothing goes out otherwise |
| Messages.ListedAreBatched | internal/engine/engine.go:186-191 | In every run what is batched or waits has a listed severity, what fires on its own has not, and with digests off nothing is queued |
| Engine.Engine.Submit | internal/engine/engine.go:73-83 | Queues the alert as firing, stamped and placed in the cluster unless it says so itself, or drops it when 256 inputs wait |
| Engine.Engine.Resolve | internal/engine/engine.go:85-95 | Queues the alert as resolved, stamped and placed likewise, or drops it when 256 inputs wait |
| Engine.Engine.Reconcile | internal/engine/engine.go:97-111 | Queues all listed alerts as firing, stamped and placed likewise, or drops the whole list |
| Engine.Engine.MonitorStats | internal/engine/engine.go:62 | One entry per monitor that sent anything, in the order of Go's string comparison, with the numbers of its firing and resolved messages, the state of its last one and the last stamp |
| Engine.Engine.Recent | internal/engine/engine.go:65 | As many entries as there were messages or as the feed has room for; entry i shows the message i places before the last |
| Engine.Engine.ActiveSnapshot | internal/engine/engine.go:113-121 | The copy equals the active map |
| Engine.Engine.RestoreActive | internal/engine/engine.go:123-129 | Given entries win, the others stay |
| Engine.Engine.Reset | internal/engine/engine.go:133-143 | Clears entries and limiter, keeps queue and log, and returns both sizes |
| Engine.Engine.HandleFire | internal/engine/engine.go:171-198 | Is the fire operation, and statistics stay equal to the log |
| Engine.Engine.HandleResolve | internal/engine/engine.go:200-221 | Is the resolve operation: a message exactly when something was active |
| Engine.Engine.TakeAbsent | internal/engine/engine.go:232-241 | The section under the lock visits every entry once, in some order |
| Engine.Engine.HandleReconcile | internal/engine/engine.go:223-254 | Is the fires of the list followed by one sweep that covers every active key, each message with its own clock reading |
| Engine.Engine.FlushDigest | internal/engine/engine.go:274-297 | Sends the waiting batch once and empties the queue; nothing for an empty queue |
| Engine.Engine.Take | internal/engine/engine.go:157-164 | Serves the oldest input with the operations of its kind |
| Engine.Engine.Run | internal/engine/engine.go:145-169 | While inputs arrive, the loop serves them in order and its effect is that of the run of their operations |
| Engine.LoopFlushes | internal/engine/engine.go:145-167 | With digests on and a positive interval every due tick empties the queue; otherwise what is queued is never sent |
| Engine.ChannelIsFifo | internal/engine/engine.go:73-111 | What was served and what waits is what waited at first and every arrival that found room, in order |
| Cells.StepRefines | internal/engine/engine.go:171-254 | One operation changes what is seen through a key only as the single-cell machine does |
| Cells.RunRefines | internal/engine/engine.go:171-254 | Every run of the engine refines the independent single-cell machines of all keys at once |
| Cells.Noninterference | internal/engine/engine.go:171-254 | Two runs that look alike through a key leave its entry, limiter, messages and queued alerts equal |
| Cells.KeyIndependence | internal/engine/engine.go:171-254 | From any restored limiter, a key fares as if all other keys' inputs were dropped and reconcile lists filtered to it |
| Cells.TickRefines | internal/engine/engine.go:274-297 | A flush is invisible through any key |
| Replay.StateIsReplay | internal/engine/engine.go:171-254 | An alert is active exactly when it is the last fire of its key with no later resolve, reset or omitting reconcile of its monitor |
| Replay.DisabledNeverResolves | internal/engine/engine.go:173-177 | With resolution off nothing becomes active and nothing is announced as resolved |
| Replay.ReconcileMeaning | internal/engine/engine.go:223-254 | Afterwards the monitor owns exactly the listed keys; each dropped key got exactly one resolved message; other keys are untouched; for any walk order |
| Replay.ReconcileTwiceIsSilent | internal/engine/engine.go:223-254 | Repeating the list inside the windows changes nothing and sends nothing |
| Replay.StepConserves | internal/engine/engine.go:171-297 | An accepted alert is sent once or queued once, and only accepted ones are |
| Replay.DigestConserves | internal/engine/engine.go:171-297 | Flushed batches followed by the queue are the accepted digest alerts in order, and direct firing sends are the other accepted ones in order |
| Replay.TicksDoNotMatter | internal/engine/engine.go:165-167 | Removing every tick changes neither entries, limiter, direct sends nor the queued sequence |
| Replay.TicksMayMove | internal/engine/engine.go:165-167 | Two runs that differ only in their ticks end alike |
| Races.TokensConserved | internal/engine/engine.go:133-143 | In every interleaving, a key's activations equal its resolved messages sent or pending, plus its resets, plus one if active |
| Races.ReturnsAddUp | internal/engine/engine.go:133-143 | In every interleaving the active counts that Resets returned add up to the entries they dropped |
| Races.AlwaysBalanced | internal/engine/engine.go:133-254 | The same balance for all keys together, as an invariant of every move |
| Races.HandlerIsAtomic | internal/engine/engine.go:171-297 | A handler that is not interrupted has exactly the effect of its atomic operation |
| Races.AloneIsAtomic | internal/engine/engine.go:223-254 | So has a whole reconcile |
| Races.AtomicStaysWithin | internal/engine/engine.go:133-198 | With atomic handlers every active key is known to the limiter |
| Races.MoveKeepsReady | internal/engine/engine.go:133-198 | One move keeps every active key, and the one about to be marked, known to the limiter exactly unless it clears the limiter while an entry is active or a mark is due |
| Races.ResetRaceExactly | internal/engine/engine.go:133-198 | A whole schedule keeps this throughout exactly when none of its moves is of that kind |
| Races.ResetMayMissAFire | internal/engine/engine.go:133-181 | A Reset between the limiter and the mark of a fire leaves such an entry |
| Stats.StatsRecorder.Record | internal/engine/stats.go:52-92 | Bumps the one counter, keeps the newest stamp, and keeps the last entries there is room for |
| Stats.RecordAgrees | internal/engine/stats.go:52-92 | Recording keeps every counter equal to the number of sends of its monitor and state, and the feed to what the last sends show |
| Stats.EntryShows | internal/engine/stats.go:72-86 | A feed entry shows the fields of its message, its words for state and severity, and the time of sending when the message has no stamp |
| Stats.StatsTell | internal/engine/stats.go:56-70 | The counters are the numbers of places in the log, the last event and stamp those of the last message and the last stamped one |
| Stats.LessMeans | internal/engine/stats.go:105 | The order of names is decided by the first character in which they differ, and a prefix comes first |
| Stats.StatsRecorder.Monitors | internal/engine/stats.go:95-111 | The exchange sort returns every monitor once by strictly increasing name |
| Stats.ExchangePlaces | internal/engine/stats.go:103-109 | One exchange keeps the finished prefix and the running minimum |
| Stats.SwapReorders | internal/engine/stats.go:103-109 | An exchange loses and duplicates nothing |
| Stats.StatsRecorder.Recent | internal/engine/stats.go:114-122 | The feed reversed |
| Submitter.CallShows | internal/monitors/monitor.go:14-25 | A monitor's call lights or ends the alert it names and no other |
| Submitter.ForeignPasses | internal/engine/engine.go:171-297 | Nothing another monitor or a tick does shows on an alert |
| Submitter.SuppressedFireIsStillResolved | internal/engine/engine.go:171-182 | Fire, end, fire again, end: always two resolved messages, but only one firing message when the second fire falls inside the window |
| Farewells.SilentExactly | internal/engine/engine.go:171-221 | No fire of an activation passed the limiter exactly when its last fire came within the window of the last accepted time before it, of this run or restored, with no Reset between |
| Farewells.PlaceMeans | internal/engine/engine.go:171-254 | Accepting, starting and ending in the view of a key are those of the engine's limiter and active map |
| Farewells.OneMessagePerEnd | internal/engine/engine.go:200-254 | One resolved message per end that is not a Reset |
| Farewells.FarewellsFollowExactly | internal/engine/engine.go:171-254 | In every run from every restored limiter all resolved messages of a key follow an accepted fire of their activation exactly when no ended activation is of that kind |
| Farewells.FirstFireAfterRestart | internal/engine/engine.go:171-221 | After a restart an alert that still fires is sent or queued afresh exactly when its restored time has left the window; its end is announced in either case |
| Timers.HPAAtMax.Handle | internal/monitors/hpa_at_max.go:34-69 | Is the timer step for an autoscaler pinned at its maximum |
| Timers.DaemonSetUnscheduled.Handle | internal/monitors/daemonset_unscheduled.go:34-69 | Is the timer step for a DaemonSet with pods that are not ready |
| Timers.OwnObservation | internal/monitors/hpa_at_max.go:45-68 | The timer entry is the start of the current episode, and a submit is made only in an episode that has reached the threshold |
| Timers.TimerThroughEngine | internal/monitors/hpa_at_max.go:45-68 | The alert is active exactly when the current unbroken episode reached the threshold; one resolved message per ended episode that did, none for shorter ones |
| NodeConditions.NodeConditionsMonitor.Handle | internal/monitors/node_conditions.go:76-141 | Submits each condition worth an alert once, clears each lapsed one once, and remembers the rest |
| NodeConditions.NodeConditionsMonitor.BuildCurrent | internal/monitors/node_conditions.go:82-100 | The loop builds the map of firing conditions |
| NodeConditions.SplitNodeCondKey | internal/monitors/node_conditions.go:28-35 | Splits at the first bar, or leaves the second part empty |
| NodeConditions.SeenIsActive | internal/monitors/node_conditions.go:76-141 | After every observation the engine's alerts of this monitor are exactly the image of what the monitor remembers |
| NodeConditions.ConditionThroughEngine | internal/monitors/node_conditions.go:76-141 | A condition is active exactly while it has been reported ever since it was worth an alert, and each end of that has one resolved message |
| NodeConditions.NodeFieldsThroughEngine | internal/monitors/node_conditions.go:45-141 | NotReady is active exactly when it was reported ever since an observation of the node neither deleted nor tainted and, with a grace, at least that long after its first Ready condition changed; any other listed condition exactly while last reported |
| NodeConditions.LeavingIsSilent | internal/monitors/node_conditions.go:49-56 | A node always seen deleting or with either taint never has NotReady active |
| NodeConditions.GraceIsSilent | internal/monitors/node_conditions.go:57-65 | Nor has one always seen within the grace after its Ready condition changed |
| NodeConditions.OverdueIsActive | internal/monitors/node_conditions.go:45-141 | After one observation past the grace the alert stays active while NotReady is reported |
| NodeConditions.ObservationSays | internal/monitors/node_conditions.go:106-139 | Every submit quotes the last condition counted under its name, and every resolve names the node and the condition |
| Rollouts.RolloutStuck.MarkFiring | internal/monitors/rollout_stuck.go:35-39 | Remembers the key |
| Rollouts.RolloutStuck.ClearFiring | internal/monitors/rollout_stuck.go:41-50 | Forgets key and timer and says whether it was firing |
| Rollouts.RolloutStuck.RolloutStartedAt | internal/monitors/rollout_stuck.go:55-64 | The first stamp stays |
| Rollouts.RolloutStuck.RolloutHealthy | internal/monitors/rollout_stuck.go:69-73 | Restarts the timer |
| Rollouts.RolloutStuck.CheckDep | internal/monitors/rollout_stuck.go:86-128 | Submits exactly when some Progressing condition is not true for at least the threshold, with the alert of that Deployment |
| Rollouts.RolloutStuck.CheckSet | internal/monitors/rollout_stuck.go:129-165 | Is the timer step for a StatefulSet in progress |
| Rollouts.SetObservation | internal/monitors/rollout_stuck.go:137-164 | The timer is the start of the current run; a fire happens exactly strictly past the threshold; a clear exactly after a run that fired |
| Rollouts.SeenIsActive | internal/monitors/rollout_stuck.go:86-165 | After every observation the engine's alerts of this monitor are exactly the image of what the monitor remembers |
| Rollouts.StatefulSetThroughEngine | internal/monitors/rollout_stuck.go:137-164 | Active exactly when the current run went strictly past the threshold; one resolved message ends each such run and none ends another |
| Rollouts.DeploymentThroughEngine | internal/monitors/rollout_stuck.go:86-127 | Active exactly while the last observation has a Progressing condition that is not true and was not updated for at least the threshold; one resolved message per recovery |
| PodRestarts.PodRestartsMonitor.Handle | internal/monitors/pod_restarts.go:48-89 | Notes every container's count, trims, and reports each storm |
| PodRestarts.PodRestartsMonitor.TrimInPlace | internal/monitors/pod_restarts.go:68-73 | Filtering into the slice being read keeps exactly the samples in the window, in order |
| PodRestarts.WindowIsExact | internal/monitors/pod_restarts.go:64-74 | The trimmed history equals all past samples no older than the window |
| PodRestarts.StormIsExact | internal/monitors/pod_restarts.go:75-87 | A storm is reported exactly when some sample in the window is lower by at least the threshold |
| PodRestarts.UpdateIsStream | internal/monitors/pod_restarts.go:64-74 | The histories after an update are those of its containers' samples noted one by one |
| PodRestarts.UpdateCalls | internal/monitors/pod_restarts.go:64-88 | An update submits for a container exactly when some past sample of it in the window is lower by the threshold, and quotes the increase over the window |
| PodRestarts.RunSubmitsExactly | internal/monitors/pod_restarts.go:64-88 | Over any run of updates the submits are those due by all past samples, in order |
| PodRestarts.UpdateSays | internal/monitors/pod_restarts.go:78-87 | Every submit is the alert of one of the containers and quotes in decimal an increase of at least the threshold |
| PodRestarts.ContainersApart | internal/monitors/pod_restarts.go:65 | Histories are shared exactly by containers of one name in one pod |
| PodCrashes.PodCrashesMonitor.Handle | internal/monitors/pod_crashes.go:50-100 | Acts on every container status in order |
| PodCrashes.PodCrashesMonitor.HandleDelete | internal/monitors/pod_crashes.go:102-126 | Takes out and reports every entry with the pod's prefix once |
| PodCrashes.CrashesPaired | internal/monitors/pod_crashes.go:58-125 | Each resolve carries what the latest submit for its container carried, with no report about it between; what is remembered is what is open |
| PodCrashes.DeleteResolvesItsOwn | internal/monitors/pod_crashes.go:102-125 | A deletion resolves each entry of its pod exactly once and leaves other pods' entries unchanged |
| PodCrashes.CrashThroughEngine | internal/monitors/pod_crashes.go:58-125 | An alert is active exactly when the latest report with its key is a submit, and each resolve that followed a submit has one resolved message |
| PodCrashes.EventAgreesExactly | internal/monitors/pod_crashes.go:58-125 | Memory and engine still agree after an update or deletion exactly when it leaves no closed key remembered and no replaced key unremembered |
| PodCrashes.RunAgreesExactly | internal/monitors/pod_crashes.go:58-125 | They agree after every event of a history exactly when every event meets that condition where it happens |
| PodCrashes.UpdateAgreesExactly | internal/monitors/pod_crashes.go:58-99 | An update of distinct containers keeps them in agreement exactly when no alert resolved last is submitted by another status or held by an untouched entry, and every alert rekeyed away is resolved last, submitted or held so |
| PodCrashes.DeletionAgreesExactly | internal/monitors/pod_crashes.go:102-125 | A deletion keeps them in agreement exactly when no remaining entry has the alert key of one it took out |
| PodCrashes.ChangedReasonStaysActive | internal/monitors/pod_crashes.go:58-97 | Three updates of a pod (one tracked reason, another, running) leave the first alert active and the container forgotten, after any history |
| PodCrashes.SubmitsAreSeen | internal/monitors/pod_crashes.go:58-79 | An update submits exactly for the containers that wait for a tracked reason, or were terminated by one and do not wait |
| PodCrashes.ActiveCrashWasSeen | internal/monitors/pod_crashes.go:58-79 | In every history whatever this monitor has active is worded after a tracked crash that some pod showed, in the cluster's name |
| PodCrashes.EndSays | internal/monitors/pod_crashes.go:90-124 | A resolve says that the container runs again, or that its pod is gone |
| CronJobs.CountMissed | internal/monitors/cronjob_missed.go:67-76 | The loop stops within miss + 11 rounds for any Next and counts up to that cap |
| CronJobs.Scan | internal/monitors/cronjob_missed.go:41-88 | Reports exactly the late jobs that are not suspended and whose schedule parses; a failed listing reports nothing at all |
| CronJobs.CountsDueRuns | internal/monitors/cronjob_missed.go:67-76 | While the schedule goes on, the count is the number of due runs up to the cap |
| CronJobs.MissedRunsExact | internal/monitors/cronjob_missed.go:67-76 | The count is right exactly when a further run lies ahead or the cap is reached |
| CronJobs.FiresWhenDue | internal/monitors/cronjob_missed.go:67-82 | A live schedule fires exactly when at least the threshold of runs was due |
| CronJobs.DryScheduleFires | internal/monitors/cronjob_missed.go:67-82 | A schedule without a further run always fires |
| CronJobs.ScanReportsExactly | internal/monitors/cronjob_missed.go:47-87 | A job is reported exactly if it is not suspended, its schedule parses, and enough runs were due, or none lies ahead of the clock, or its reference lies ahead of clock and schedule and one more than all past runs is enough; each with its alert |
| CronJobs.ScanThroughEngine | internal/monitors/cronjob_missed.go:77-87 | After the list of a scan is queued and reconciled the active alerts of the monitor are those of the late jobs |
| Persistence.Store.Save | internal/state/state.go:26-52 | Stores every time in whole seconds next to the other data, or changes nothing on an API failure |
| Persistence.Store.Clear | internal/state/state.go:59-73 | Empties the stored map without creating or deleting the object |
| Persistence.Store.Load | internal/state/state.go:75-100 | Returns the readable times, nothing when absent, and a failure for broken text |
| Persistence.Launched | cmd/kpulse/main.go:67-87 | The engine starts with nothing active and the stored limiter, or an empty one when loading fails |
| Persistence.Restarted | cmd/kpulse/main.go:67-72 | After a graceful restart the limiter holds every time truncated to its second |
| Persistence.RestoredAllows | internal/state/state.go:26-34 | The restored limiter allows whatever the original would, and more only in the last second of a window |
| Persistence.ErrorDoesNotAdd | internal/state/state.go:26-34 | After any number of restarts the remembered time is off by one truncation at most |
| Persistence.SpacingSurvivesRestarts | internal/engine/dedupe.go:22-49 | Over any number of restarts two accepted fires of a key are more than the window less one second apart |
| Persistence.SpacingIsTight | internal/state/state.go:26-34 | That bound is reached |
| Secrets.ReferenceIsLookup | internal/config/secrets.go:10-35 | Expanding a reference is the lookup of its name, whatever the secrets, exactly when the name is a letter A to Z or underscore followed by those and digits |
| Secrets.NothingToExpand | internal/config/secrets.go:10-35 | A text in which no dollar is followed by a letter A to Z or underscore expands to itself |
| Secrets.PieceInPlace | internal/config/secrets.go:10 | Every token is a dollar and such a name that the next character does not continue, and every other dollar begins none |
| Secrets.Expand | internal/config/secrets.go:20-35 | The scan with a running error token is the single-pass substitution |
| Secrets.ExpandMap | internal/config/secrets.go:37-47 | All entries expanded, or the failure of one of them |
| Secrets.ScanIsLossless | internal/config/secrets.go:10 | Scanning loses no character |
| Secrets.RoundTripExactly | internal/config/secrets.go:10 | Printing and rescanning a list of pieces gives it back exactly when no piece runs into the next |
| Secrets.SeamExactly | internal/config/secrets.go:10 | Two texts scan piecewise exactly when no token grows or appears across the seam |
| Secrets.ExpandSucceedsExactly | internal/config/secrets.go:20-35 | Expansion succeeds exactly when every token is a secret, and otherwise names the last that is not |
| Secrets.ValueIsVerbatim | internal/config/secrets.go:22-34 | An inserted value is never looked at again, and its surroundings expand as they would alone |

## Left out

- Kubernetes clients, informers, cron and certificate parsing, notifiers, the HTTP server and the user interface: observations, schedules and API outcomes are inputs, and a send is an entry in the log.
- Alerts.Alert: attachments are not carried; nothing the model covers reads them.
- Namespace filtering: observations are those of allowed namespaces, which the filter decides from the namespace alone.
- Engine.Engine.Reset: a missing limiter is not modelled; the program always sets one.
- Engine.Engine.Run: which of a waiting input, a due tick and an arrival comes next is an argument, and the end of that list stands for cancellation.
- Races.TokensConserved: the channel is not part of the lock-level model; a handler begins with any list of operations.
- Times: Go saturates differences of more than 292 years; differences here are exact.
- Timers.TimerThroughEngine: assumes that no input is dropped and Reset is not called, and that names hold no bar and namespaces neither bar nor slash, as in Kubernetes. The same goes, for bars, for the theorems on rollouts, nodes and pods.
- Theorems named ThroughEngine: the calls of one observation are served one after another at one clock reading, which decides neither what is active nor what is announced as resolved.
- PodCrashes.UpdateAgreesExactly: is for pods with distinct container names, as in Kubernetes; EventAgreesExactly has no such limit.
- PodRestarts.PodRestartsMonitor.Handle: the history is a value between calls, so the sharing of a backing array between the old and the new slice is confined to the trimming loop.
- PodRestarts.RunSubmitsExactly: like StormIsExact and UpdateCalls, assumes that the clock and the restart counts of a container do not decrease; the counts are far from the 32-bit limit.
- Farewells.SilentExactly: assumes that the clock readings of fires do not decrease.
- Persistence.SpacingSurvivesRestarts: covers graceful restarts, which save before they stop. After a crash the last periodic snapshot is restored, and fires accepted since may repeat.
- Secrets.Expand: the regular-expression engine is its leftmost, longest-match meaning for this pattern; texts are sequences of characters.
- Message texts: titles and bodies of the timers, rollouts and missed runs are passed in with the observation.
- pvc_usage, node_disk, tls_cert_expiry, warning_events and job_failed: thresholds over floats and stateless filters; they reach the engine through the same calls.
- Severity parsing and configuration defaults: single branches.
