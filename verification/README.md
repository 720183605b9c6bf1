# A verified model of ovpn

ovpn runs Xray servers for a group of users. An agent beside each Xray counts traffic and enforces
quotas and expiry dates; an operator's command line keeps a registry of servers and users, compiles
configurations and changes remote hosts. This project models the decision logic of both and proves
what their runs keep. `dafny verify dfyconfig.toml` checks all of it.

Tables are maps or sequences held in classes, a transaction is one step, and time is in whole seconds.
Where the program loops and updates, a class or a method with loops does the same and is proved equal
to a function of the old state; the results about runs are lemmas about those functions. What a remote
call, a clock, a random generator or a failing database yields is a parameter.

## The parts

- `CounterNames`, `Traffic`, `Counters`: Xray's counters are read from their names and become deltas,
  hourly, daily and total rows, and the usage of a rolling window. The conservation law covers restarts
  of Xray and of the agent and polls that fail at any call.
- `Quota`, `Agent`, `AgentServer`: the block and unblock machine over (inbound, email) pairs, expiry
  enforcement, all handlers that change them, and the poll. The runtime answers Ok, AlreadyPresent,
  Missing or another error that leaves membership alone.
- `PolicySync`: the rows the operator's machine sends to an agent, which discharge what the agent's
  safety asks of them, and the users of a rendered configuration.
- `Restarts`: the agent's runs together with the configuration file that a restart of Xray loads.
- `Metering`: a whole host with traffic and the answers to its queries, whose runs are schedules of the
  counters. `StuckRows`: what a poll removes, and a quota row that keeps polls from getting that far.
- `Tailer`, `Connections`, `ConnectionRuns`, `ConnectionCounts`: the incremental log reader, the batch
  writer with cached counts, debug sessions and the cleanup made of several statements.
- `Profiles`, `Registry`, `RegistryCommands`, `RegistryRuns`, `RegistryEffects`: transport profiles and
  their stored form, servers, proxy attachments and shared keys under every run of server commands.
- `Identities`, `Users`, `UserCommands`, `Replication`, `Reconcile`: users replicated over all enabled
  servers, canonical resolution, and the repair command.
- `RemoteFailures`, `ReplicationLimits`: user commands whose remote part fails or is replaced by a deploy
  that seeds the server, and reached fleets on which replication breaks.
- `Base64`, `XrayConfig`, `XrayRouting`, `Shell`: key normalization, the configuration compiler with
  first-match routing, and quoting against a shell reader.
- `Text`, `Sorting`, `Rows`: strings and sorting as Go's library treats them, and sums over tables.

## Where a natural claim fails

Each entry names the exact condition and a reached or concrete instance.

- A quota block on a server with several inbounds can leave a blocked user present after one runtime
  error: `Quota.PassIsSafeExactlyWhen`, `Agent.RunIsSafeExactlyWhen`, `Quota.PartialBlockLeavesUserPresent`.
- The counters of an email that contains `>>>` or ends in `>`, as one with a display name does, are read as
  those of another email. The bytes are recorded there, and the user's own quota is never enforced:
  `CounterNames.ReadBackExactlyWhen`, `Counters.RecordedNeverExceedsSentExactlyWhen`,
  `Counters.WithoutRestartNothingIsLostExactlyWhen`, `Metering.UnreadableIsNeverBlocked`,
  `Counters.DisplayNameIsMisread`.
- A quota row over its quota whose user is no longer in the runtime makes every poll fail before it
  enforces expiry, for all users: `StuckRows.PollRemovesExactlyWhen`, `StuckRows.StuckRowStarvesExpiry`,
  `StuckRows.ExpiredUserStaysServed`.
- A restart of Xray loads the configuration file last written, which may list a user blocked since; the
  enforcer keeps an over-quota block as it is and never removes the user again:
  `Restarts.RestartIsSafeExactlyWhen`, `Restarts.RunIsSafeExactlyWhen`, `Restarts.RestartUndoesBlock`.
- A cleanup of connection diagnostics that stops between its statements can leave port or source rows
  without their hour, until a whole one repairs it: `ConnectionRuns.RunIsConsistentExactlyWhen`,
  `ConnectionRuns.LaterCleanupRepairs`, `ConnectionRuns.StoppedCleanupStrandsRows`.
- A log reader whose offset could not be saved has dropped the lines of that read:
  `Tailer.IncrementalReadingIsExactExactlyWhen`, `Tailer.FailedSaveDropsLines`.
- A user added with a tag given twice is stored on the first server only, because syncing its tags fails
  after the row is in: `Replication.AddKeepsReplicasExactlyWhen`, `ReplicationLimits.RepeatedTagSplitsServers`.
- Setting an expiry date reads the clock once per server, so a date between two readings can enable the
  user on some servers only: `Replication.ExpiryKeepsReplicasExactlyWhen`,
  `ReplicationLimits.DateBetweenReadingsSplitsServers`.
- A removed user is back on a server whose runtime call failed, because the deploy that takes the call's
  place seeds the server from those still to be done, and the command reports success:
  `RemoteFailures.SuccessfulRemoveKeepsUserExactlyWhen`, `ReplicationLimits.RemovedUserComesBack`.
- A user disabled, enabled or given a date while a server's remote part fails ends up different on the
  servers, and every further user command is refused: `RemoteFailures.ChangeKeepsReplicasExactlyWhen`,
  `RemoteFailures.HalfChangeBlocksCommands`, `ReplicationLimits.DisablingLocksTheFleet`.
- One reconcile apply does not always converge, because inserting forces quotas on:
  `Reconcile.ApplyConvergesExactlyWhen`, `Reconcile.QuotaOffNeedsSecondApply`.
- A security profile with an unsupported name is turned into no name, which is then validated as minimal
  but rendered without the minimal rules: `XrayRouting.RoutingMeetsIntentExactlyWhen`,
  `XrayRouting.UnsupportedNameLetsThrough`. Only direct callers of the renderer can reach it, because
  `parseSecurityProfileFromEnv` (internal/cli/runtime_xray_spec.go:128-140) refuses such names.

The help text of `user reconcile` says that user changes apply to all enabled VPN servers; the code, and
this model, apply them to all enabled servers of both roles.

## Model

| member | source | states |
|---|---|---|
| Traffic.ComputeDelta | internal/stats/delta.go:4-19 | The delta leads from the previous to the current value, or is the current value after a reset or without a previous one, and is never negative; a reset is reported exactly when the current value is smaller. |
| Traffic.TrafficStore.AddDeltaAndAdvanceCounter | internal/store/remote/store.go:301-316 | A delta and the counter it came from are stored together; a commit that fails changes nothing. |
| Traffic.TrafficStore.ListUsageBetween | internal/store/remote/quota.go:197-220 | For every user the result is the sum of both directions over the day rows that start in [start, end). |
| Traffic.TablesMatchHistory | internal/store/remote/store.go:318-352 | After any history of deltas each hourly, daily and total figure is the sum of the deltas whose bucket is selected. |
| Traffic.TotalIsSumOfWindows | internal/store/remote/store.go:318-352 | Conservation: a user's total equals the sum of the hourly rows and the sum of the daily rows, per direction. |
| Traffic.DayIsSumOfItsHours | internal/store/remote/store.go:318-352 | Each daily row is the sum of the hourly rows of that user in that UTC day. |
| Traffic.UsageIsRollingWindow | internal/store/remote/quota.go:197-220 | Window usage is at most the bytes stamped since the window's start and at least those stamped in the window less its first day. |
| Traffic.IdleUsageIsZero | internal/store/remote/quota.go:197-220 | Once the window has moved past the last delta its usage is zero. |
| CounterNames.CounterKeyIsInjective | internal/stats/collector.go:124-129 | The names the collector stores counters under differ for different users or directions. |
| CounterNames.ParseUserCounters | internal/xrayapi/client.go:131-154 | The loop over the counters does what reading one after the other does: names are split at >>>, the second piece is the user and the fourth the direction. |
| CounterNames.ReadBackExactlyWhen | internal/xrayapi/client.go:131-154 | A counter is read back as the user and the direction it counts if and only if the email neither contains >>> nor ends in a >. |
| CounterNames.UserReadIsReadable | internal/xrayapi/client.go:131-154 | Whatever a counter is called, the user read from its name is an email of that form. |
| CounterNames.ReadingIsOwn | internal/xrayapi/client.go:131-154 | Whatever the order of the counters: the value read for a counter is its own, and every such email with a counter is read, unless another counter is read as this one. |
| CounterNames.TrailingMarkIsDropped | internal/xrayapi/client.go:131-154 | An email with one > after it is read as the email without, in each direction. |
| Counters.Collector.ConsumeCounter | internal/stats/collector.go:165-211 | The stored counter and the tables move together, by the delta against the stored value; a failing call leaves both. |
| Counters.Collector.CollectCounters | internal/stats/collector.go:112-148 | The loop over readings does what consuming them one after the other does, up to the first failure. |
| Counters.CollectedStops | internal/stats/collector.go:112-148 | After a failed reading the remaining readings change nothing. |
| Counters.LossIsAccountedFor | internal/stats/collector.go:165-211 | Conservation law over traffic, Xray and agent restarts and failing polls, counter names included: bytes sent equal bytes recorded, still to be recorded and lost, where each step loses a stated, non-negative amount, which is everything for an email that is not read back. Steps that mix another counter into this one are what Counters.RecordedNeverExceedsSentExactlyWhen is about. |
| Counters.ForgettingCosts | internal/stats/delta.go:4-19 | A reading that is taken but never stored costs exactly the bytes stated in terms of the stored, the read and the live value. |
| Counters.RecordedNeverExceedsSent | internal/stats/collector.go:165-211 | For every schedule in which no traffic moves on a counter that is read as this one, the recorded bytes, even with all that is still pending, never exceed the bytes sent. |
| Counters.RecordedNeverExceedsSentExactlyWhen | internal/xrayapi/client.go:131-154 | Over all schedules on a set of counters: none records more for a counter than was sent on it if and only if no other counter of the set is read as this one. |
| Counters.UnreadableIsNeverRecorded | internal/xrayapi/client.go:131-154 | Under no schedule are bytes recorded for an email that is not read back: all it sends is lost. |
| Counters.DisplayNameIsMisread | internal/model/validate.go:136-140 | A run from the start with an email that has a display name, as user creation accepts it: five bytes are recorded for an email nobody has and none for the user's own. |
| Counters.WithoutRestartNothingIsLostExactlyWhen | internal/stats/delta.go:4-19 | Without a restart of Xray, and without traffic on a counter read as this one, the recorded total equals the last counter value stored, and nothing is lost if and only if the email is read back or nothing was sent, whatever polls fail. |
| Counters.RunReplaysItsHistory | internal/stats/collector.go:165-211 | The three aggregates after a run are exactly the committed deltas added up. |
| Counters.ReadingsExtendLog | internal/stats/collector.go:112-148 | Whatever readings fail, the aggregates after a poll's loop are those of a log extended by the deltas the loop committed, none of them negative. |
| Counters.AggregatesAgree | internal/store/remote/store.go:318-352 | After every such run total, hourly and daily figures agree. |
| Quota.MembersAfter | internal/stats/quota.go:72-147 | After a pass a row's user is on its inbound exactly when the pass added it, or it was there and the pass did not remove it. |
| Quota.BlockedAfter | internal/stats/quota.go:72-147 | A flag is cleared exactly by an unblock whose store write worked and set exactly by such a block. |
| Quota.PassIsSafeExactlyWhen | internal/stats/quota.go:72-152 | A pass from a safe state ends safe if and only if no email is left half done by a failing call. |
| Quota.NeverHalfDone | internal/stats/quota.go:72-152 | With a working store nothing is half done when the runtime fails only with Missing, or when there is one inbound. |
| Quota.PartialBlockLeavesUserPresent | internal/stats/quota.go:72-152 | A concrete state with two inbounds in which one runtime error leaves a blocked user present, and later passes keep it so. |
| Quota.NilMeansEveryRowClean | internal/stats/quota.go:72-152 | A pass returns nil exactly when every row's runtime and store call succeeded. |
| Quota.NilPassDecides | internal/stats/quota.go:72-152 | After a nil pass an email is blocked exactly when its quota is enabled and used up; newly blocked rows are out of the runtime, newly unblocked ones in. |
| Quota.NilPassReportsStatus | internal/stats/quota.go:66-71 | After a nil pass the reported blocked, 80% and 95% users are those of the state it leaves. |
| Quota.IdleUnblocksEverybody | internal/stats/quota.go:42-65 | With no usage in the window a nil pass leaves no policy email blocked. |
| Quota.ExpiryOnlyRemovesBarred | internal/stats/expiry.go:22-53 | Expiry enforcement never adds anyone and removes only members some row bars. |
| Quota.NilExpiryRemovesExactlyBarred | internal/stats/expiry.go:22-53 | When it returns nil the remaining members are exactly the former ones no row bars. |
| Agent.RunStaysSafe | cmd/ovpn-agent/http_routes.go:287-665 | Over every run of syncs, resets, runtime adds and removes and polls with working writes of block flags, a blocked email has a policy row and is absent from the runtime on each of its inbounds; with one inbound whatever the runtime answers, with several when it fails only with Missing. |
| Agent.ServeStaysGuarded | cmd/ovpn-agent/http_routes.go:287-665 | Each request keeps that invariant. |
| Agent.ServeIsSafeExactlyWhen | internal/stats/quota.go:72-152 | Whatever fails: a request leaves a safe agent safe if and only if its pass, if it gets to one, leaves no email half done. |
| Agent.RunIsSafeExactlyWhen | cmd/ovpn-agent/http_routes.go:287-665 | Whatever fails and for any number of inbounds: blocked emails have a policy row and are absent after every prefix of a run if and only if no pass of the run leaves an email half done. |
| Agent.PruneStaysSafe | internal/store/remote/quota.go:49-91 | Replacing the policies and pruning states of emails without a row keeps it. |
| Agent.FreshAgentIsGuarded | internal/store/remote/store.go:29-45 | It holds of an agent whose tables were just created, whoever is in the runtime. |
| Agent.NilPollDecides | internal/stats/collector.go:149-161 | When CollectOnce returns nil, block decisions follow usage, and unblocked users are served unless a user row bars them. |
| Agent.NilPollBarsNobodyServed | internal/stats/collector.go:149-161 | When CollectOnce returns nil no disabled or expired user row has its member in the runtime. |
| Agent.NilPollReportsStatus | internal/store/remote/quota.go:223-291 | The blocked users a nil poll reports are those QuotaStatus counts afterwards. |
| Agent.TablesReplayTraffic | internal/stats/collector.go:80-162 | After every run of requests the traffic tables of an agent that started with empty ones are exactly the deltas its polls committed, added up. |
| Agent.PoliciesStayUniform | internal/store/remote/quota.go:49-91 | After every run keys of policy rows are unique, and rows of one email differ in the inbound only when those of each sync do. |
| Agent.IdlePollUnblocksEverybody | internal/stats/quota.go:42-65 | For every run of an agent that starts with empty tables: once now is more than the window past the last recorded traffic, a poll that returns nil leaves no policy email blocked. |
| Agent.NilPollFollowsTraffic | internal/stats/quota.go:42-133 | For every such run, against the bytes it recorded: enough in the window less its first day means blocked after a nil poll, too little since its start means not blocked. |
| Agent.ResetRestoresUser | cmd/ovpn-agent/http_routes.go:484-543 | A reset that succeeds clears the block, puts an effectively enabled user back on every inbound it has a usable row for, and leaves everybody else alone. |
| Agent.AddServesOrRefuses | cmd/ovpn-agent/http_routes.go:544-628 | A runtime add serves the user on that inbound only; when no call fails it is refused exactly for a blocked user with an enabled policy or a user whose row is not in effect. |
| Agent.SyncPrunes | internal/store/remote/quota.go:49-91 | After a sync that succeeds only emails with a policy row can be blocked. |
| Metering.LoopIsConsumeSteps | internal/stats/collector.go:112-148 | The poll's loop over the users is the run of its single counter steps, up to the first failure. |
| Metering.PollIsScheduled | internal/stats/collector.go:80-162 | A poll is a query, those steps, and forgetting what was read after the first failure. |
| Metering.RunIsScheduled | internal/stats/collector.go:80-162 | Every run of a host, with all its requests and restarts, is a schedule of the counters. |
| Metering.HostNeverRecordsTooMuch | internal/stats/collector.go:80-162 | The law over bytes sent for agents: over every run of transfers, polls, requests, configuration writes and restarts, whichever calls fail, no more is recorded for a counter than moved on it, unless traffic moved on another counter that is read as this one. |
| Metering.PollCatchesUpExactlyWhen | internal/stats/collector.go:80-162 | After a poll whose loop went through, without a restart of Xray or such traffic so far, everything sent is recorded if and only if the email is read back or nothing was sent. |
| Metering.UnreadableIsNeverBlocked | internal/cli/user_cmd_lifecycle.go:50-67 | Over every run of a host a user whose email is not read back is never blocked, whatever its quota and its traffic. |
| AgentServer.PolicyStore.ReplaceQuotaPolicies | internal/store/remote/quota.go:49-91 | One transaction: rows are trimmed and stored and orphaned states pruned, or nothing changes; a repeated (email, tag) fails it. |
| AgentServer.PolicyStore.ReplaceUserPolicies | internal/store/remote/users.go:15-35 | One transaction that replaces all user rows, failing on a repeated key. |
| AgentServer.PolicyStore.SetQuotaBlocked | internal/store/remote/quota.go:147-163 | Upserts the state of one trimmed email and no other. |
| AgentServer.Gateway.AddUser | cmd/ovpn-agent/runtime_gateway.go:30-51 | Adds one member under the default tag when none is given; a user already present is no error. |
| AgentServer.Gateway.RemoveUser | cmd/ovpn-agent/runtime_gateway.go:54-71 | Removes one member and tells a missing one apart from other failures. |
| AgentServer.QuotaEnforcer.EnforcePolicy | internal/stats/quota.go:72-147 | One row of the loop against its specification. |
| AgentServer.QuotaEnforcer.Enforce | internal/stats/quota.go:37-161 | The loop refines the pass the safety results are about, and reports the sizes of its three sets. |
| AgentServer.QuotaEnforcer.QuotaStatus | internal/store/remote/quota.go:223-291 | Lists every policy email, or the one asked for, once and in order with its effective quota, window usage, block and inbounds, and counts the enabled and the blocked ones although an email has a row per inbound. |
| AgentServer.UnfilteredStatus | internal/store/remote/quota.go:223-291 | Without a filter the counted emails are the policy emails that enforcement decides about. |
| AgentServer.ExpiryEnforcer.Enforce | internal/stats/expiry.go:22-40 | The loop refines the expiry pass; a missing user is no error here. |
| AgentServer.Server.QuotaSync | cmd/ovpn-agent/http_routes.go:287-310 | The handler refines its transition of the whole agent state. |
| AgentServer.Server.UserSync | cmd/ovpn-agent/http_routes.go:311-336 | The handler refines its transition. |
| AgentServer.Server.QuotaReset | cmd/ovpn-agent/http_routes.go:484-543 | The handler refines its transition, with the re-add loop stopping at the first runtime error. |
| AgentServer.Server.RuntimeAdd | cmd/ovpn-agent/http_routes.go:544-628 | The handler refines its transition: a blocked user with an enabled policy and a barred user are refused. |
| AgentServer.Server.RuntimeRemove | cmd/ovpn-agent/http_routes.go:629-665 | The handler refines its transition; removing a missing user succeeds. |
| AgentServer.Server.CollectOnce | internal/stats/collector.go:80-162 | The poll refines its transition: counters, then quota, then expiry, stopping at the first error. |
| PolicySync.QuotaRows | internal/cli/runtime_helpers.go:347-371 | The nested loop builds one row per inbound tag for each user that is active when its turn comes, in order. |
| PolicySync.StoredRowsOrigin | internal/cli/runtime_helpers.go:347-371 | A row is stored exactly when it comes from an active user and one of the tags. |
| PolicySync.SyncedRowsAreGood | internal/cli/runtime_helpers.go:347-371 | The synced rows are unique, uniform per email and cover every inbound: what the safety result asks of a sync. |
| PolicySync.OperatedAgentStaysSafe | cmd/ovpn-agent/http_routes.go:287-665 | Every run of an agent whose quota syncs come from the operator's machine stays safe. |
| PolicySync.UsersForRuntimeConfig | internal/cli/runtime_helpers.go:464-501 | Each user is rendered enabled exactly when it is effectively enabled and not reported blocked; a reported block and its time are copied. |
| PolicySync.DeployKeepsSafe | internal/cli/runtime_helpers.go:464-501 | Restarting Xray with the configuration rendered from the agent's current status keeps a safe agent safe and serves every active user that is not blocked. |
| PolicySync.ProfileTagsAreGood | internal/cli/runtime_helpers.go:507-526 | The inbound tags of different profiles are different, not blank and already trimmed. |
| Restarts.RestartIsSafeExactlyWhen | internal/cli/runtime_helpers.go:305-344 | A restart of Xray, which loads the members of the configuration file again, is safe if and only if the file lists no policy row of a blocked email. |
| Restarts.RestartsDecideSafety | internal/deploy/deploy.go:342-355 | Over every run of requests, polls, configuration writes, agent starts and restarts of Xray in which only the calls of `Agent.RunStaysSafe` fail, blocked emails are absent throughout if and only if that holds at each restart. |
| Restarts.RunIsSafeExactlyWhen | internal/deploy/deploy.go:342-355 | Over all such runs, whatever fails: blocked emails are absent throughout if and only if no pass leaves an email half done and that holds at each restart. |
| Restarts.RenderedIsClearExactlyWhen | internal/cli/runtime_helpers.go:464-501 | A configuration rendered earlier is fit for a restart if and only if every email blocked now is no service account and was blocked or not in effect when it was rendered. |
| Restarts.PassKeepsServing | internal/stats/quota.go:104-126 | A pass leaves a blocked user who is present where it is while the usage stays over the quota, whichever calls fail. |
| Restarts.PollsKeepServing | internal/stats/quota.go:104-126 | So does every run of polls, as long as no user row bars the user. |
| Restarts.RestartUndoesBlock | internal/cli/deploy_cmd.go:31-66 | A run from a stopped host, with no failing call, in which a restart after a block serves the blocked user again and a later poll leaves it so. |
| StuckRows.PollRemovesExactlyWhen | internal/stats/collector.go:149-160 | A served user leaves the runtime at a poll if and only if its own quota row blocks it, or a user row bars it, the removal works and every quota row of every user is clean. |
| StuckRows.PassLeavesStuck | internal/stats/quota.go:135-143 | A row whose email is neither blocked nor in the runtime on any of its inbounds stays so in every pass, whatever the usage and whichever calls fail. |
| StuckRows.StuckStopsPolls | internal/stats/collector.go:149-160 | While such a row is over its quota every poll fails and none enforces expiry, over every run of polls. |
| StuckRows.StuckRowStarvesExpiry | internal/stats/collector.go:149-160 | Over every such run a member stays served throughout if and only if no poll blocks its own quota row, whatever the user policies say. |
| StuckRows.ExpiredUserStaysServed | internal/stats/collector.go:149-160 | A run from empty tables with a working store and runtime: a user expires just under its quota, its last bytes are counted, and through every later poll of the quota window another user is served after its own expiry. |
| Tailer.LinesContinue | internal/diagnostics/tailer.go:233-254 | Reading a chunk after an unfinished line gives the lines of the whole text that were not complete before. |
| Tailer.Tailer.ParseChunk | internal/diagnostics/tailer.go:233-254 | Returns the parsed complete lines of partial and chunk and keeps the unfinished rest. |
| Tailer.Tailer.Locate | internal/diagnostics/tailer.go:217-231 | Sets the initial offset once, from the saved offset or the end of the log. |
| Tailer.Tailer.ReadText | internal/diagnostics/tailer.go:153-202 | One read of the log against its specification, with its failures. |
| Tailer.Tailer.ReadNewEvents | internal/diagnostics/tailer.go:153-202 | The events and the new position of one read, or the position a failure leaves. |
| Tailer.Tailer.TruncateScratchLog | internal/diagnostics/tailer.go:204-215 | Truncation forgets the position; a failing call leaves what the source leaves. |
| Tailer.Tailer.FlushBatch | internal/diagnostics/tailer.go:71-91 | A flush records the batch and empties it, or keeps it when recording fails. |
| Tailer.Tailer.ReadTick | internal/diagnostics/tailer.go:93-124 | One tick appends the events read to the batch, flushing whenever it is full. |
| Tailer.EnqueueKeepsOrder | internal/diagnostics/tailer.go:93-124 | Recorded events followed by the batch only ever grow by the events read, in order, whatever flushes fail. |
| Tailer.IncrementalReadingIsExact | internal/diagnostics/tailer.go:153-202 | For a log that only grows within its limit and offsets that can be saved, under any schedule of appends, reads and flushes, the events are exactly the parsed complete lines between the first and the current offset, the partial line is the unfinished tail and nothing is reordered or lost on the way to the store. |
| Tailer.StepIsExactExactlyWhen | internal/diagnostics/tailer.go:153-202 | For a log within its limit one step leaves the reader exact if and only if it is not a read whose text is lost because the offset could not be saved. |
| Tailer.IncrementalReadingIsExactExactlyWhen | internal/diagnostics/tailer.go:153-202 | Over every schedule on such a log reading is exact throughout if and only if no step drops text that way. |
| Tailer.DrainedMeansRecorded | internal/diagnostics/tailer.go:93-124 | When nothing is pending, everything finished since the start is recorded. |
| Tailer.FailedSaveDropsLines | internal/diagnostics/tailer.go:189-202 | A run from a fresh reader on a log of one line that loses the line for good when the first save fails. |
| Connections.BatchesCompose | internal/store/remote/diagnostics.go:25-154 | Recording A followed by B in one batch leaves the tables that recording A and then B leaves. |
| Connections.DiagnosticsStore.DebugEventCounts | internal/store/remote/diagnostics.go:225-259 | The counts read for active sessions are those of the table. |
| Connections.DiagnosticsStore.RecordConnectionEvents | internal/store/remote/diagnostics.go:25-154 | The loop with cached counts refines recording that counts the tables anew for each event; a failing commit changes nothing. |
| Connections.DiagnosticsStore.StartDebugSession | internal/store/remote/diagnostics.go:431-455 | Starts or replaces the session of one email, with the default length for a non-positive one and a cap; a failing store call changes nothing. |
| Connections.DiagnosticsStore.StopDebugSession | internal/store/remote/diagnostics.go:458-472 | Removes a session with its events, in one transaction. |
| Connections.DiagnosticsStore.CleanupConnectionDiagnostics | internal/store/remote/diagnostics.go:550-576 | Leaves the tables after as many of its six statements as were executed. |
| ConnectionRuns.RecordAllFits | internal/store/remote/diagnostics.go:53-140 | Recording keeps the counts of an hour consistent and adds exactly the number of its events. |
| ConnectionRuns.RunsCountEveryEvent | internal/store/remote/diagnostics.go:53-140 | In every state reached by recording and whole cleanups accepted and rejected, port counts, and source counts with overflow stay below the family counts of a user's hour; source rows respect the cap and no row lacks its hour. |
| ConnectionRuns.StoppedRunsCountEveryEvent | internal/store/remote/diagnostics.go:53-140 | Wherever cleanups stop, the family counts of a user's hour sum to the events recorded for it since its row was last deleted. |
| ConnectionRuns.PrefixIsConsistentExactlyWhen | internal/store/remote/diagnostics.go:550-576 | A cleanup stopped after any prefix of its statements leaves consistent aggregates consistent exactly unless it stops between an hour and its old source or port rows. |
| ConnectionRuns.RunIsConsistentExactlyWhen | internal/store/remote/diagnostics.go:550-576 | Over every run of recording, sessions and cleanups that may stop anywhere, the aggregates are consistent throughout if and only if every cleanup stops cleanly. |
| ConnectionRuns.WholeCleanupRepairsExactlyWhen | internal/store/remote/diagnostics.go:550-576 | A cleanup that executes all its statements leaves consistent aggregates if and only if the hours it keeps were consistent. |
| ConnectionRuns.LaterCleanupRepairs | internal/store/remote/diagnostics.go:550-576 | After every run, whatever rows stopped cleanups have stranded, a whole cleanup that reaches as far as they did leaves consistent aggregates. |
| ConnectionRuns.StoppedCleanupStrandsRows | internal/store/remote/diagnostics.go:550-576 | One recorded event and a cleanup that stops after its fourth statement reach a state with a port row whose hour is gone. |
| ConnectionRuns.RunsBoundCapture | internal/store/remote/diagnostics.go:141-151 | After every store operation and every prefix of a cleanup, debug events never outnumber the cap per email and always belong to an email with a session. |
| ConnectionCounts.BatchIsCounted | internal/store/remote/diagnostics.go:53-140 | Recording a batch adds to each accepted, rejected, family and port figure, and to the source counts with their overflow, exactly the number of its events of that kind. |
| ConnectionCounts.RunsCountEveryKind | internal/store/remote/diagnostics.go:53-140 | In every state reached by recording, debug sessions and cleanups, wherever these stop, each accepted, rejected, family and port figure is the number of events of its kind recorded for that user's hour since its rows were last deleted; so are the source counts with their overflow when no cleanup stops between these two. |
| Profiles.NameIsItsOwnProfile | internal/model/transport_profile.go:103-117 | Every profile's name normalizes to that profile. |
| Profiles.SortProfilesByKnownOrder | internal/model/transport_profile.go:182-201 | Lists the members of its input once each, in display order. |
| Profiles.NormalizeEnabledProfiles | internal/model/transport_profile.go:122-142 | Lists the known names once each in display order, REALITY when there is none. |
| Profiles.InOrderHasNoDuplicates | internal/model/transport_profile.go:182-201 | Such a list repeats nothing. |
| Profiles.CsvRoundTrip | internal/model/transport_profile.go:122-166 | Reading a stored list back gives the primary and the stored profiles, each once, in display order. |
| Profiles.NormalizationIsFixedPoint | internal/model/transport_profile.go:122-166 | Normalizing a stored list again changes nothing, and the primary is always in it. |
| Profiles.EmptyTokenMeansDefault | internal/model/transport_profile.go:103-142 | A blank token anywhere in a stored list that is not blank enables the REALITY profile, whatever the primary and the other tokens are. |
| Profiles.TrailingCommaAddsReality | internal/model/transport_profile.go:103-142 | A comma after a single name enables that profile, the primary and REALITY. |
| Profiles.ProfileConflictsOn443 | internal/cli/server_cmd_profiles.go:165-172 | Reports a conflict exactly when another enabled profile needs the same port. |
| Profiles.RemoveConflicting443Profiles | internal/cli/server_cmd_profiles.go:174-183 | Keeps the enabled profiles in order except those in conflict. |
| Profiles.CompatibleMembers | internal/cli/server_cmd_profiles.go:174-183 | A profile is kept exactly when it is enabled and is the given one or needs another port. |
| RegistryCommands.RealityParityDiff | internal/cli/global_users.go:110-125 | Reports exactly the fields in which the trimmed keys, short ids and, if asked for, service UUIDs differ. |
| RegistryCommands.EnsureRealityParityForServers | internal/cli/global_users.go:90-108 | Comparing with the first server alone decides whether all pairs of servers agree. |
| RegistryCommands.EnsureVPNBackendsCompatible | internal/cli/proxy_helpers.go:148-173 | Accepts exactly a non-empty pool of vpn servers with REALITY in which every pair agrees. |
| RegistryCommands.EnsureVLESSEncryptionParityForServers | internal/cli/vless_encryption.go:162-184 | One scan decides whether all pairs are complete and equal, and finds their first holder. |
| RegistryCommands.CollectUuids | internal/cli/proxy_helpers.go:97-114 | Finds no, one shared or several service UUIDs although it stops at the second one. |
| RegistryCommands.Operator.SetVLESSEncryptionForServers | internal/store/local/store_servers.go:166-203 | Stores the pair on all listed servers or, when one is missing, on none. |
| RegistryCommands.Operator.UpdateServer | internal/store/local/store_servers.go:72-104 | Normalizes, validates and rewrites one row. |
| RegistryCommands.Operator.InsertServer | internal/store/local/store_servers.go:29-69 | Normalizes, validates and inserts a row under a new id unless the name is taken. |
| RegistryCommands.Operator.EnsureVLESSEncryptionForServer | internal/cli/vless_encryption.go:103-160 | Refines its specification over all vpn servers: one shared pair, generated only when none exists. |
| RegistryCommands.Operator.EnsureBackendProxyServiceUUID | internal/cli/proxy_helpers.go:93-139 | Refines its specification, with its partial updates when a row does not validate. |
| RegistryCommands.Operator.ValidateAttachedBackendProfiles | internal/cli/proxy_helpers.go:175-192 | Refuses exactly to leave an attached vpn backend without REALITY. |
| RegistryCommands.Operator.ServerAdd | internal/cli/server_cmd_lifecycle.go:43-175 | The command refines its step: baseline keys, shared pair, insertion, seeding. |
| RegistryCommands.Operator.ProfileEnable | internal/cli/server_cmd_profiles.go:46-78 | The command refines its step. |
| RegistryCommands.Operator.ProfileDisable | internal/cli/server_cmd_profiles.go:80-124 | The command refines its step. |
| RegistryCommands.Operator.ProfileSwitch | internal/cli/server_cmd_profiles.go:126-159 | The command refines its step. |
| RegistryCommands.Operator.BackendAttach | internal/cli/server_cmd_backends.go:25-85 | The command refines its step, with the pool checked on the copies read before the UUIDs were assigned. |
| RegistryCommands.Operator.BackendDetach | internal/cli/server_cmd_backends.go:87-116 | The command refines its step. |
| RegistryCommands.Operator.Cleanup | internal/cli/server_cmd_cleanup.go:134-140 | Deletes the server with its attachments or keeps it disabled. |
| RegistryRuns.EnsureVlessStores | internal/cli/vless_encryption.go:103-160 | On success every vpn server holds one complete pair and nothing else changed; on failure nothing changed. |
| RegistryRuns.StepKeeps | internal/cli/server_cmd_profiles.go:46-159 | Every command keeps rows well-formed, keys and pairs in agreement and pools uniform. |
| RegistryRuns.AttachKeeps | internal/cli/server_cmd_backends.go:25-85 | Attaching keeps all of that although only the candidate pool is checked. |
| RegistryRuns.ServersStayWellFormed | internal/cli/server_cmd_profiles.go:46-192 | After every run each server has its primary enabled, a list that normalization leaves alone, no repetition and no port used twice. |
| RegistryRuns.AttachedBackendsAgree | internal/cli/server_cmd_backends.go:34-77 | After every run the backends of a proxy are vpn servers with REALITY that agree pairwise on keys, short ids and a service UUID that is not blank. |
| RegistryRuns.OnePairInTheCluster | internal/cli/vless_encryption.go:103-184 | After every run all vpn servers with a VLESS Encryption pair hold the same complete one. |
| RegistryRuns.ParityChecksPass | internal/cli/server_cmd_lifecycle.go:64-81 | After every run the parity checks before adding a server or enabling VLESS Encryption pass. |
| RegistryRuns.VlessFailsOnlyWithoutPair | internal/cli/vless_encryption.go:103-160 | After every run enabling VLESS Encryption on a vpn server gets a pair exactly when one exists or could be generated. |
| RegistryEffects.RelayFitsEveryBackend | internal/cli/proxy_helpers.go:194-215 | After every run the relay built from the first backend fits every backend, and one is built exactly when there are backends and they list a short id. |
| RegistryEffects.EnablingDoes | internal/cli/server_cmd_profiles.go:46-78 | Enabling adds exactly the profile and keeps the primary; other servers change at most in their pair. |
| RegistryEffects.SwitchingDoes | internal/cli/server_cmd_profiles.go:126-159 | Switching makes the profile primary and drops exactly the profiles that need its port. |
| RegistryEffects.DisablingDoes | internal/cli/server_cmd_profiles.go:80-124 | Disabling removes exactly the profile, never the primary, and changes no other row. |
| RegistryEffects.AttachingAndDetachingDo | internal/cli/server_cmd_backends.go:25-116 | An attached backend is in the proxy's pool with its priority and out of it once detached. |
| RegistryEffects.AddingDoes | internal/cli/server_cmd_lifecycle.go:43-163 | An added server is enabled with REALITY alone, in parity with every enabled server of its role, and holds the cluster's pair when there is one. |
| Identities.SameTagsExactlyWhen | internal/cli/global_users.go:327-331 | Two tag lists normalize alike exactly when they hold the same tags equally often. |
| Identities.NormalizeTagsIdempotent | internal/cli/global_users.go:327-331 | Normalized tags are their own normal form. |
| Identities.DiffGlobalIdentityFields | internal/cli/global_users.go:242-263 | Reports exactly the fields in which the canonical forms differ, none when they are equal. |
| Identities.ApplyCanonicalIdentity | internal/cli/global_users.go:289-316 | Afterwards nothing differs from the source, and a change is reported exactly when something differed. |
| Identities.CanonicalUsersFromServers | internal/cli/global_users.go:24-64 | Comparing each entry only with the first one of its user reports a conflict exactly when some two entries of a user differ; the result holds each user's first entry. |
| Users.ExpiryDecidesAccess | internal/cli/user_mutations.go:147-155 | After an expiry update access depends on the new date alone, and a change is reported exactly when access changed. |
| UserCommands.ListUsers | internal/store/local/store_users.go:69-87 | Lists exactly the rows of a table, ordered by username. |
| UserCommands.SeedTable | internal/cli/global_users.go:200-238 | The loop corrects differing users, adds missing ones and stops at the first failure. |
| UserCommands.Fleet.ResolveUserMutationServers | internal/cli/global_users.go:129-146 | Succeeds exactly with an enabled server and, with several, keys and users in agreement. |
| UserCommands.Fleet.AddUserOnServer | internal/cli/user_mutations.go:14-53 | Inserts one row with quotas forced on, which stays when its tags cannot be stored or the remote part fails; a failed runtime call is replaced by a deploy that seeds the server. |
| UserCommands.Fleet.RemoveUserOnServer | internal/cli/user_mutations.go:56-91 | Deletes one row, with the same remote part: a deploy may seed the user back. |
| UserCommands.Fleet.SetUserEnabledOnServer | internal/cli/user_mutations.go:94-117 | Changes the enabled flag of one row, with the same remote part. |
| UserCommands.Fleet.SetUserExpiryOnServer | internal/cli/user_mutations.go:120-145 | Changes the expiry of one row, enabling it when the date is in the future or cleared; a deploy can follow only when access changed. |
| UserCommands.Fleet.SetUserQuotaOnServer | internal/cli/user_mutations.go:158-190 | Changes the quota fields of one row only, which stays when the remote part fails. |
| UserCommands.Fleet.ResetUserQuotaOnServer | internal/cli/user_mutations.go:193-207 | Clears the block of one row only, once the agent has cleared its own. |
| UserCommands.Fleet.MutateAll | internal/cli/user_cmd_lifecycle.go:76-90 | A user command resolves its servers, checks them all before changing any, and stops at the first local or remote failure. |
| UserCommands.Fleet.MaterializeCanonicalUsersOnServer | internal/cli/global_users.go:185-239 | Refines seeding one server with the canonical users of all enabled servers. |
| UserCommands.Fleet.ServerAdd | internal/cli/server_cmd_lifecycle.go:73-162 | Registers a server in name order and seeds it. |
| UserCommands.Fleet.ServerCleanup | internal/cli/server_cmd_cleanup.go:134-140 | Removes or disables one server. |
| Replication.ApplyRefines | internal/cli/user_mutations.go:94-207 | What a command does to identities depends on identities alone, never on quotas or blocks. |
| Replication.FanOutReachesEveryServer | internal/cli/user_cmd_lifecycle.go:84-90 | Without remote failures a command that succeeds has done its part on every enabled server, quotas and blocks included, and touched no other. |
| Replication.FanOutSucceeds | internal/cli/user_cmd_lifecycle.go:84-90 | From equal servers a fan-out that fails nowhere leaves each enabled server with its own outcome. |
| Replication.FanOutStops | internal/cli/user_cmd_lifecycle.go:84-90 | From equal servers a fan-out that would fail everywhere changes the first enabled server only. |
| Replication.AddServerKeeps | internal/cli/global_users.go:185-239 | A registered server is seeded with exactly the users of the others, and seeding never fails. |
| Replication.ReplicasNeverConflict | internal/cli/user_cmd_lifecycle.go:76-90 | After every run of server and user commands without remote failures all enabled servers hold the same usernames with the same identities and canonical resolution finds no conflict. |
| Replication.AddKeepsReplicasExactlyWhen | internal/store/local/store_users.go:111-131 | Adding a user keeps the servers equal if and only if no tag is given twice, the email is taken, or only one server is enabled. |
| Replication.ExpiryKeepsReplicasExactlyWhen | internal/cli/user_mutations.go:120-155 | With a clock reading per server, setting an expiry keeps them equal if and only if the date is cleared, the user is enabled, or all readings fall on one side of the date. |
| RemoteFailures.ChangeKeepsReplicasExactlyWhen | internal/cli/user_mutations.go:38-117 | Under all remote outcomes a command that adds or changes a user keeps the servers equal if and only if it changes no identity, or each enabled server but the last one has no remote failure or is deployed anew for an added user. |
| RemoteFailures.HalfChangeBlocksCommands | internal/cli/global_users.go:129-146 | A switch or date that reached only some servers makes every further user command fail without touching anything. |
| RemoteFailures.SeedingChangesNothing | internal/cli/global_users.go:185-239 | Seeding in the middle of a command changes nothing on a server that has every user of the others. |
| RemoteFailures.SeedingAfterRemove | internal/cli/global_users.go:185-239 | Seeding a server that just lost a user brings the user back exactly when another enabled server has it. |
| RemoteFailures.RemoveReaches | internal/cli/user_mutations.go:56-91 | Under all remote outcomes: which servers a remove leaves without the user, and when it reports success. |
| RemoteFailures.SuccessfulRemoveKeepsUserExactlyWhen | internal/cli/user_mutations.go:83-89 | A remove that reports success has left the user on some server if and only if a server other than the last one was deployed anew. |
| RemoteFailures.RemoveKeepsReplicasExactlyWhen | internal/cli/user_mutations.go:56-91 | A remove keeps the servers equal if and only if every enabled server loses the user or every one keeps it. |
| RemoteFailures.RunStaysReplicatedExactlyWhen | internal/cli/user_cmd_lifecycle.go:76-90 | Over every run of commands with any remote outcomes the enabled servers are equal throughout if and only if each command meets its condition where it runs. |
| ReplicationLimits.TwoServersAreReached | internal/cli/server_cmd_lifecycle.go:43-175 | Two empty enabled servers are reached by registering them. |
| ReplicationLimits.RepeatedTagSplitsServers | internal/store/local/store_users.go:111-131 | From there adding a user with tags x,x leaves the servers different. |
| ReplicationLimits.DateBetweenReadingsSplitsServers | internal/cli/user_mutations.go:120-155 | With a disabled user on both, an expiry date between their two clock readings leaves them different. |
| ReplicationLimits.RemovedUserComesBack | internal/cli/user_mutations.go:83-89 | With a user on both, a remove whose first runtime call is replaced by a deploy reports success and leaves the user on that server. |
| ReplicationLimits.DisablingLocksTheFleet | internal/cli/user_mutations.go:105-114 | Disabled in the same way the user is disabled on one server only and every further user command is refused. |
| Reconcile.DiffReconcileFields | internal/cli/user_cmd_reconcile.go:251-292 | Reports no field exactly when the rows are equivalent for reconciling. |
| Reconcile.Plan | internal/cli/user_cmd_reconcile.go:69-105 | Plans exactly one addition per missing, one update per differing and one deletion per extra user, and no action twice. |
| Reconcile.Apply | internal/cli/user_cmd_reconcile.go:135-183 | On success every row is the repaired one; it succeeds when no email of the source belongs to another user; on failure no user is gone and every row is the target's own or the repaired one. |
| Reconcile.ApplyConvergesExactlyWhen | internal/cli/user_cmd_reconcile.go:135-183 | One apply leaves the source's usernames, and a further plan is empty exactly when every inserted user has quotas enabled on the source. |
| Reconcile.QuotaOffNeedsSecondApply | internal/store/local/store_users.go:13-51 | Copying a server with a user whose quota was switched off to an empty server leaves work for a second apply. |
| Reconcile.SecondApplyConverges | internal/store/local/store_users.go:13-51 | After a second apply the plan is always empty. |
| Base64.RoundTrip | internal/xraycfg/render.go:480-487 | Decoding undoes encoding for all bytes in each of the four encodings. |
| Base64.DecodersAgree | internal/xraycfg/render.go:480-487 | Any two encodings that both accept a text read the same bytes from it. |
| Base64.NormalizeX25519KeyBase64 | internal/xraycfg/render.go:474-490 | The first encoding that reads 32 bytes decides, and whichever could have read them the result is their raw URL-safe form; other texts are only trimmed. |
| Base64.NormalKeyKeepsBytes | internal/xraycfg/render.go:474-490 | A 32-byte key in any of the four encodings normalizes to the raw URL-safe encoding of the same bytes. |
| Base64.NormalKeyIdempotent | internal/xraycfg/render.go:474-490 | Normalizing twice is normalizing once, for every text. |
| XrayConfig.NormalizeEnabledProfiles | internal/xraycfg/render.go:311-329 | The profiles to render: first seen first, no repetition, REALITY when none is known. |
| XrayConfig.ValidateSpec | internal/xraycfg/render.go:543-660 | Accepts exactly the valid specs; an unsupported name of the security profile is refused, no name means minimal. |
| XrayConfig.BuildClientUsers | internal/xraycfg/render.go:280-309 | An email-sorted permutation of the enabled users and the service users. |
| XrayConfig.ClientsAreEnabledUsers | internal/xraycfg/render.go:280-309 | A client is listed exactly when it is an enabled user or a service user. |
| XrayConfig.BuildProfileInbounds | internal/xraycfg/render.go:331-374 | One inbound per profile with its tag, port, clients and transport. |
| XrayConfig.ProfileInboundTags | internal/xraycfg/render.go:403-416 | The tags of the profiles in order. |
| XrayConfig.RenderServer | internal/xraycfg/render.go:102-278 | Produces a configuration exactly for accepted specs, and it is what the spec compiles to: inbounds, outbounds, rules and DNS servers. |
| XrayConfig.TagNamesDiffer | internal/model/transport_profile.go:40-73 | Different inbounds have different tag names, the API's included. |
| XrayRouting.CompiledIsWellFormed | internal/xraycfg/render.go:102-278 | Every accepted spec compiles to distinct tags, rules that name only declared inbounds and outbounds and, exactly when the API port is no profile's port, distinct ports. |
| XrayRouting.CompiledServesUsers | internal/xraycfg/render.go:331-401 | Every profile inbound serves the enabled and service users sorted by email, without a flow on plain XHTTP; the REALITY key is in normal form. |
| XrayRouting.DnsExactlyWhenMinimal | internal/xraycfg/render.go:227-231 | DNS servers are configured exactly under the minimal profile, the given ones or two defaults, none blank or with a URI scheme. |
| XrayRouting.RouteTaken | internal/xraycfg/render.go:163-265 | For every connection of every declared inbound the first matching rule, or the default, gives the stated outbound; on a proxy some rule always matches. |
| XrayRouting.RoutingMeetsIntentExactlyWhen | internal/xraycfg/render.go:509-518 | With unwanted traffic meant to be blocked unless the security profile is off, a connection goes where it is meant to if and only if the profile's name is supported, the connection is the API's, or it is wanted. |
| XrayRouting.UnwantedIsBlockedExactlyWhen | internal/xraycfg/render.go:227-249 | Unwanted traffic of users is blocked if and only if the name means minimal. |
| XrayRouting.UnsupportedNameLetsThrough | internal/xraycfg/render.go:509-518 | A concrete accepted spec with an unsupported name under which an IPv6 connection is let through. |
| XrayRouting.RuntimeInboundTags | internal/cli/runtime_helpers.go:507-526 | The tags for live changes: one per profile, first seen first. |
| XrayRouting.RuntimeTagsAreRendered | internal/cli/runtime_helpers.go:507-526 | They are the tags of the rendered profile inbounds in the same order. |
| XrayRouting.StoredProfilesAreRendered | internal/xraycfg/render.go:311-329 | A stored list of profiles is rendered in its own order. |
| Shell.QuotedIsRead | internal/cli/doctor_helpers.go:66-69 | Wherever it stands, a quoted text adds exactly the text to the word being read. |
| Shell.QuotedIsOneWord | internal/cli/doctor_helpers.go:66-69 | A quoted text is read as one word equal to the text, for every text. |
| Shell.QuotingNests | internal/cli/doctor_helpers.go:66-69 | Quoting a quoted text nests: each reading removes one layer. |
| Shell.QuotedArgumentsAreRead | internal/cli/doctor_helpers.go:66-69 | A line of quoted arguments is read as exactly those arguments. |
| Shell.RemoteTimeoutIsRead | internal/cli/doctor_helpers.go:72-78 | The wrapper is read as a conditional that hands exactly the command to sh -c in both branches, once under the timeout, with the probe's output and its descriptor 2 redirected. |
| Text.ParseCSVTrim | internal/util/util.go:67-80 | White space around a list does not change its items. |

## Left out

- SSH, SCP, docker, HTTP and gRPC transport, file access and downloads: only their outcomes appear.
- SQL text, field encryption, key generation and the access-line grammar: tables are maps, generated values
  and parsed lines are parameters, and a hashed source stands for itself.
- Telegram, metrics, tables, QR codes, links, doctor checks and generated scripts: presentation or plumbing.
- Concurrency inside one call: each handler, poll and store call is one step.
- Row identifiers and timestamps of creation and update, the order of rows in quota and policy listings, and
  the order in which reconcile prints its actions.
- 64-bit overflow and floating point: counters are unbounded integers and the 80% and 95% bands use reals.
- Stored times are compared as numbers; the program compares them as RFC 3339 text of one fixed form.
- A quota enforcer without a runtime, and effective quotas that are not positive: the program never builds either.
- Tailer.IncrementalReadingIsExactExactlyWhen: a log above its size limit and a restart with a pending partial
  line are outside it, because the reader is best effort there and loses or joins lines.
- Tailer.TruncateScratchLog: states the reader's position; that the file is empty afterwards is not part of the
  reader's state, and bytes Xray writes meanwhile may be gone, as its comment says.
- Agent.RunStaysSafe: needs working writes of block flags, because an unblocked user whose flag cannot be cleared
  is present and flagged; `Agent.RunIsSafeExactlyWhen` gives the exact condition, whatever fails.
- ConnectionCounts.RunsCountEveryKind: says nothing of source counts when a cleanup stops between an hour, which
  holds their overflow, and its source rows.
- StuckRows.StuckRowStarvesExpiry: is about polls; a sync of user policies or a start of the agent enforces expiry
  by itself.
- PolicySync.DeployKeepsSafe: is about the configuration rendered from the agent's own status;
  `Restarts.RenderedIsClearExactlyWhen` is about any other.
- Replication.ReplicasNeverConflict: covers commands without remote failures; `RemoteFailures` gives the exact
  condition with them. A deploy inside a command appears as the seeding it does and whether the rest succeeds.
- Replication.ReplicasNeverConflict: leaves out reconcile, which copies one server's rows and can break it when the
  source is disabled.
- XrayConfig.RenderServer: leaves out the log, stats, policy, API and sniffing settings and the listen address,
  which are constants or copied from the spec.
- RegistryRuns.ServersStayWellFormed: is about lists of profiles; `Profiles.CsvRoundTrip` and
  `Profiles.NormalizationIsFixedPoint` carry it to the stored text.
- Fields of a server that no command here reads (host, SSH options, Xray version, REALITY target and server name)
  appear as one bit that tells whether they validate.
- Whether Xray obeys its configuration beyond first-match routing, and the flow a live add gives to the
  VLESS Encryption inbound, which differs from the rendered one.
- Expansions and here-documents in the shell reader: it gives no reading of them, and quoted text starts none.
- Commands that only set a server's REALITY target, Xray version or minimum client version: they touch none of the
  fields modelled here.
- Dry runs: they change nothing.
- The whole deploy, backup, restore and monitoring commands.
