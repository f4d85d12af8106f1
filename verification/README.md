# Verified models of pokrov-core

A Dafny model of the parts of pokrov-core whose correctness depends on whole runs, on
transformations of configurations, or on several threads, with proofs about that model.
`dafny verify dfyconfig.toml` checks everything.

What is modelled:

- **Restriction journal** (`Leases`, `RestrictionJournal`, `JournalEdits`, `JournalInvariant`,
  `JournalSafety`, `JournalEvolution`, `JournalLaws`, `JournalStore`): the crash-recovering record of
  restrictions. The specification is a state machine with memory, the process-local tables and the file as separate parts; any write
  may fail, and a crash may come between any two operations. `JournalStore.Journal` is the journal
  with its record list updated in place, proved equal, operation by operation, to the state machine.
  The run theorems start from any file and allow every sequence of operations in which restrictions
  come from the live worker and `finish` is given a generation that `begin` returned. `JournalLaws` says of
  every operation what it answers and what it leaves, field by field, and of a run what its records are.
- **Renewal enrolment** (`RenewalEnrolment`): the bounded table of enrolled renewals, its pruning,
  byte budget and hand-over to a replacement worker.
- **Windows local-DPI profile compiler** (`Json`, `DpiGraph`, `DpiRouting`, `DpiSelection`,
  `DpiPrepare`, `DpiReading`, `DpiMatching`, `DpiOverrides`, `DpiProfile`, `DpiDangling`, `DpiRetry`): the
  protected-outbound walk, the choice of rules, the insertion of overrides and its effect on routing, and the
  all-holders retry. `DpiReading` reads protection off the outbounds themselves, and `DpiProfile` reads the
  returned profile: what its outbounds say and how its rules decide.
- **Hysteria live reload** (`HysteriaPolicy`, `HysteriaCompare`, `HysteriaReload`, `HysteriaSafety`,
  `HysteriaRuns`, `HysteriaFailures`): the replacement of users, outbounds and rules in steps, every one
  of which can fail. `Server.trace` records every state the runtime passes through. A reload may start
  from any runtime, also one that a failed reload left behind. `HysteriaCompare.Alike` compares two rule
  lists for a user without looking at flows; it accepts them exactly if no router and no flow tells them
  apart, and the conditions below are stated with it.
- **Legacy DNS migration** (`Decimal`, `LegacyDnsOutbound`, `LegacyDns`, `LegacyDnsLaws`): removal of DNS
  outbounds and conversion of legacy DNS servers over arbitrary JSON trees; `LegacyDnsLaws` relates the result
  to the given document, key by key.
- **Linux daemon** (`LinuxDaemon`, `LinuxLease`, `DaemonObject`): command loop and watchdog as interleaved atomic
  steps over a clock, a mutex, a cancellable context and the promotion limit. The methods of
  `DaemonObject.Daemon` are the sections of both threads; each takes one of the steps.
- **Event emitter** (`Emitter`, `EmitterObject`): numbering under a lock, lock-free bounded enqueue, and the
  delivery thread, as interleaved steps, which the methods of `EmitterObject.EventEmitter` take.
- **Saved binaries** (`SavedBinary`) and **proxy chains** (`ChainConversion`).

Four promises turn out not to hold as stated. Each has a lemma that shows the failing inputs and
one that says exactly when the code keeps the promise:

- The account policy of a Hysteria user ignores that a rule is inverted. A rule that is inverted and
  names users is misread if the user is not named, or if it has no other criterion
  (`HysteriaPolicy.ProjectionIsExact`, `HysteriaPolicy.ComparisonIsSoundIff`,
  `HysteriaFailures.MisprojectionBreaksReload`). `HysteriaSafety.FencedIsSafe` therefore excludes such
  rules, and nothing else. With any rules, a reload that completes is safe for a user exactly if the
  running rules just before the swap, and the next rules at the end, compare alike with the recorded
  configuration (`HysteriaSafety.ReloadIsSafeIff`).
- A prepared DPI profile makes the very decision of the original except for flows that the original
  already sent to a tag of the same name as an added outbound (`DpiRouting.SameDecisionIff`,
  `DpiPrepare.PreparationPreservesRouting`, `DpiDangling.DanglingRuleChangesDecision`).
- A reload that follows one which failed behind the fence can let a user log in under rules that
  neither its recorded nor its next configuration gives that user
  (`HysteriaFailures.FailedSwapMisleadsNextReload`), or succeed without running the next configuration
  (`HysteriaFailures.StrayOutboundSurvives`). Every next reload begins fenced exactly from the runtimes
  that still run the recorded rules and outbounds (`HysteriaSafety.NextReloadIsFencedIff`); its fence is
  safe exactly if what runs compares alike with what is recorded for every recorded user
  (`HysteriaSafety.NextFenceIsSafeIff`); the whole reload is safe for a user exactly under the condition of
  `HysteriaSafety.ReloadIsSafeIff`; and its success means agreement exactly for consistent runtimes
  (`HysteriaReload.ReloadedAgreesIff`). Where the account policy reads the rules as the router does, users
  whom the failed reload left logged in and users whose account never changes are not affected (`HysteriaSafety.FailureKeepsItsUsers`,
  `HysteriaRuns.ReloadAll`).
- A restriction that does not reach the file and does not come from the live worker can be forgotten
  (`JournalSafety.LateRestrictionCanBeForgotten`, `JournalSafety.FailedRestrictionSurvivesIff`).

## Model

| member | source | states |
|---|---|---|
| JournalSafety.NoRestrictionForgotten | engine/sing-box/daemon/smart_access_restriction_store.go:145-356 | From any file, over any run with failing writes and crashes at any point, a restriction of a live worker's profile (whole, one scope, or a scope that overflows the table) is either handed over by an acknowledgement that named a snapshot showing it, or the profile stays protected and, with no live worker, `begin` answers recovery_required and leaves the file alone |
| JournalSafety.ProtectedIsRefused | engine/sing-box/daemon/smart_access_restriction_store.go:145-163 | A profile whose record is pending or carries a restriction, with no live worker, is refused by `begin` whatever it is given |
| JournalSafety.FailedRestrictionSurvivesIff | engine/sing-box/daemon/smart_access_restriction_store.go:253-282 | After a restriction of a profile or a scope that did not reach the file, because its write failed or the scope table was full, and a crash, recovery is asked for if and only if the file already held the record pending or restricted |
| JournalSafety.LateRestrictionCanBeForgotten | engine/sing-box/daemon/smart_access_restriction_store.go:253-296 | A restriction after a clean finish whose write fails is held in memory, and after a crash a new worker starts without recovery |
| JournalInvariant.LiveWorkerIsMarked | engine/sing-box/daemon/smart_access_restriction_store.go:164-185 | In every reachable state a live generation has a pending record of that generation both in memory and in the file |
| JournalInvariant.WrittenDocumentReloads | engine/sing-box/daemon/smart_access_restriction_store.go:71-143 | Whatever any run writes is accepted by the loader and reloads to exactly the same records |
| JournalEvolution.RunNeverWeakens | engine/sing-box/daemon/smart_access_restriction_store.go:168-282 | Within a process a record's action, scope actions, withdrawal and expiry never weaken while the record exists |
| JournalEvolution.AcknowledgementIsExact | engine/sing-box/daemon/smart_access_restriction_store.go:300-356 | An acknowledgement succeeds if and only if storage works and the named snapshot equals the current one in every exported field and in liveness; it then removes exactly the records without a live worker, and otherwise keeps every record and mark |
| JournalEvolution.RetentionIsAtomic | engine/sing-box/daemon/smart_access_restriction_store.go:211-249 | Retention changes nothing on error; on success it holds both generations and every lease that is active or current, rebinds no identifier, stays within 256 leases and expires no earlier than any of them |
| JournalLaws.RunTellsPolicy | engine/sing-box/daemon/smart_access_restriction_store.go:253-264 | Over any run in which a record persists it terminates if and only if it did at the start or some applied reason was not issuance_disabled, has no action if and only if it had none and nothing was applied, and is withdrawn if and only if it was or catalog_disabled was applied |
| JournalLaws.RunTellsScopes | engine/sing-box/daemon/smart_access_restriction_store.go:266-282 | Over any such run a scope is restricted if and only if it was or an action on it found room, and terminates if and only if it did or such an action was to terminate |
| JournalLaws.RestrictionIsLeast | engine/sing-box/daemon/smart_access_restriction_store.go:253-264 | A policy restriction leaves the least record that is no weaker and carries it: every record that does is at least as strict in action and withdrawal; all other fields and records stay, and it stays in memory also when the write fails |
| JournalLaws.ScopeRestrictionIsLeast | engine/sing-box/daemon/smart_access_restriction_store.go:266-282 | A scope restriction leaves the least record that is no weaker and restricts the scope; with 256 other scopes it only marks the profile unsettled |
| JournalLaws.BeginDecides | engine/sing-box/daemon/smart_access_restriction_store.go:145-185 | A worker begins if and only if nothing is left to recover, the profile is bound to no other catalog, a generation was drawn and the file was written; recovery_required and binding_invalid are given exactly for the first two, and a refusal changes nothing |
| JournalLaws.BeginRecords | engine/sing-box/daemon/smart_access_restriction_store.go:164-185 | The record of a worker that began is the old one, or a clean one, with the drawn generation, pending, bound to its catalog for good, and expiring at the later of both times; nothing else changes |
| JournalLaws.ExtendIsExact | engine/sing-box/daemon/smart_access_restriction_store.go:189-206 | Only the live worker extends, only to a later time, and nothing but the expiry changes; each error is given exactly in its case |
| JournalLaws.FinishIsExact | engine/sing-box/daemon/smart_access_restriction_store.go:284-296 | Only the live worker finishes; it is then gone and its record is pending exactly if the profile is unsettled |
| JournalLaws.RetainDecides | engine/sing-box/daemon/smart_access_restriction_store.go:211-249 | A renewal is retained if and only if the live worker is unrestricted, the new lease follows the old one, no recorded identifier is rebound, at most 256 identifiers remain and the write works |
| JournalLaws.RetainsExactly | engine/sing-box/daemon/smart_access_restriction_store.go:222-249 | After a renewal a lease is recorded if and only if it is one of the two, or was recorded and is active or current; an expired one that is not current is dropped, and the record expires with the last |
| JournalLaws.RunKeepsBinding | engine/sing-box/daemon/smart_access_restriction_store.go:156-175 | Over any run in which a record persists it stays bound to the catalog it was bound to |
| JournalStore.Journal.LoadLocked | engine/sing-box/daemon/smart_access_restriction_store.go:71-128 | Loading the list document is the specification's load, with the same refusals |
| JournalStore.Journal.CheckDocument | engine/sing-box/daemon/smart_access_restriction_store.go:83-127 | The validation loops accept exactly the valid documents: at most 3 records, distinct profiles, every record valid |
| JournalStore.Journal.CheckLeases | engine/sing-box/daemon/smart_access_restriction_store.go:105-115 | The lease loop accepts exactly at most 256 leases with distinct identifiers, each valid and active no later than the record expires |
| JournalStore.Journal.WriteLocked | engine/sing-box/daemon/smart_access_restriction_store.go:130-143 | A write replaces the whole file or leaves it alone |
| JournalStore.Journal.Begin | engine/sing-box/daemon/smart_access_restriction_store.go:145-185 | Beginning is the specification's step, including supersession, refusal and rollback |
| JournalStore.Journal.ExtendExpiry | engine/sing-box/daemon/smart_access_restriction_store.go:189-206 | Extending is the specification's step: later expiries only, restored when the write fails |
| JournalStore.Journal.RetainRenewal | engine/sing-box/daemon/smart_access_restriction_store.go:211-249 | Retention over the sorted list is the specification's step |
| JournalStore.Listing | engine/sing-box/daemon/smart_access_restriction_store.go:235-243 | The kept leases are listed once each, sorted by identifier |
| JournalStore.Journal.RestrictProfile | engine/sing-box/daemon/smart_access_restriction_store.go:253-264 | The record of that generation gets the action and withdrawal of the reason, never a weaker one, in memory also when the write fails: the specification's step, of which JournalLaws.RestrictionIsLeast and JournalLaws.RunTellsPolicy say what it is |
| JournalStore.Journal.RestrictOneScope | engine/sing-box/daemon/smart_access_restriction_store.go:266-282 | Restricting a scope is the specification's step, with overflow marked unsettled |
| JournalStore.Journal.FinishWorker | engine/sing-box/daemon/smart_access_restriction_store.go:284-296 | Finishing is the specification's step: only the live generation, and only if settled, clears the mark |
| JournalStore.Journal.SnapshotLocked | engine/sing-box/daemon/smart_access_restriction_store.go:300-325 | The snapshot exports every record with its liveness |
| JournalStore.Journal.Acknowledge | engine/sing-box/daemon/smart_access_restriction_store.go:338-356 | Acknowledging is the specification's step, with every record restored when the write fails |
| RenewalEnrolment.RunBounded | engine/sing-box/daemon/smart_access_runtime_renewal.go:157-179 | Over every run of enrolments, accepted renewals and worker replacements the table keeps at most 256 entries and 1 MiB of requests, each entry under its own scope |
| RenewalEnrolment.ChainMovesForward | engine/sing-box/daemon/smart_access_runtime_renewal.go:93-178 | A continuously enrolled scope keeps its identity fields and never lowers a revision through any chain of successors |
| RenewalEnrolment.FollowsTransitive | engine/sing-box/daemon/smart_access_runtime_renewal.go:93-102 | Following is transitive |
| RenewalEnrolment.FollowsReflexive | engine/sing-box/daemon/smart_access_runtime_renewal.go:93-102 | Following is reflexive |
| Leases.FollowsIff | engine/sing-box/daemon/smart_access_runtime_renewal.go:93-102 | One lease follows another if and only if they differ in nothing but identifier, times, provider policy digest and revisions, and no revision is lower |
| Leases.CheckLease | engine/sing-box/daemon/smart_access_runtime_renewal.go:64-91 | The checks accept exactly the valid leases: identifiers, digests, revisions, enumerations, and at most ten minutes for new and an hour for active flows |
| RenewalEnrolment.Read | engine/sing-box/daemon/smart_access_runtime_renewal.go:111-130 | Reading an enrolment request accepts exactly the requests of at most 16 KiB with a valid open lease, digest and capability, and gives the deadline on the monotonic clock |
| RenewalEnrolment.DeadlineTracksExpiry | engine/sing-box/daemon/smart_access_runtime_renewal.go:124-130 | While both clocks run alike the deadline is over exactly when the expiry is, and a wall clock set back does not lengthen an enrolment |
| RenewalEnrolment.Enrolments.CarryOver | engine/sing-box/daemon/smart_access_runtime_control.go:196-203 | A replacement takes over exactly the live enrolments that end no later than itself, and none from a worker that was cancelled or has expired |
| RenewalEnrolment.RetryKeepsDeadline | engine/sing-box/daemon/smart_access_runtime_renewal.go:157-178 | Repeating a successful enrolment while it is alive succeeds and changes nothing, not even the deadline |
| RenewalEnrolment.Enrolments.Enrol | engine/sing-box/daemon/smart_access_runtime_renewal.go:135-179 | The method that prunes, sums and updates in place is the specification's enrolment, with the same errors |
| RenewalEnrolment.Enrolments.Prune | engine/sing-box/daemon/smart_access_runtime_renewal.go:158-160 | Exactly the expired entries are removed |
| RenewalEnrolment.Enrolments.SizeWithout | engine/sing-box/daemon/smart_access_runtime_renewal.go:174-176 | The running size is the sum over all other scopes, in whatever order the table is visited |
| DpiGraph.ProtectedIsLeastFixpoint | v2/hcore/windows_local_dpi.go:280-338 | Protection is a fixpoint of "locally protected and everything it needs is protected", and below every set closed under that rule |
| DpiGraph.WalkDecidesProtection | v2/hcore/windows_local_dpi.go:280-338 | The recursive walk with nothing being visited accepts exactly the least fixpoint |
| DpiGraph.CyclesAreRejected | v2/hcore/windows_local_dpi.go:280-290 | An outbound that needs itself at any distance is rejected |
| DpiReading.IsProtected | v2/hcore/windows_local_dpi.go:280-338 | The walk accepts a tag if and only if it is in the least set that holds every acceptable outbound leading into the set only, with acceptable and leading read off the outbound's own keys |
| DpiReading.ProtectedMeans | v2/hcore/windows_local_dpi.go:292-338 | A protected outbound is of one of eight types; plain vless has verified TLS; a lease's upstream, every member of a group and a detour are protected too |
| DpiGraph.Walk.ProtectedVpn | v2/hcore/windows_local_dpi.go:280-338 | The walk terminates on every graph, restores the visiting set and returns the verdict |
| DpiRouting.RewritePreservesRouting | v2/hcore/windows_local_dpi.go:219-266 | For every rule list and flow, first match over the rewritten rules equals first match over the original when every added tag is read as its VPN outbound |
| DpiRouting.SameDecisionIff | v2/hcore/windows_local_dpi.go:219-266 | The decision is literally the original one exactly for flows that the original did not send to a tag of an added outbound |
| DpiRouting.RewriteOnlyInserts | v2/hcore/windows_local_dpi.go:256-266 | Deleting the inserted rules by position gives back the original list in order, for every rule list |
| DpiRouting.DeletingByTagIff | v2/hcore/windows_local_dpi.go:256-266 | Deleting the rules that name an added tag gives back the original list if and only if no original rule names one |
| DpiRouting.OverridesNarrow | v2/hcore/windows_local_dpi.go:225-249 | Both kinds of override match only flows that the rule they stand before matches |
| DpiMatching.Match | engine/sing-box/route/rule/rule_abstract.go:85-190 | Evaluating the criteria group by group matches a flow exactly as the rule means: the window admits, single criteria all hold and one of each group, inverted as a whole; a rule without criteria matches everything |
| DpiMatching.FirstMatch | engine/sing-box/route/route.go:640-742 | The router's loop gives the decision that the routing theorems are about: the first matching route, or the first other final action, with the effects of the rules passed on the way |
| DpiOverrides.LocalMatchesExactly | v2/hcore/windows_local_dpi.go:225-234 | The address override matches exactly the IPv4 flows that its rule matches |
| DpiOverrides.QuicMatchesExactly | v2/hcore/windows_local_dpi.go:235-248 | The QUIC override of a rule without ports matches exactly the flows to UDP port 443 that its rule matches |
| DpiSelection.DomainOwners | v2/hcore/windows_local_dpi.go:115-127 | The ownership fold records a service for a domain exactly when it is the only service of the catalog that lists it |
| DpiSelection.SelectedIsOverridable | v2/hcore/windows_local_dpi.go:156-196 | A selected rule satisfies all conditions of the rewrite theorem and is selected by one service only |
| DpiSelection.SelectRules | v2/hcore/windows_local_dpi.go:156-207 | The selection loop is refused exactly when some selected rule has no allowed fallback or two differ, and otherwise returns the selected rules, their domains and the common fallback |
| DpiPrepare.Prepare | v2/hcore/windows_local_dpi.go:62-272 | The preparation accepts exactly the acceptable requests, and returns the profile with the planned outbounds and overrides and without metadata, the catalog's expiry and the service reports |
| DpiPrepare.ProfileKeepsTheRest | v2/hcore/windows_local_dpi.go:254-271 | A prepared profile has no metadata and differs from the given one in its outbounds and routing rules only |
| DpiPrepare.ByTag | v2/hcore/windows_local_dpi.go:96-103 | The table is built exactly when all tags are non-empty and distinct, and holds every outbound under its tag |
| DpiPrepare.BuildRules | v2/hcore/windows_local_dpi.go:256-266 | Each rule is preceded by its QUIC override and then its address override, if it has them |
| DpiPrepare.PlanIsJustified | v2/hcore/windows_local_dpi.go:142-253 | What an accepted request plans meets the conditions of the rewrite theorem: new tags, protected fallbacks, overridable rules |
| DpiPrepare.PreparationPreservesRouting | v2/hcore/windows_local_dpi.go:62-272 | The whole preparation preserves routing for every router and flow once added tags are read as their VPN, and the decision is literally the original one if and only if the original did not route to an added tag |
| DpiProfile.ProfileReports | v2/hcore/windows_local_dpi.go:208-253 | The returned profile keeps all given outbounds in order, and every one after them is bound to the request's interface, carries its service and tag, and is reported with the same service, tag and domains |
| DpiProfile.ProfileIsConsistent | v2/hcore/windows_local_dpi.go:208-271 | The rules inserted into the returned profile route to exactly the tags of its added outbounds, all of them new, and each of those names a protected outbound of the request as its fallback, in mode smart_safe the final one |
| DpiProfile.ProfilePreservesRouting | v2/hcore/windows_local_dpi.go:62-272 | The returned rules, read with the fallbacks that the returned outbounds name, decide every flow as the request does, and literally so exactly for flows it did not send to an added tag |
| DpiProfile.ProfileDecidesExactly | v2/hcore/windows_local_dpi.go:62-272 | Every flow goes where the first matching rule of the request sends it, except that IPv4 flows of a rule picked by a requested service, and QUIC flows where that is youtube and the rule has no network and ports, go to the service's own outbound |
| DpiDangling.DanglingRuleChangesDecision | v2/hcore/windows_local_dpi.go:62-272 | An accepted request whose prepared profile, under every router, makes another decision exactly on the flows that only the rule naming the added tag takes |
| DpiRetry.PrepareRetry | engine/sing-box/daemon/routing_catalog.go:49-91 | The replacement is reached if and only if the at most 256 well-formed distinct ids are a permutation of the ids of all Windows-direct holders of a running service; slot i then holds the holder with id i |
| DpiRetry.Pigeonhole | engine/sing-box/daemon/routing_catalog.go:69-85 | As many distinct members of a list as it is long are all of its members |
| HysteriaCompare.AlikeIff | engine/sing-box/pokrov_hysteria_reload.go:190-209 | Comparing two rule lists over their outbounds for a user, without looking at flows, accepts them if and only if no scripted flow is decided differently |
| HysteriaCompare.AlikeDecides | engine/sing-box/pokrov_hysteria_reload.go:190-209 | Lists that compare alike decide every flow of the user alike under every router |
| HysteriaSafety.FencedIsSafe | engine/sing-box/pokrov_hysteria_reload.go:121-157 | In every state from the fence to the last user update, every user who can log in gets for every flow the decision and outbound options of both the previous and the next configuration |
| HysteriaSafety.ReloadIsSafeIff | engine/sing-box/pokrov_hysteria_reload.go:121-157 | From any runtime and with any rules, all states that a completing reload passes through decide every flow of a user as the recorded configuration does if and only if the rules it started with, over the outbounds just before the swap, and the next rules, over the outbounds at the end, compare alike with the recorded ones |
| HysteriaSafety.PassingIsSafe | engine/sing-box/pokrov_hysteria_reload.go:121-157 | A user for whom they compare alike gets the recorded decision in every state under every router, also when the reload fails |
| HysteriaSafety.KeptPasses | engine/sing-box/pokrov_hysteria_reload.go:121-131 | From a runtime that runs the recorded rules and outbounds, every kept user meets that condition |
| HysteriaReload.Server.Reload | engine/sing-box/pokrov_hysteria_reload.go:81-159 | From any runtime: success happens exactly when nothing refuses and every step goes through, makes users and rules the next ones, and makes the runtime exactly the next configuration's if and only if it started consistently, so always from an agreeing one; a refusal before the fence changes nothing; every state passed through is one of those the steps lead to, and a completed reload passes through the last one before the swap and the last one before the users follow; the new rules run exactly if all creations went through and the swap did not close them; each prepared rule is closed once or handed to the router; immutable_change is answered exactly if a server is recorded, the next options are valid and they differ in inbounds, reloadable flag, routing switch, any other option, or the first rule where there are two inbounds |
| HysteriaReload.BetweenKeepsShared | engine/sing-box/pokrov_hysteria_reload.go:132-155 | In every state of a reload, what both configurations hold resolves as it did at the start |
| HysteriaReload.ReloadedAgreesIff | engine/sing-box/pokrov_hysteria_reload.go:132-155 | A completed reload leaves exactly the next outbounds if and only if every unchanged outbound was running and nothing was listed that neither configuration names |
| HysteriaSafety.ReadyReloadIsSafe | engine/sing-box/pokrov_hysteria_reload.go:121-157 | From a runtime that runs the recorded rules over the recorded outbounds, also after a failure, every state of every reload is fenced and decides for every kept user as both configurations do |
| HysteriaSafety.NextReloadIsFencedIff | engine/sing-box/pokrov_hysteria_reload.go:88-131 | Every next reload begins fenced if and only if the runtime still runs the recorded rules and every recorded outbound |
| HysteriaSafety.NextFenceIsSafeIff | engine/sing-box/pokrov_hysteria_reload.go:121-131 | The fence of every next reload decides every flow of everyone who may log in as recorded if and only if, for every recorded user, the running rules and outbounds compare alike with the recorded ones |
| HysteriaSafety.RunningPolicyIsAlike | engine/sing-box/pokrov_hysteria_reload.go:190-209 | Running rules that give a user the recorded policy, over outbounds that resolve its routes as recorded, compare alike with the recorded ones |
| HysteriaSafety.FailureKeepsItsUsers | engine/sing-box/pokrov_hysteria_reload.go:121-157 | A reload from an agreeing runtime that fails at any point misleads nobody whom it left logged in, at the fence of any later reload |
| HysteriaRuns.ReloadOne | engine/sing-box/pokrov_hysteria_reload.go:81-159 | Every reload is refused and changes nothing, stops behind the fence, or completes; its trace and its end are those of one of the three |
| HysteriaRuns.CourseSorts | engine/sing-box/pokrov_hysteria_reload.go:121-158 | In the trace of a completed reload exactly the users who meet the condition of ReloadIsSafeIff get every flow decided as recorded |
| HysteriaRuns.CourseServes | engine/sing-box/pokrov_hysteria_reload.go:81-159 | Whatever becomes of a reload, users whose account it does not change may log in and are served from the same rules and outbounds in every state |
| HysteriaRuns.RefuseAll | engine/sing-box/pokrov_hysteria_reload.go:81-84 | Without recorded options every reload of a run is refused as disabled and nothing changes |
| HysteriaRuns.ReloadAll | engine/sing-box/pokrov_hysteria_reload.go:81-159 | Over any run of reloads with any outcomes the recorded options are those of the last one that completed, with the same inbounds, reloadable flag, routing switch, other options and fixed first rule throughout; from an agreeing runtime, every user whose account is the same in all configurations may log in in every state and is served from the same rules and outbounds |
| HysteriaRuns.ServedDecides | engine/sing-box/pokrov_hysteria_reload.go:190-209 | A served user gets on every flow the decision of the first configuration |
| HysteriaFailures.FailedSwapMisleadsNextReload | engine/sing-box/pokrov_hysteria_reload.go:144-147 | Two reloads in a row, the first with a swap that reports an error: some state of the trace lets the fenced-off user log in while a flow that the recorded options reject falls through |
| HysteriaFailures.StrayOutboundSurvives | engine/sing-box/pokrov_hysteria_reload.go:132-158 | Two reloads in a row, the first failing after it created an outbound: turning back succeeds and leaves the outbound listed, so the runtime is not the recorded one |
| HysteriaReload.MissingOutboundBlocksReload | engine/sing-box/pokrov_hysteria_reload.go:149-155 | A reload that must remove an outbound which an earlier failure already removed can never complete |
| HysteriaReload.Server.CreateChanged | engine/sing-box/pokrov_hysteria_reload.go:132-143 | Creation stops at the first outbound that fails or is substituted, never touches an outbound that both configurations hold, and ends with the merged table |
| HysteriaReload.Server.RemoveAbsent | engine/sing-box/pokrov_hysteria_reload.go:149-155 | Removal succeeds exactly when every outdated outbound that is not wanted is still listed and closes, and leaves the specified table |
| HysteriaReload.KeepUsers | engine/sing-box/pokrov_hysteria_reload.go:121-128 | Kept are exactly the previous users, in order, that the next configuration holds unchanged with an equal policy |
| HysteriaFailures.MisprojectionBreaksReload | engine/sing-box/pokrov_hysteria_reload.go:190-209 | For every rejecting rule that is misread for a user there is an admissible reload that keeps the user and changes the decision on every flow |
| HysteriaPolicy.ProjectionIsExact | engine/sing-box/pokrov_hysteria_reload.go:190-202 | The policy reads a rule for a user and a flow as the router does if and only if the rule is not misprojected |
| HysteriaPolicy.ComparisonIsSoundIff | engine/sing-box/pokrov_hysteria_reload.go:190-209 | Equal policies mean equal decisions for a deciding rule if and only if it is not misprojected |
| HysteriaPolicy.PolicyDecides | engine/sing-box/pokrov_hysteria_reload.go:190-202 | A user's policy decides every flow as the full rule list does |
| HysteriaPolicy.UserPolicy | engine/sing-box/pokrov_hysteria_reload.go:190-209 | The loops collect the user's rules without user lists, and the outbounds those route to, in order |
| HysteriaPolicy.Validate | engine/sing-box/pokrov_hysteria_reload.go:19-77 | Validation accepts exactly the valid options |
| LegacyDnsOutbound.MigrationPreservesRouting | v2/config/legacy_dns_outbound.go:83-105 | For every flow the new rules hijack DNS where the old first match routed to a removed outbound, and choose the same everywhere else |
| LegacyDnsOutbound.FirstMatch | engine/sing-box/route/route.go:640-742 | The router's loop makes the choice that the migration theorems are about |
| LegacyDnsOutbound.MigrationKeepsDefault | v2/config/legacy_dns_outbound.go:74-82 | The outbound that undecided flows take is unchanged, tag and entry |
| LegacyDnsOutbound.MigrationKeepsTags | v2/config/legacy_dns_outbound.go:50-58 | A tag names a remaining outbound exactly when it named it before and it is no DNS outbound; nothing is renumbered |
| LegacyDnsOutbound.MigrationLeavesNoReference | v2/config/legacy_dns_outbound.go:106-114 | No checked key at any depth of a scanned section still names a removed tag |
| LegacyDnsOutbound.ReferencesExactly | v2/config/legacy_dns_outbound.go:117-147 | The tree search answers yes if and only if some path leads to an object that names a removed tag under a checked key |
| LegacyDnsOutbound.NothingNamesARemovedTag | v2/config/legacy_dns_outbound.go:106-147 | In seven sections, at any depth, no outbound, detour, download_detour or default key and no member of an outbounds list of the migrated configuration names a removed DNS outbound |
| LegacyDnsOutbound.Configuration.MigrateOutbounds | v2/config/legacy_dns_outbound.go:9-115 | The migration accepts exactly the admitted configurations and rewrites the root in place as specified |
| LegacyDnsOutbound.ScanOutbounds | v2/config/legacy_dns_outbound.go:14-46 | The scan accepts exactly readable outbounds with bare and distinctly named DNS entries, and collects their tags and the others in order |
| LegacyDnsOutbound.RewriteRules | v2/config/legacy_dns_outbound.go:83-101 | Exactly the rules that target a removed tag are rewritten; another action on one of them refuses the configuration |
| LegacyDns.NormalizeIdempotent | v2/config/legacy_dns.go:34-129 | What normalisation accepts it makes clean: no metadata, no DNS outbound, only typed servers; and normalising the result gives the result |
| LegacyDns.CleanIsFixed | v2/config/legacy_dns.go:34-129 | A clean configuration is accepted and returned as it is |
| LegacyDns.ServersKeepTheirWay | v2/config/legacy_dns.go:65-122 | A migrated server sends through its detour, or else where undecided flows go, and directly exactly if that is an option-free direct outbound; typed servers are untouched |
| LegacyDns.NormalServerIsTyped | v2/config/legacy_dns.go:131-178 | A migrated server is typed and sends through its detour or the default, never through an option-free direct outbound; a typed server is returned as it is |
| LegacyDns.MigratedServerKeepsOptions | v2/config/legacy_dns.go:149-177 | A migrated server has the type of its address and the tag, resolver with strategy, and fallback delay of the legacy one, each present exactly if set |
| LegacyDnsLaws.ServersBecome | v2/config/legacy_dns.go:65-178 | Every server stays at its place; a typed one is unchanged, a legacy one keeps tag, resolver with strategy and fallback delay under their new keys, has type and fields of its address, and dials through its detour, or else where undecided flows go, unless that is an option-free direct outbound |
| LegacyDnsLaws.ServerFitsIff | v2/config/legacy_dns.go:93-178 | A server is accepted if and only if it is typed, or has only known keys of the right kind, an address with a supported transport and no white space, no client subnet, no query strategy, a readable delay, and an address strategy only beside a resolver |
| LegacyDnsLaws.OverridesAreRefused | v2/config/legacy_dns.go:109-113 | A document in which a legacy server sets a query strategy or a client subnet is refused |
| LegacyDnsLaws.NormalizeKeepsTheRest | v2/config/legacy_dns.go:34-129 | Besides the metadata only outbounds, routing and DNS can change, and of DNS only the servers |
| LegacyDns.NormalizeLegacyDns | v2/config/legacy_dns.go:34-129 | The procedure with its loops and changed flag computes the specified result, refusals included |
| LinuxDaemon.PromotedAtMostOnce | v2/hcore/linux_daemon_linux.go:179-204 | In every interleaving the promotion limit is stored at most once, and never after the watchdog ended the run |
| LinuxDaemon.SurvivalIsJustified | v2/hcore/linux_connect_deadline_linux.go:49-78 | A run that survives a watchdog check is inside its connect deadline or before a limit promoted earlier, always less than an hour past the connect deadline, and never after a check that ended it |
| LinuxDaemon.RevokedAfterPromoted | v2/hcore/linux_daemon_linux.go:205-218 | A lease_revoked reply is always preceded by a promoted reply |
| LinuxDaemon.StartedAfterCheck | v2/hcore/linux_daemon_linux.go:152-165 | A bound run is reported started only after a check that was inside its connect deadline |
| LinuxDaemon.StartedCanBeLate | v2/hcore/linux_daemon_linux.go:152-165 | For every deadline and every clock inside it there is a run in which that check passes and the reply is sent only when the deadline is over |
| LinuxDaemon.PromotedAfterStarted | v2/hcore/linux_daemon_linux.go:163-204 | The promotion limit is stored only after a started reply that was sent inside the connect deadline, so a late start is never promoted |
| LinuxDaemon.RunKeeps | v2/hcore/linux_daemon_linux.go:115-224 | Every reachable state keeps mutual exclusion, the limits and the record of what was announced, and every log is lawful |
| DaemonObject.UncancelledIsWatched | v2/hcore/linux_connect_deadline_linux.go:49-78 | In every reachable state a bound run that is not cancelled has a watchdog that has not ended |
| DaemonObject.RoundPasses | v2/hcore/linux_connect_deadline_linux.go:49-78 | A watchdog round that can read the clock and finds the run inside its deadline, or before its promotion limit once there is one, changes nothing |
| DaemonObject.RoundEnds | v2/hcore/linux_connect_deadline_linux.go:49-78 | Every other round cancels the run, records which limit had passed, frees the mutex and ends the watchdog |
| DaemonObject.PromotionReaches | v2/hcore/linux_daemon_linux.go:179-204 | Every bound, uncancelled run inside its deadline that was not promoted before can be promoted to any limit that the lease check gives, is told so, and changes in nothing else |
| DaemonObject.RevocationReaches | v2/hcore/linux_daemon_linux.go:205-218 | Every promoted and uncancelled run can be answered lease_revoked, and changes in nothing else |
| DaemonObject.CheckDeadline | v2/hcore/linux_connect_deadline_linux.go:23-28 | A deadline is valid exactly if it begins at zero or later, ends after it begins, within a day and below 2^53 |
| DaemonObject.IsCurrent | v2/hcore/linux_connect_deadline_linux.go:30-45 | The deadline is current exactly if boot and clock can be read, the boot is the deadline's, and the clock in milliseconds lies between its ends |
| DaemonObject.Daemon.Start | v2/hcore/linux_daemon_linux.go:117-141 | The section that reads the start command takes the start step: an identity or deadline that does not hold ends the run |
| DaemonObject.Daemon.CoreStarted | v2/hcore/linux_daemon_linux.go:145-163 | The section after the core started takes its step, with the deadline checked once more for a bound start |
| DaemonObject.Daemon.Promote | v2/hcore/linux_daemon_linux.go:179-183 | The admission of a promotion takes its step, refusing an unbound, promoted, late, foreign or cancelled run |
| DaemonObject.Daemon.CheckAgain | v2/hcore/linux_daemon_linux.go:193-197 | Under the mutex the deadline and the context are checked again, and a failure ends the run with the mutex free |
| DaemonObject.Daemon.Revoke | v2/hcore/linux_daemon_linux.go:205-209 | The admission of a revocation takes its step, refusing an unbound, unpromoted, foreign or cancelled run |
| DaemonObject.Daemon.Check | v2/hcore/linux_connect_deadline_linux.go:54-70 | The check of a watchdog round takes its step: against the deadline while nothing is promoted, and against the limit afterwards |
| LinuxLease.LeaseDeadline | v2/hcore/linux_ats_lease_linux.go:22-89 | A limit is given exactly for a lease that is open now and gated by the configuration, and satisfies the bound that the daemon's steps rely on: ahead of the boot clock by at most an hour |
| LinuxLease.CountRows | v2/hcore/linux_ats_lease_linux.go:57-79 | The counting loop accepts exactly when one row is the gate for this lease, one is its upstream, and no other row claims either tag |
| Emitter.NumbersIncrease | internal/observability/emitter.go:61-149 | Over every run, (generation, sequence) pairs strictly increase and the first-datagram event is numbered at most once per generation |
| Emitter.NumbersAreGapless | internal/observability/emitter.go:72-85 | Every generation is numbered 1, 2, 3 and so on without gaps, and the published sequence is the number of its events |
| Emitter.RepeatedExactly | internal/observability/emitter.go:77-131 | The flag that turns a first-datagram event away is set exactly when the current generation has numbered one |
| Emitter.CountersBalance | internal/observability/emitter.go:149-194 | At every moment numbered = enqueued + dropped + under way, and sent = delivered + panicked + discarded + queued + being delivered; the queue is bounded and delivery takes a prefix of what was sent |
| Emitter.CapturedOwnsItsEvents | internal/observability/emitter.go:97-124 | A captured emitter numbers an event only while its run, attempt and generation are current |
| EmitterObject.EventEmitter.Reconfigure | internal/observability/emitter.go:61-85 | Run, attempt and generation are taken over exactly if well formed and not of an earlier generation; a later one restarts the numbering |
| EmitterObject.EventEmitter.Number | internal/observability/emitter.go:110-149 | Validating and numbering under the lock takes the numbering step, refusing foreign owners and repeated first datagrams |
| EmitterObject.EventEmitter.Offer | internal/observability/emitter.go:151-158 | The bounded enqueue takes its step and says whether the queue had room |
| EmitterObject.EventEmitter.CountCall | internal/observability/emitter.go:184-192 | The outcome of a delivery is counted once, as delivered or as a panic |
| SavedBinary.RoundTrip | engine/sing-box/adapter/experimental.go:74-157 | Decoding an encoding gives back content, etag, hash and time to the second and consumes exactly its bytes, for both versions |
| SavedBinary.DecodeExtends | engine/sing-box/adapter/experimental.go:103-157 | Bytes after a file change nothing and are not consumed; no input is read past its end |
| SavedBinary.TruncationIsRejected | engine/sing-box/adapter/experimental.go:103-157 | No proper prefix of an encoding decodes |
| SavedBinary.File.Marshal | engine/sing-box/adapter/experimental.go:74-101 | The buffer built up step by step is the encoding |
| SavedBinary.File.Unmarshal | engine/sing-box/adapter/experimental.go:103-157 | The reader accepts exactly what decodes and assigns the decoded fields; version 1 leaves the hash alone |
| SavedBinary.Reader.ReadUvarint | engine/sing-box/adapter/experimental.go:110-116 | The byte loop reads exactly the base-128 number, refusing more than 64 bits |
| ChainConversion.TagsAreDistinct | ray2sing/ray2sing/convert.go:158-182 | All emitted outbounds and endpoints have different tags, whatever the links call themselves |
| ChainConversion.DetoursDescend | ray2sing/ray2sing/convert.go:142-186 | Every detour is empty, and then nothing to the right converts, or names the nearest converted element to the right on the same line, which has the next smaller number |
| ChainConversion.Generate | ray2sing/ray2sing/convert.go:130-198 | The nested loops emit the specified outbounds and endpoints in order, and fail exactly when nothing converts |

## Left out

- The digest of a snapshot is taken to be injective: a snapshot is named by its exported contents.
- The encoded length of a journal document and the success of its temporary file and rename are inputs of each write.
- Restrictions are applied by the live worker and `finish` is given a generation that `begin` returned; the callers are not modelled.
- An accepted renewal is taken to have been verified to follow the current lease; the renewal request, response and signature are not modelled.
- Times are whole seconds in the journal and enrolment and milliseconds in the daemon; time-stamp parsing is a parameter.
- JSON text, comments and case-insensitive key matching: documents are decoded trees with exact keys.
- Catalog signatures, URL parsing, the field codecs of DNS servers and the per-protocol checks of outbounds are parameters of the models that use them.
- Logical routing rules with nested rules are matched as plain rules by an arbitrary predicate in the DNS migration, and are refused by the Hysteria options.
- The router and the outbound manager of the Hysteria server are reduced to the outcomes of preparing, replacing, creating and removing; references to retired rules held by open flows and the default outbound are not modelled.
- DpiMatching.Match: one gate stands for the lifetime of a catalog window and its selection in a lease group, though selection does not close an inverted rule; address criteria deferred by a DNS pre-match are not modelled.
- DpiMatching.FirstMatch: errors while sniffing or resolving a flow are not modelled; which actions end matching is a parameter.
- HysteriaPolicy.PolicyDecides: excludes rules that the account policy misreads, because the claim is false for them; the exact condition is proved beside it.
- HysteriaSafety.FencedIsSafe: excludes rules that the account policy misreads, because the claim is false for them; HysteriaSafety.ReloadIsSafeIff is the exact condition with any rules.
- HysteriaSafety.ReadyReloadIsSafe: excludes rules that the account policy misreads, as HysteriaSafety.FencedIsSafe does.
- HysteriaSafety.FailureKeepsItsUsers: excludes rules that the account policy misreads, as HysteriaSafety.FencedIsSafe does.
- HysteriaSafety.KeptPasses: excludes rules that the account policy misreads; the condition it establishes can be compared for any rules.
- HysteriaSafety.RunningPolicyIsAlike: excludes rules that the account policy misreads; HysteriaCompare.AlikeIff holds for any rules.
- Criteria of Hysteria rules are independent: a router may let any of them hold on a flow whether or not others do.
- Options left in a rule that becomes a hijack-dns rule are kept, as the code does; whether the strict decoder accepts them is not modelled.
- The claims about the Linux daemon and the emitter are about interleavings of steps over values; the sections of their classes are proved to take those steps one at a time, and which goroutine runs when is arbitrary. Starting and stopping the core, the shape filter of the command reader and the health probes are inputs or left out.
- Counters and sequence numbers of the emitter are unbounded; wrap-around after 2^63 events is not modelled.
- Error texts: refusals are told apart only where the code's callers can.
- The default configuration builder, the link parsers of ray2sing, generated code, bindings, logging and network probes would only add straight-line members.
