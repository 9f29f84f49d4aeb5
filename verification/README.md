# loom-cloud: what its state machines keep

loom-cloud hosts one container per tenant site behind an edge router. This project models the parts of it that
hold state or do arithmetic over time, and proves what their documentation and tests promise, for all inputs,
all runs and all interleavings:

- **Rate limiting.** `TokenBucket` is the arithmetic of one bucket over its whole call history: the two
  remembered numbers equal a minimum over all windows, admissions in every window are bounded, greedy admission
  is optimal among all choices that respect the windows, denied calls leave no trace, and who waits long enough
  for a token gets it. `RateLimiter` is the
  limiter with its map of mutable buckets; `ClockRace` is about callers that read the clock before they queue for
  the lock, in any interleaving.
- **DNS.** `Zones` says what a reconciliation should make of a zone and how crashes, reruns and several fleets
  add up. `MemoryProvider`, `Cloudflare` (against `ZoneServer`, an abstract zone server whose requests may be
  lost or unanswered, and whose records others may remove) and `DnsManager` are the providers and the manager;
  the production provider agrees with the simple one over every sequence of operations. The stores log the
  requests they receive (`Requests`), so what a call sent, and that it fails only with a request it sent, is
  part of every contract. `TwoManagers` interleaves the writes of two managers.
- **Site lifecycle.** `Lifecycle` is the watcher as a state machine over rows, routes, containers and zone,
  with failures and operators; `TickRuns` has it get things done. `TwoWatchers` interleaves two ticks site by
  site, and `ManyWatchers` any number of watchers call by call. `Sites` and `Watcher` are the live objects, and
  every tick of theirs is a run of the state machine for the answers that its logged requests and commands got. `HostNames` ties host names to the
  certificate policy.
- **Billing.** `Calendar` and `Usage` bill usage month by month without gap or overlap; `Invoicing` and
  `Billing` are the invoicers and the reconciler; `BillingLaws` and `BillingCents` say what every run's calls
  and cents come to, whichever calls fail.

Outside calls that can fail do so by an unconstrained choice of the store or host, or by a parameter: an
answer, a refusal, or a request carried out whose answer is lost. Each is logged with its answer, and what a
method reports is tied to that log. Clock readings are parameters. Map iteration is in an arbitrary order.

Where the code and its documentation part, the model follows the code:

- `internal/dns/dns.go:112-115` says records at other IPs are left alone. Such a record is exactly when its name
  is not wanted (`Zones.ForeignRecordStaysIff`); a wanted name at another IP is taken over.
- `internal/watcher/watcher.go:56-59` calls running two watchers safe. Nothing keeps the steps of two watchers on
  one site apart, and every site that nobody is working on is safe in every run exactly when updates get
  through, provisioning and teardown of one site never overlap, and neither do two provisionings of it unless
  provisioner calls cannot fail (`ManyWatchers.SafeIffCareful`; an edge that cannot have records has nothing to
  lose). The runs that go wrong otherwise: `ManyWatchers.OverlapLosesTeardown`, in which every call succeeds,
  `ManyWatchers.OverlapLosesContainer` and `ManyWatchers.RefusalLosesStatus`. The in-process repository never
  refuses an update for a site it holds (`Watcher.Watcher.Save`).
- `internal/billing/billing.go:128-130` says the free plan is billed at starter rates past its included
  quantities. Its row in the price table is empty, so it is never billed (`BillingLaws.FreePlanIsFree`); that is
  what is documented exactly when no kind with a starter price is over what the plan includes
  (`BillingLaws.FreePlanAsDocumentedIff`), and `BillingLaws.FreeRunIsNotBilled` is an invoice for which it is not.
- `internal/billing/billing.go:207-212` speaks of tenants, but the loop goes by site while usage is read by
  tenant. A tenant with several sites is billed its whole usage once for each
  (`BillingLaws.BilledOncePerSite`).
- `internal/dns/cloudflare.go:101` says a 404 counts as success. Only a lookup that finds nothing does: a record
  that somebody else removes between the lookup and the DELETE makes the call fail
  (`Cloudflare.VanishedRecordIsAnError`). With every request answered, a deletion succeeds exactly when the
  record was not there at the lookup or was still there at the DELETE (`Cloudflare.DeletedUnlessVanished`).

## Model

| member | source | states |
|---|---|---|
| `TokenBucket.LevelIsWindowMinimum` | internal/edge/ratelimit.go:74-94 | For any admission choice, the bucket's tokens are the minimum over all window starts of burst plus earnings minus admissions, and `last` is the latest clock seen |
| `TokenBucket.ConformsIffNeverInDebt` | internal/edge/ratelimit.go:81-94 | A choice keeps every window within burst plus rate times seconds exactly when its bucket never goes below zero |
| `TokenBucket.ClosedForm` | internal/edge/ratelimit.go:74-94 | The limiter's own token count is that minimum over its own decisions |
| `TokenBucket.BucketInRange` | internal/edge/ratelimit.go:81-93 | Tokens stay within zero and the burst and `last` never moves back, in whatever order clocks arrive |
| `TokenBucket.WindowBound` | internal/edge/ratelimit.go:23-33 | Every window of the limiter's decisions is within its allowance |
| `TokenBucket.ReadyIsWindowMinimum` | internal/edge/ratelimit.go:81-90 | The tokens a call finds are the least any window ending with it may still spend, and some window attains it |
| `TokenBucket.AllowedIffWindowsPermit` | internal/edge/ratelimit.go:90-94 | A call is admitted exactly when every window ending with it can take one more |
| `TokenBucket.GreedyIsOptimal` | internal/edge/ratelimit.go:66-95 | On no prefix does a choice whose windows conform that far admit more |
| `TokenBucket.GreedyDominates` | internal/edge/ratelimit.go:66-95 | A rival's bucket is never ahead by more than its admissions are behind |
| `TokenBucket.DeniedCallsAreTransparent` | internal/edge/ratelimit.go:81-94 | Dropping any denied calls from a history leaves every other decision as it was |
| `TokenBucket.FirstBurstIsAdmitted` | internal/edge/ratelimit.go:23-33 | A new tenant's first calls are admitted as far as the burst goes, whenever they come |
| `TokenBucket.PatientCallIsAdmitted` | internal/edge/ratelimit.go:81-94 | After any history a call is admitted once rate times the seconds since the last one is at least a token |
| `RateLimiter.SlugsAreIsolated` | internal/edge/ratelimit.go:74-79 | After any mixed trace a slug's bucket is what its own calls alone make of a full one |
| `RateLimiter.DecidedByOwnHistory` | internal/edge/ratelimit.go:66-95 | A decision depends on the slug's own earlier clocks only, and is the one their windows dictate |
| `RateLimiter.AnswersToOwnReadings` | internal/edge/ratelimit.go:66-95 | The answers a slug's calls get in a mixed trace are the decisions on its own readings alone |
| `RateLimiter.BucketCell.Admit` | internal/edge/ratelimit.go:81-94 | The in-place update of a bucket object is the value-level call |
| `RateLimiter.TokenBucketLimiter.constructor` | internal/edge/ratelimit.go:50-56 | A new limiter has an empty trace |
| `RateLimiter.TokenBucketLimiter.BucketFor` | internal/edge/ratelimit.go:74-79 | The slug's bucket object is there afterwards, full if it is new; distinct slugs keep distinct objects |
| `RateLimiter.TokenBucketLimiter.Spend` | internal/edge/ratelimit.go:81-94 | Spending from the slug's object is the value-level call on its bucket and leaves every other slug's as it was |
| `RateLimiter.TokenBucketLimiter.Allow` | internal/edge/ratelimit.go:66-95 | The answer is the decision the whole trace dictates, and the trace grows by this call |
| `ClockRace.RunInLockOrder` | internal/edge/ratelimit.go:67-70 | In every interleaving a call enters no earlier than it read the clock, and entries are in lock order |
| `ClockRace.CallIsTimed` | internal/edge/ratelimit.go:67-70 | A call brings the time its thread read the clock, whatever happens before it enters |
| `ClockRace.TraceOfSlug` | internal/edge/ratelimit.go:67-74 | The limiter sees a slug's readings, not its entries, in the order of the entries |
| `ClockRace.WallClockBound` | internal/edge/ratelimit.go:66-95 | For every interleaving, of a slug's calls between two entries the limiter lets at most burst plus rate times the seconds since the first reading through |
| `Zones.TargetIsTheReconciledZone` | internal/dns/dns.go:105-115 | The target is the one zone with all wanted names at the edge IP, no others there, and the rest untouched |
| `Zones.ForeignRecordStaysIff` | internal/dns/dns.go:112-115 | A record that points elsewhere is left alone exactly when its name is not wanted |
| `Zones.RerunReachesTarget` | internal/dns/dns.go:138-163 | From any mix of old and target entries a rerun reaches the same target |
| `Zones.CrashesCompose` | internal/dns/dns.go:138-163 | A run that crashes after a run that crashed is still between the first zone and the target |
| `Zones.AnyNumberOfCrashes` | internal/dns/dns.go:138-163 | However many runs crash, the first to complete reaches the first one's target |
| `Zones.ReconciledIsStable` | internal/dns/dns.go:105-109 | A reconciled zone needs no writes and stays |
| `Zones.InSyncIffNothingToWrite` | internal/dns/dns.go:138-163 | Nothing changes exactly when there is nothing to write |
| `Zones.FleetsCommute` | internal/dns/dns.go:112-115 | Two fleets with different edge IPs and disjoint names reconcile in either order, after which neither has anything to do |
| `MemoryProvider.EncodeInjective` | internal/dns/dns.go:187 | Types without a bar make the stored key determine name and type |
| `MemoryProvider.EncodeCollides` | internal/dns/dns.go:187 | A bar in the type breaks that |
| `MemoryProvider.MemoryProvider.Upsert` | internal/dns/dns.go:197-209 | Always succeeds: the zone gains or replaces the entry; a known entry keeps its ID, a new one gets one nobody has |
| `MemoryProvider.MemoryProvider.Delete` | internal/dns/dns.go:212-217 | Always succeeds: the zone loses the entry, if any |
| `MemoryProvider.MemoryProvider.List` | internal/dns/dns.go:220-228 | Every entry exactly once |
| `Cloudflare.CloudflareProvider.Upsert` | internal/dns/cloudflare.go:60-99 | What it leaves, reports and sends, for every fate of its two requests; it fails only with one of them, an up-to-date record costs no write, and success names an ID in the zone |
| `Cloudflare.CloudflareProvider.Delete` | internal/dns/cloudflare.go:102-116 | What it leaves, reports and sends, for every fate of its two requests and whether or not the record vanishes between them; an absent one costs no write |
| `Cloudflare.UpsertDoes` | internal/dns/cloudflare.go:60-99 | Over all fates: success leaves the content and TTL asked for and nothing else changed, 1 where none is asked for, except that a record with the content already there then keeps its own; a write is sent exactly when the lookup found something else |
| `Cloudflare.DeleteDoes` | internal/dns/cloudflare.go:102-116 | Over all fates: success leaves the entry gone and nothing else changed; a write is sent exactly when the lookup found the record |
| `Cloudflare.DeletedUnlessVanished` | internal/dns/cloudflare.go:101-116 | With every request answered a deletion succeeds exactly when the record was absent at the lookup or still there at the DELETE |
| `Cloudflare.VanishedRecordIsAnError` | internal/dns/cloudflare.go:101-116 | The documented success on a 404 fails for a record removed after the lookup |
| `Cloudflare.AnsweredCallsStep` | internal/dns/cloudflare.go:60-116 | A call with all requests answered and nobody else at the record succeeds and is one provider step |
| `Cloudflare.CloudflareProvider.List` | internal/dns/cloudflare.go:120-144 | Terminates with every record exactly once, having sent one request more than there are full pages of a hundred; fails only with one of them |
| `Cloudflare.ProvidersAgree` | internal/dns/dns.go:36-53 | Over every sequence of operations both providers hold the same names, types and contents; the same TTLs too unless the automatic one is asked for |
| `Cloudflare.AutomaticTtlDiffers` | internal/dns/cloudflare.go:80-82 | The automatic TTL is where they part |
| `DnsManager.Manager.constructor` | internal/dns/dns.go:59-72 | A manager over a provider's zone |
| `DnsManager.Manager.EnsureSlug` | internal/dns/dns.go:78-92 | With a slug and a configuration it fails only with a request it sent; the slug's name points at the edge IP on success, written if at all with the manager's TTL, and on failure it does or nothing changed; without them no request is sent |
| `DnsManager.Manager.RemoveSlug` | internal/dns/dns.go:96-104 | The same for removing the name |
| `DnsManager.Manager.Reconcile` | internal/dns/dns.go:116-165 | It fails only with a request it sent. Success reaches the target, and the provider received the deletion of each surplus name and then the upsert of each missing one with the manager's TTL, each once and no other write; failure at any call leaves every entry old or target |
| `DnsManager.RepairsCount` | internal/dns/dns.go:138-163 | So a successful run takes as many writes as there are surplus and missing names |
| `DnsManager.Manager.OwnNames` | internal/dns/dns.go:129-137 | Exactly the names with an A record at the edge IP |
| `DnsManager.Manager.DeleteSurplus` | internal/dns/dns.go:139-147 | The provider received the deletion of each surplus name once, in any order, or a request failed and it stopped between |
| `DnsManager.Manager.UpsertMissing` | internal/dns/dns.go:149-163 | The provider received the upsert of each missing name once, in any order, or a request failed and it stopped between |
| `TwoManagers.ContestedIsLost` | internal/dns/dns.go:139-163 | A name one manager wants that still points at the other can be lost when their runs overlap |
| `TwoManagers.Uncontested` | internal/dns/dns.go:139-163 | Any other entry comes out right in every interleaving of two runs that listed the same zone |
| `TwoManagers.ListedTogetherSafeIff` | internal/dns/dns.go:116-165 | When both list at the start, every interleaving brings both fleets in order exactly when no name is contested |
| `TwoManagers.PlanShrinks` | internal/dns/dns.go:138-163 | Part of the way through its writes a manager that listed anew would plan just the rest of them, for the same target |
| `TwoManagers.InterleavedRunsAreSafeIff` | internal/dns/dns.go:116-165 | Wherever in the first manager's writes the second lists, every interleaving of the rest brings both fleets in order exactly when no name is contested that the first has still to write |
| `HostNames.HostRoundTrip` | internal/tls/tls.go:135-139 | The policy takes back out the slug the manager put into the host name |
| `HostNames.HostInjective` | internal/dns/dns.go:86 | Different slugs have different host names |
| `HostNames.PolicyAcceptsTenantHosts` | internal/tls/tls.go:134-152 | A host is accepted exactly when it is the host name of a single-label, allowed slug |
| `HostNames.PolicyOnTenantHost` | internal/tls/tls.go:134-152 | The verdict on a tenant's host name, and which refusal it is, in terms of the slug |
| `HostNames.PolicyOffTheDomain` | internal/tls/tls.go:135-138 | Refused as no subdomain are just the hosts that no slug has |
| `Lifecycle.ProvisionIsLocal` | internal/watcher/watcher.go:157-196 | Provisioning changes one site's status and what is out there under its slug, as a function of its view |
| `Lifecycle.DeprovisionIsLocal` | internal/watcher/watcher.go:198-224 | So does teardown |
| `Lifecycle.OthersUnaffected` | internal/watcher/watcher.go:157-224 | With unique slugs no other site sees it |
| `Lifecycle.StepKeepsInv` | internal/watcher/watcher.go:134-224 | Every watcher step and every operator step keeps the invariant |
| `Lifecycle.EveryRunIsSafe` | internal/watcher/watcher.go:134-224 | In every run, whatever fails: Running sites are routed, have a container and resolve to the edge; Stopped ones are not routed and have none |
| `TickRuns.TickIsRun` | internal/watcher/watcher.go:134-155 | From any world with unique slugs the events of a tick are a run of the machine that ends idle with every owned site at the outcome of its fates and nothing else changed |
| `TickRuns.InsertComesUp` | internal/watcher/watcher.go:99-110 | From any idle state of any run: a new site of the watcher's is Running, routed and resolving after the next tick in which nothing fails |
| `TickRuns.RetryRecovers` | internal/watcher/watcher.go:157-196 | So is a site that is retried, whatever happened to it before |
| `TickRuns.TeardownCompletes` | internal/watcher/watcher.go:198-224 | And one whose teardown is asked for is Stopped, with no route, container or record left |
| `Lifecycle.CertificatesFollowLifecycle` | apps/cloud/main.go:100 | In every run, DNS on or off, with the port map behind the policy, Running single-label hosts get certificates and Stopped ones do not |
| `Lifecycle.ReconcileRepairs` | internal/watcher/watcher.go:211-218 | In every run, whatever else is in the zone, the target for the sites that are not Stopped lacks the names that failed removals left and has the others |
| `Watcher.RepairDrift` | internal/dns/dns.go:116-165 | From every reachable state one reconciliation by the manager brings that about, unless a request it sent fails |
| `TwoWatchers.ReachedIsUnique` | internal/watcher/watcher.go:134-155 | Each claimed site at its outcome and the rest untouched settles the whole world |
| `TwoWatchers.RunKeepsInv` | internal/watcher/watcher.go:134-155 | Every interleaving of two watchers' steps keeps the claimed sites on the way to their outcomes |
| `TwoWatchers.BothCanFinish` | internal/watcher/watcher.go:134-155 | There are complete interleavings, and runs in which just one watcher acts |
| `TwoWatchers.InterleavingResult` | internal/watcher/watcher.go:80-97 | Both ticks done, every claimed site is at its outcome and nothing else has changed |
| `TwoWatchers.InterleavingsAgree` | internal/watcher/watcher.go:80-87 | Watchers of different regions, whatever fails, or any two when nothing fails: all complete interleavings end in the same world |
| `TwoWatchers.SecondWatcherIsHarmless` | internal/watcher/watcher.go:56-59 | When nothing fails a second watcher of the same scope changes nothing about where one tick ends |
| `TwoWatchers.StaleSecondWatcher` | internal/watcher/watcher.go:56-59 | An old listing, an operator and a refused update together leave a Stopped row whose slug is routed |
| `ManyWatchers.WholeStep` | internal/watcher/watcher.go:157-224 | With nothing in between, the calls of a step come to the whole step of the state machine |
| `ManyWatchers.SameOperators` | internal/watcher/watcher.go:264-271 | Operators do to the rows what they do in the one-watcher machine |
| `ManyWatchers.TeardownsOverlap` | internal/watcher/watcher.go:198-224 | Under every policy, the most careful one too, two teardowns of a site can overlap |
| `ManyWatchers.RecordsFail` | internal/watcher/watcher.go:166-173 | and the DNS half of a provisioning can fail |
| `ManyWatchers.StepKeepsInv` | internal/watcher/watcher.go:157-224 | Every operator event, every watcher beginning a step and every single call keeps what the steps under way rely on |
| `ManyWatchers.CarefulRunsAreSafe` | internal/watcher/watcher.go:56-59 | Any number of watchers, listings of any age, any DNS failures and operators: if updates get through, opposite steps of a site do not overlap, nor provisionings under failing provisioner calls, every quiet site is safe in every run |
| `ManyWatchers.OverlapLosesTeardown` | internal/watcher/watcher.go:157-224 | A provisioning overlapped by a teardown: every call and update succeeds and a Stopped site is routed |
| `ManyWatchers.OverlapLosesContainer` | internal/docker/provisioner.go:66-70 | Two provisionings overlap and one's container call fails: a Running site without a container |
| `ManyWatchers.RefusalLosesStatus` | internal/watcher/watcher.go:191-223 | An old listing and a refused update: a Stopped site is routed |
| `ManyWatchers.SafeIffCareful` | internal/watcher/watcher.go:56-59 | The exact condition for quiet sites to be safe in all runs of any number of watchers |
| `ManyWatchers.RefusedProvisionSafeIff` | internal/watcher/watcher.go:191-196 | With its update refused, provisioning a safe site is safe for all fates exactly when the site is not settled or cannot get past DNS |
| `ManyWatchers.RefusedTeardownSafeIff` | internal/watcher/watcher.go:219-223 | With its update refused, tearing a safe site down is safe for all fates exactly when it is not Running |
| `Sites.MemorySiteRepo.Insert` | internal/watcher/watcher.go:264-271 | Stores the object; a site without a status becomes Pending |
| `Sites.MemorySiteRepo.ByStatus` | internal/watcher/watcher.go:302-312 | The very objects with that status, each once |
| `Sites.MemorySiteRepo.Pending` | internal/watcher/watcher.go:274-276 | The Pending sites |
| `Sites.MemorySiteRepo.Deprovisioning` | internal/watcher/watcher.go:279-281 | The Deprovisioning sites |
| `Sites.MemorySiteRepo.Update` | internal/watcher/watcher.go:285-293 | Fails exactly for an unknown ID, and never inserts |
| `Sites.MemoryPortMap.Set` | internal/edge/router.go:58-66 | Port zero unregisters, any other registers |
| `Sites.MemoryPortMap.Lookup` | internal/edge/router.go:69-74 | The port, if the slug has one |
| `Sites.ContainerNameInjective` | internal/docker/provisioner.go:147-152 | Slugs do not share a container name |
| `Sites.DockerHost.Remove` | internal/docker/provisioner.go:121-130 | The answers a removal can get: removed, nothing there, or neither, whether or not there is a container |
| `Sites.HealthRunMeans` | internal/docker/provisioner.go:96-114 | A run of commands is a health check with that result exactly when waits and inspections take turns, every one but the last goes on, and success is a last inspection that found the container running |
| `Sites.ProvisionRunMeans` | internal/docker/provisioner.go:54-115 | Provisioning pulls, then removes, then starts, and succeeds exactly when its last command found the container running, which none before did |
| `Sites.HealthyUnlessTrouble` | internal/docker/provisioner.go:86-114 | The health check fails exactly when it is cancelled or runs out of time |
| `Sites.ProvisionedUnlessTrouble` | internal/docker/provisioner.go:54-115 | A provisioning none of whose commands fails and whose time does not run out succeeds |
| `Sites.TornDownUnlessTrouble` | internal/docker/provisioner.go:119-132 | A teardown fails exactly with its command |
| `Sites.DockerProvisioner.Provision` | internal/docker/provisioner.go:54-115 | Of the commands the host received, the last found the container running exactly on success, and none before; Running with a container, or Failed with a reason; no other container is touched |
| `Sites.DockerProvisioner.AwaitHealth` | internal/docker/provisioner.go:86-114 | Waits and checks in turn until a check finds the container running, or fails when time runs out |
| `Sites.DockerProvisioner.Deprovision` | internal/docker/provisioner.go:119-132 | The one command the host received settles it: Stopped without a container, or Failed with a reason; an absent container is fine |
| `Watcher.Watcher.EnsureRecord` | internal/watcher/watcher.go:166-173 | The DNS half of provisioning passes exactly when there is no DNS or the requests it sent were all done |
| `Watcher.Watcher.RemoveRecord` | internal/watcher/watcher.go:211-218 | The DNS half of teardown likewise; failing is not fatal |
| `Watcher.Watcher.Save` | internal/watcher/watcher.go:285-293 | Updating a site the repository holds always succeeds and changes nothing else |
| `Watcher.Watcher.Launch` | internal/watcher/watcher.go:175-193 | Container, then route to port 8080, then status, as one change of the world, as the commands it gave settle it |
| `Watcher.Watcher.Dismantle` | internal/watcher/watcher.go:201-209 | Route, then container, as one change of the world, as the command it gave settles it |
| `Watcher.Watcher.ProvisionOne` | internal/watcher/watcher.go:157-196 | On live objects, the state machine's provisioning step for the fates that the requests and commands of this very step settle; Failed sites say why |
| `Watcher.Watcher.DeprovisionOne` | internal/watcher/watcher.go:198-224 | On live objects, the state machine's teardown step for the fates that the requests and commands of this very step settle |
| `Watcher.Watcher.ClaimAll` | internal/watcher/watcher.go:139-144 | Exactly the owned sites of a listing are acted on, in order, and the logs grow by just their requests and commands |
| `Watcher.Watcher.Tick` | internal/watcher/watcher.go:134-155 | The world it leaves is that of the state machine's run over the sites it claimed, for the fates that the calls made for them settle; it makes no other calls |
| `Watcher.TickedIsRun` | internal/watcher/watcher.go:134-155 | The same of anything that brings the claimed sites to their outcomes |
| `Watcher.OwnedDistinct` | internal/watcher/watcher.go:92-97 | The owned sites of a listing are claimed once each |
| `Watcher.ReplayReaches` | internal/watcher/watcher.go:139-154 | Acting on distinct, untouched sites brings each to its outcome |
| `Watcher.TickReaches` | internal/watcher/watcher.go:134-155 | The second listing, taken when the first half is done, still names just the sites that were Deprovisioning from the start |
| `Watcher.PendingSettled` | internal/watcher/watcher.go:99-110 | An owned Pending site ends Running, routed and resolving, exactly when its requests were done and its own last command found its container running; else Failed, and without a command if its record failed |
| `Watcher.DoomedSettled` | internal/watcher/watcher.go:198-224 | An owned Deprovisioning site ends off the edge: Stopped, its record gone unless a request for it failed, or Failed exactly when its container command failed, and then no request was made |
| `Watcher.TickConverges` | internal/watcher/watcher.go:99-110 | If no request and no command of a tick fails, every owned Pending site that can be given a record is up and every owned Deprovisioning one is down; no tick touches another site |
| `Calendar.DaysToClosedForm` | internal/billing/billing.go:317 | Adding up month lengths gives the usual count of days, leap years included |
| `Calendar.UnixEpoch` | internal/billing/billing.go:317 | January 1970 begins 62135596800 seconds after the zero of the clock |
| `Calendar.MonthOf` | internal/billing/billing.go:317 | The month an instant is in starts no later and ends after it |
| `Calendar.MonthIsUnique` | internal/billing/billing.go:315-318 | Every instant is in exactly one month |
| `Calendar.JobBillsPreviousMonth` | internal/billing/billing.go:310-320 | At whatever instant of a month the job runs, its period is exactly the month before |
| `Calendar.BilledByNextMonthsRuns` | internal/billing/billing.go:302-320 | An instant is in a run's period exactly when the run is in the month after |
| `Usage.MemoryUsageStore.Record` | internal/billing/memory.go:21-29 | Appends the event, stamped if it has no time |
| `Usage.MemoryUsageStore.Range` | internal/billing/memory.go:32-49 | The tenant's events in the half-open period, in order |
| `Usage.BilledByShares` | internal/billing/billing.go:247-251 | Billed period by period or event by event, usage comes to the same for any list of periods |
| `Usage.UsedSplits` | internal/billing/memory.go:43-45 | Two periods that meet add up to the joined one |
| `Usage.ContiguousTile` | internal/billing/memory.go:32-49 | So does any run of periods |
| `Usage.BilledByRunsOfNextMonth` | internal/billing/billing.go:302-320 | An event is billed as often as the job runs in the month after it |
| `Usage.MonthlyJobsTile` | internal/billing/billing.go:302-320 | Runs in consecutive months bill exactly what was used from the month before the first up to the month of the last |
| `Invoicing.MemoryInvoicer.AddInvoiceItem` | internal/billing/memory.go:66-71 | The line joins the items and the log |
| `Invoicing.MemoryInvoicer.FinalizeInvoice` | internal/billing/memory.go:74-79 | The closing joins the finalized periods and the log |
| `Invoicing.StripeInvoicer.AddInvoiceItem` | internal/billing/stripe.go:71-100 | For a tenant on Stripe and a line of a cent or more, one line item to the customer that was looked up, unless rejected; otherwise no request; fails with the lookup or the request |
| `Invoicing.Stripe.PostedToCustomer` | internal/billing/stripe.go:71-100 | Everything sent goes to the customer its tenant is, and is a line of the log, its worth cut to whole cents |
| `Invoicing.StripeInvoicer.FinalizeInvoice` | internal/billing/stripe.go:109-141 | Creates an invoice for the customer that was looked up and finalizes it; fails with the lookup or either request, the second leaving a draft; tenants not on Stripe are skipped |
| `Invoicing.Stripe.InvoicedToCustomer` | internal/billing/stripe.go:109-141 | Every invoice is its tenant's customer's, for a period the log closes, and final where the closing succeeded |
| `Billing.MemorySiteRepo.Add` | internal/billing/memory.go:91-95 | Appends a site |
| `Billing.MemorySiteRepo.AllActive` | internal/billing/memory.go:98-104 | All sites, in order |
| `Billing.Aggregate` | internal/billing/billing.go:247-251 | The total of every kind that occurs, and of no other |
| `Billing.SomeOrder` | internal/billing/billing.go:256 | Map iteration: every kind once, in an arbitrary order |
| `Billing.Reconciler.BillKind` | internal/billing/billing.go:257-280 | One line exactly when the kind is over its included quantity and priced |
| `Billing.Reconciler.BillKinds` | internal/billing/billing.go:256-281 | Kind after kind until a line is refused |
| `Billing.Reconciler.ReconcileTenant` | internal/billing/billing.go:241-287 | The calls made are those the tenant's usage dictates for the order of kinds |
| `Billing.Reconciler.Reconcile` | internal/billing/billing.go:213-239 | The calls made are those of all sites in turn, whichever fail |
| `Billing.Reconciler.RunScheduled` | internal/billing/billing.go:306-321 | The monthly job bills the month before the one it runs in |
| `BillingLaws.EachLineOnce` | internal/billing/billing.go:256-281 | No line is asked for twice; each one due is asked for unless one was refused |
| `BillingLaws.ClosedUnlessRefused` | internal/billing/billing.go:241-287 | An invoice is closed exactly when usage could be read and no line that was due was refused |
| `BillingLaws.LinesBillTheUsage` | internal/billing/billing.go:256-281 | Every line is for the tenant's use of the kind in the period less what its plan includes, at its plan's price, and for more than nothing |
| `BillingLaws.ClosingFollowsEveryLine` | internal/billing/billing.go:256-286 | Closing is the last call, after one accepted line for exactly that for each kind used beyond what is included and priced, and none for any other |
| `BillingLaws.RunsInTurn` | internal/billing/billing.go:231-237 | Sites are gone through in order |
| `BillingLaws.ProjectRun` | internal/billing/billing.go:231-237 | A run's calls for a tenant are those for its sites alone |
| `BillingLaws.FailuresAreIsolated` | internal/billing/billing.go:207-237 | With one site a tenant, its calls are those of a run for it alone in which anything may differ for the others |
| `BillingLaws.BilledOncePerSite` | internal/billing/billing.go:231-242 | A kind is billed once for each of the tenant's sites on whose plan it is due |
| `BillingLaws.TwoSitesDoubleBill` | internal/billing/billing.go:231-242 | Two sites of a tenant: one unit used, two units billed |
| `BillingLaws.UnpricedPlanIsFree` | internal/billing/billing.go:263-269 | A plan without prices is never billed a line |
| `BillingLaws.OnlyClosedIff` | internal/billing/billing.go:256-286 | Of a readable tenant nothing but the closing is asked for exactly when no kind is due |
| `BillingLaws.FreePlanIsFree` | internal/billing/billing.go:125-131 | Under the default prices the free plan's invoice is closed without lines |
| `BillingLaws.FreePlanAsDocumentedIff` | internal/billing/billing.go:125-131 | That is the invoice at starter rates exactly when usage cannot be read or no kind with a starter price is over what the plan includes |
| `BillingLaws.FreeRunIsNotBilled` | internal/billing/billing.go:125-131 | One run past the included hundred: a line at starter rates as documented, none as billed |
| `BillingCents.SumAtMost` | internal/billing/billing.go:256 | Sums over kinds compare whatever order the kinds come in |
| `BillingCents.LineFallsShort` | internal/billing/stripe.go:80-84 | A line's cents are at most what the usage beyond the included quantity is worth, and less than one short |
| `BillingCents.LinesPosted` | internal/billing/stripe.go:71-100 | What is posted for a tenant is what its lines come to, or less when one is refused |
| `BillingCents.ChargedWhatItIsWorth` | internal/billing/billing.go:247-286 | A tenant is never charged more than its usage past the included quantities is worth, and on a closed invoice less than a cent short for each kind due |
| `BillingCents.ChargedToCustomer` | internal/billing/stripe.go:71-100 | What a customer is charged for a tenant comes from the calls for that tenant, and no other customer is charged for it |
| `BillingCents.RunChargesWhatItIsWorth` | internal/billing/billing.go:213-239 | The same over a whole run for a tenant's customer and any number of sites, whatever fails and for whomever; nobody else is charged |
| `BillingCents.BillGrows` | internal/billing/billing.go:247-286 | More usage of any kinds never lowers the bill, whatever the orders of the kinds |

## Left out

- Floating point: tokens, quantities, prices and seconds are exact reals; rounding, and the saturation of Go durations, are not considered.
- Integer overflow: the conversion to 64-bit cents is taken to be in range.
- A limiter used without its constructor (a nil map, or a rate or burst outside the documented ranges).
- Interleavings inside `Allow`: the mutex makes everything after the clock reading one step.
- In `Lifecycle` and `TwoWatchers` a step of a watcher is a whole site; `ManyWatchers` has the calls one by one. A watcher that crashes in the middle of a step is in neither.
- `ManyWatchers` takes the row to change only with the update. The in-process repository hands out its own objects, so there the Provisioning and Deprovisioning statuses, and the final one, show a little before it.
- Process restarts: the port map lives in memory and Running sites are not routed again after one.
- Teardown liveness when an operator changes a site that sits in a pending listing: the watcher's step overwrites the request, and only safety is claimed for such runs.
- That a slug routes to its own container: every container publishes the same host port and the watcher registers port 8080 for each; a port clash is an ordinary provisioning failure.
- Docker's output texts, images and environment; a container is present or absent. Health checks are counted, not timed.
- Watcher.Watcher.Tick: listings that fail appear in `Lifecycle` only, because the in-process repository never fails.
- MemoryProvider.MemoryProvider.Upsert: IDs are numbers, not the strings "mem-1", "mem-2" and so on.
- Cloudflare.CloudflareProvider.Upsert: others' writes to the record between its lookup and its PUT or POST are not modelled, nor are changes by others between pages of a listing.
- Cloudflare.CloudflareProvider.Delete: of what others may do between the lookup and the DELETE only the removal of the record is modelled.
- HTTP, JSON, authentication and error texts; the providers' and invoicers' constructors and nil checks.
- Regions in DNS and at the edge, the router's dispatch, autocert and the wiring in `main.go`, beyond the port map behind the certificate policy.
- Calendar.JobBillsPreviousMonth: the injected clock is taken to be in UTC, as the default one is.
- Usage recorded after its month was billed: the laws over several runs speak of one store content.
- Stripe's own collection of items into invoices, and retries: adding an item carries no idempotency key, so nothing is claimed about billing a failed period again.
- Line descriptions and metadata, and the SQL usage store.
