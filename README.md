# A verified model of the GPU-fleet autoscaler and its load balancer

The repository runs language-model inference on rented GPU instances from a cloud marketplace.
An autoscaler reads the provider's instance listing every few seconds and sorts each record into a
bucket: running ("hot"), loading, cold or bad. It then starts, stops, creates or destroys instances
so that the share of busy hot instances stays between two targets, and it stops instances when the
hourly cost goes over a budget. A load balancer keeps a priority queue of the ready instances, keyed
by how much work each has queued. It hands out one address and one access token per request and
reports the hot and busy counts back to the autoscaler. Small Go helpers in the Terraform provider
build the `vastai` command line and cut the contract number out of its output.

The model is in Dafny, one module per source file:

| module | file | models |
|---|---|---|
| `Wrappers` | `wrappers.dfy` | `Option` |
| `Collections` | `collections.dfy` | filter, count, reverse, duplicate-freedom, Go's `strings.Index` and Python's `in` on strings |
| `RatioManager` | `ratio_manager.dfy` | `update_rolling_average` |
| `Fleet` | `fleet.dfy` | what both autoscaler versions share: the instance record, the status tests, the descending sort, cost sums and the cost safety loop |
| `Autoscaler` | `autoscaler.dfy` | the current `autoscaler-py/autoscaler.py` |
| `EarlyAutoscaler` | `early_autoscaler.dfy` | the earlier `Terraform_provider/autoscaler-py/autoscaler.py` |
| `Tokens` | `instance_client.dfy` | `InstanceClient` and its token queue |
| `Dispatch` | `loadbalancer.dfy` | `LoadBalancer`: the ready queue, the duration decay and the dispatch |
| `Cli` | `cli.dfy` | `cli`'s argument vector and contract extraction, `substr`, `prependstring` |

Each object whose methods update its fields is a `class`. This covers both `InstanceSet`s,
`LoadBalancer` and `InstanceClient`. Every method is proved against specification functions on
values, and the properties of those functions are proved as lemmas.

Everything the autoscaler learns from outside is a parameter:
- the provider listing (`Option<seq<Instance>>`, `None` for a failed call);
- the offer list;
- the readiness probe over ssh (`Instance -> bool`);
- the answers of the start/stop/create/destroy calls (`Id -> bool`);
- the token batches an instance serves.

Floating-point values are `real`. Python's `int()` on a float is `Fleet.TruncToInt` (truncation
toward zero).

In the current version, `update_instance_info` rewrites seven attributes together: the ready, hot,
loading and cold lists, the bad ids, the cost ledger and the hourly cost. The model holds them as
one record field, `inv: Inventory`, of `Autoscaler.InstanceSet`. Every other method that writes one
of them states the whole record afterwards, as `old(inv)` with the changed attributes replaced.

## Model

| member | source | states |
|---|---|---|
| `Collections.IndexOf` | cli.go:34 | the result is the first position where the key occurs, or -1 exactly when it occurs nowhere |
| `RatioManager.RollingAverage` | autoscaler-py/ratio_manager.py:1-4 | the average lies between the old value and the observation; its distance from the observation is `weight` times the old gap; equal inputs and weight 1 leave the old value |
| `RatioManager.ConvexCombination` | autoscaler-py/ratio_manager.py:3 | `weight*prev + (1-weight)*new` is the observation moved toward the old value by `weight` of the gap, so it is bounded by the two |
| `RatioManager.SteadyStateIsFixed` | autoscaler-py/ratio_manager.py:1-4 | observing the current average any number of times leaves it unchanged |
| `RatioManager.RepeatedStaysBetween` | autoscaler-py/ratio_manager.py:1-4 | any number of observations of the same value keeps the average between its start and that value |
| `Fleet.TruncToInt` | autoscaler-py/autoscaler.py:281 | Python's `int()` on a float: the floor for non-negative values, never negative for them, and within one below its argument |
| `Fleet.SelectCounts` | autoscaler-py/autoscaler.py:179-189 | a record lands in its own bucket as often as it is listed and in no other bucket |
| `Fleet.SelectLengths` | autoscaler-py/autoscaler.py:179-189 | the five buckets (bad, running, loading, cold, unrecognised) together are as long as the listing: no record is lost or doubled |
| `Fleet.InsertSorted` | autoscaler-py/autoscaler.py:191-192 | inserting one record into a list sorted by decreasing key keeps it sorted and adds exactly that record |
| `Fleet.SortDescCorrect` | autoscaler-py/autoscaler.py:191-192 | `sort(key=..., reverse=True)` yields a list ordered by decreasing key that is a permutation of its input |
| `Fleet.SortDescStable` | autoscaler-py/autoscaler.py:191-192 | the sort is stable, as Python's is: the records sharing any one key come out in their listing order |
| `Fleet.InsertStable` | autoscaler-py/autoscaler.py:191-192 | inserting a record puts it first among the records of its key and leaves the order of every key's records alone |
| `Fleet.StopsFrom` | autoscaler-py/autoscaler.py:153-160 | resumed after `k` stops, the safety loop stops between `k` and all of the hot instances |
| `Fleet.SafetyHaltsAtUnique` | autoscaler-py/autoscaler.py:153-160 | the loop's halting point is unique: any number of stops meeting the halting condition is the one `SafetyStops` computes |
| `Fleet.CostSafetyLoop` | autoscaler-py/autoscaler.py:153-160 | the loop stops exactly the first `k` hot instances: every earlier point was over the limit, and it halts at the first point at or under it or when the list runs out; the new cost is the old cost minus their base rates |
| `Fleet.SafetyScenarioStopsOne` | autoscaler-py/autoscaler.py:153-160 | with the current version's budget of 10 per hour and eleven hot instances at 1 per hour each, exactly one instance is stopped |
| `Fleet.OffsetNonZero` | autoscaler-py/autoscaler.py:291-292 | the `+ 0.1` offset keeps every ratio's denominator away from zero for any integer count |
| `Autoscaler.Classify` | autoscaler-py/autoscaler.py:179-189 | a record is bad exactly when it is offline or its status message holds the daemon error; it is running exactly when it is running without that error; it is unrecognised exactly when no test matches |
| `Autoscaler.ActOnInstances` | autoscaler-py/autoscaler.py:377-396 | at most `min(n, 20)` successes; the attempted ids are a prefix of the list; nothing is tried when the count is non-positive or larger than the list; otherwise at least the count is tried, and the loop ends with the list used up, the count reached, or too few ids left |
| `Autoscaler.TryAll` | autoscaler-py/autoscaler.py:391-394 | one chunk lowers the number still to do by the number of ids the action accepted |
| `Autoscaler.ScalingPlan` | autoscaler-py/autoscaler.py:291-331 | a stop or start batch is decided exactly when the hot-busy ratio is under 0.6 or at least 0.9: a stop under 0.6 and a start at 0.9 or over; a create or destroy batch exactly when the hot ratio is over 0.3 or the smoothed one is under 0.3: a create over 0.3, otherwise a destroy; each batch has the source's count formula and targets: hot ids reversed, cold ids, the offers, cold ids reversed |
| `Autoscaler.StopCountBounds` | autoscaler-py/autoscaler.py:303 | under the lower target the stop count is between 0 and the hot count, and at least 1 when there is a hot instance |
| `Autoscaler.StartCountBounds` | autoscaler-py/autoscaler.py:312 | at or over the upper target the start count is non-negative, and at least 1 when nothing is hot |
| `Autoscaler.CreateCountBounds` | autoscaler-py/autoscaler.py:320 | over the hot-ratio target the create count is non-negative, and at least 1 on an empty fleet |
| `Autoscaler.DestroyCountBounds` | autoscaler-py/autoscaler.py:327 | under the target the destroy count is between 0 and the total |
| `Autoscaler.StartScenario` | autoscaler-py/autoscaler.py:310-313 | ten hot instances with nine busy give a hot-busy ratio of 10/10.1, which is over 0.9, so exactly one cold instance is started |
| `Autoscaler.NextAvgBusy` | autoscaler-py/autoscaler.py:278-282 | the smoothed busy count jumps up to a larger observation, and otherwise stays between the observation and the old value |
| `Autoscaler.MapSumUpdate` | autoscaler-py/autoscaler.py:139-145 | overwriting one ledger entry changes the ledger's sum by the new cost minus the old one, or by the new cost for a new key |
| `Autoscaler.LedgerEntries` | autoscaler-py/autoscaler.py:134-146 | the ledger keeps every old key and gains the hot ids; entries of ids not hot are untouched; with unique hot ids each holds that instance's current cost |
| `Autoscaler.LedgerKeys` | autoscaler-py/autoscaler.py:144 | the ledger's keys are the old keys plus the hot ids |
| `Autoscaler.LedgerUntouched` | autoscaler-py/autoscaler.py:134-146 | an entry whose id is not hot is left as it was |
| `Autoscaler.LedgerCosts` | autoscaler-py/autoscaler.py:136-144 | with unique hot ids, each hot id's entry is its hourly rate times its up time plus its network charges |
| `Autoscaler.ProbeReady` | autoscaler-py/autoscaler.py:249-255 | the ready list is the running records whose probe succeeds, in order |
| `Autoscaler.RecordCosts` | autoscaler-py/autoscaler.py:132-148 | the hourly cost is the sum of the hot rates; the ledger is the old one with every hot cost written in; the amount added to the total is exactly the growth of the ledger's sum |
| `Autoscaler.Bucketize` | autoscaler-py/autoscaler.py:175-189 | one pass files each record under its bucket in listing order, and collects the bad ids |
| `Autoscaler.SortListing` | autoscaler-py/autoscaler.py:175-192 | running and cold records are their buckets sorted by decreasing tokens/s; loading records keep listing order |
| `Autoscaler.ReadListing` | autoscaler-py/autoscaler.py:170-203 | the new attributes are the classified and sorted buckets, the old bad ids plus the new ones, the probed ready list (the old one when nothing runs), the updated ledger, and the safety-checked hourly cost; the running total and the ledger's sum change by the same amount |
| `Autoscaler.InstanceSet.constructor` | autoscaler-py/autoscaler.py:66-88 | the autoscaler starts from zero counts and an empty inventory; a failed first listing leaves it empty, and a listing gives every attribute `ReadListing` specifies from the empty inventory (ready list, buckets, bad ids, ledger, safety-checked hourly cost, and the safety stops); the smoothed hot count is seeded with the number of running, loading and cold records |
| `Autoscaler.InstanceSet.Report` | autoscaler-py/autoscaler_server.py:38-39 | the report overwrites the hot and busy counts with the load balancer's figures |
| `Autoscaler.InstanceSet.UpdateInstanceInfo` | autoscaler-py/autoscaler.py:170-203 | a failed listing changes nothing; a listing gives the attributes `ReadListing` specifies; the total cost stays the sum of the ledger |
| `Autoscaler.InstanceSet.ApplyListing` | autoscaler-py/autoscaler.py:175-203 | the attributes after a fetched listing are the ones `ReadListing` specifies, and the total stays the sum of the ledger |
| `Autoscaler.InstanceSet.UpdateReadyInstances` | autoscaler-py/autoscaler.py:243-255 | the ready list becomes the running records whose probe succeeds; with nothing running it is left alone; nothing else changes |
| `Autoscaler.InstanceSet.UpdateCosts` | autoscaler-py/autoscaler.py:128-151 | the ledger gains each hot instance's current cost, the hourly cost is the sum of hot rates, the total stays the sum of the ledger, and nothing else changes |
| `Autoscaler.InstanceSet.CostSafetyCheck` | autoscaler-py/autoscaler.py:153-160 | the hot instances are stopped in order exactly as long as the cost is over 10 per hour; only the hourly cost changes |
| `Autoscaler.InstanceSet.ManageInstances` | autoscaler-py/autoscaler.py:270-333 | the bad ids are cleared after a capped destroy batch over a prefix of them that is at least `min(n, 20)` long when there are `n > 0`, and that ends with the list used up, 20 successes, or too few ids left for the rest; the smoothed counts take their next values; the decided batches are those of `ScalingPlan` on the smoothed busy count, the hot count and the total; no listed attribute changes except the bad ids |
| `Autoscaler.InstanceSet.DestroyAllInstances` | autoscaler-py/autoscaler.py:439-441 | one capped batch over the hot, cold and loading ids, in that order, that tries at least `min(n, 20)` of the `n` ids and ends with the list used up, 20 successes, or too few ids left for the rest |
| `Autoscaler.InstanceSet.StopAllInstances` | autoscaler-py/autoscaler.py:443-445 | one capped batch over the hot and loading ids, in that order, that tries at least `min(n, 20)` of the `n` ids and ends with the list used up, 20 successes, or too few ids left for the rest |
| `Autoscaler.RunBatch` | autoscaler-py/autoscaler.py:306-331 | the thread started for a decided batch tries a prefix of its candidates and succeeds at most `min(count, 20)` times; it tries nothing when that cap is not positive or exceeds the candidates, and otherwise at least the cap, ending with the candidates used up, the cap reached, or too few candidates left for the rest |
| `EarlyAutoscaler.Classify` | Terraform_provider/autoscaler-py/autoscaler.py:156-166 | a running record is always running; a record is bad exactly when it is offline; unrecognised exactly when no status test matches |
| `EarlyAutoscaler.ClassifyVersions` | Terraform_provider/autoscaler-py/autoscaler.py:156-166 | the two versions bucket a record differently exactly when it carries the daemon error without being offline |
| `EarlyAutoscaler.Bucketize` | Terraform_provider/autoscaler-py/autoscaler.py:156-166 | one pass files each record under its earlier-version bucket in listing order, and collects the offline ids |
| `EarlyAutoscaler.SortListing` | Terraform_provider/autoscaler-py/autoscaler.py:152-169 | running and cold records are their buckets sorted by decreasing performance per dollar; loading records keep listing order |
| `EarlyAutoscaler.SplitMembers` | Terraform_provider/autoscaler-py/autoscaler.py:196-202 | the kept records are the running records already ready; the probed ones are the running records not ready |
| `EarlyAutoscaler.ReadyRetention` | Terraform_provider/autoscaler-py/autoscaler.py:196-207 | the retention rule as written: a record is ready afterwards exactly when it is running and either equals a stored ready record or its probe succeeds |
| `EarlyAutoscaler.RetentionNeverFires` | Terraform_provider/autoscaler-py/autoscaler.py:196-207 | on a fresh listing (no record carries "tokens/s") against a measured ready list, nothing is retained: the ready list is the running records whose probe succeeds, in order |
| `EarlyAutoscaler.FreshRunning` | Terraform_provider/autoscaler-py/autoscaler.py:156-169 | the sorted running bucket of a fresh listing carries no "tokens/s" either |
| `EarlyAutoscaler.ProbeUnready` | Terraform_provider/autoscaler-py/autoscaler.py:194-209 | the new ready list is the records equal to a stored ready record, then the probed records whose probe succeeded, each in running order |
| `EarlyAutoscaler.Measured` | Terraform_provider/autoscaler-py/autoscaler.py:80-96 | the measurement writes "tokens/s" into the record: the rate read from the log, or 1.0 when there is none; the id and every other field are unchanged |
| `EarlyAutoscaler.MeasureAll` | Terraform_provider/autoscaler-py/autoscaler.py:211-218 | after the measurement pass every ready record carries "tokens/s", the ids and their order are kept, and each record differs from its unmeasured self only in that key |
| `EarlyAutoscaler.MeasureReady` | Terraform_provider/autoscaler-py/autoscaler.py:211-218 | the loop measures each ready record once, giving `MeasureAll` |
| `EarlyAutoscaler.NoneReadyYet` | Terraform_provider/autoscaler-py/autoscaler.py:196-207 | with nothing ready yet, every running record is probed, so the ready list is the running records whose probe succeeds |
| `EarlyAutoscaler.RecomputeCosts` | Terraform_provider/autoscaler-py/autoscaler.py:115-125 | the hourly cost is the sum of hot rates and the total cost is the hot instances' costs so far plus their network charges |
| `EarlyAutoscaler.FirstWithId` | Terraform_provider/autoscaler-py/autoscaler.py:102-103 | the index found holds the id and no earlier record does; it is the length when none does |
| `EarlyAutoscaler.RemoveFirstFacts` | Terraform_provider/autoscaler-py/autoscaler.py:102-106 | a record is removed exactly when some cold record carries the id; removal shortens the list by one and takes out nothing that was not there |
| `EarlyAutoscaler.FirstWithIdPresent` | Terraform_provider/autoscaler-py/autoscaler.py:102-103 | the search finds a record exactly when the id is among the cold ids |
| `EarlyAutoscaler.RemoveFirstDrawn` | Terraform_provider/autoscaler-py/autoscaler.py:105 | the list after `remove` is drawn from the list before |
| `EarlyAutoscaler.RemoveUnique` | Terraform_provider/autoscaler-py/autoscaler.py:105 | with unique cold ids, removing the first record with an id removes the id entirely and keeps the ids unique |
| `EarlyAutoscaler.RemoveFirstMatch` | Terraform_provider/autoscaler-py/autoscaler.py:102-106 | the scan reports a match exactly when the id is a cold id, and removes the first record carrying it |
| `EarlyAutoscaler.DemoteConserves` | Terraform_provider/autoscaler-py/autoscaler.py:99-109 | demotion only moves records: each removed cold record becomes exactly one bad id, every bad id was started and cold, and the records left are drawn from the old ones |
| `EarlyAutoscaler.DemoteClearsStarted` | Terraform_provider/autoscaler-py/autoscaler.py:99-109 | with unique cold ids, no record left cold carries a started id |
| `EarlyAutoscaler.DemoteStarted` | Terraform_provider/autoscaler-py/autoscaler.py:101-106 | the nested loops give the cold records and the found ids that `Demote` specifies |
| `EarlyAutoscaler.WithBusy` | Terraform_provider/autoscaler-py/autoscaler.py:225-227 | after a report the busy list holds the reported id and exactly the ids it held before plus that one |
| `EarlyAutoscaler.BusyReports` | Terraform_provider/autoscaler-py/autoscaler.py:223-228 | reports keep the busy list duplicate-free, reporting the same id twice equals reporting it once, and the list grows by one only for a new id |
| `EarlyAutoscaler.StartStop` | Terraform_provider/autoscaler-py/autoscaler.py:250-268 | the starts are a prefix of the cold ids taken while the busy ratio after each start stays over 0.9; the stops are the hot ids from the end, taken while the ratio stays under 0.6 and never more than the hot count; at most one of the two happens; the hot count moves by one per action |
| `EarlyAutoscaler.SmallRatioNeedsHot` | Terraform_provider/autoscaler-py/autoscaler.py:263-267 | a busy ratio under 0.6 implies at least one hot instance, so a stop never drives the hot count negative |
| `EarlyAutoscaler.CreateLoop` | Terraform_provider/autoscaler-py/autoscaler.py:273-279 | the creates are a prefix of the offers, never the last offer, taken while the hot ratio stays over 0.3 |
| `EarlyAutoscaler.DestroyLoop` | Terraform_provider/autoscaler-py/autoscaler.py:282-288 | the destroys are the cold ids from the end, taken while the hot ratio stays under 0.3 |
| `EarlyAutoscaler.CreateDestroy` | Terraform_provider/autoscaler-py/autoscaler.py:271-288 | creation happens only over the target and destruction only under it; a missing offer list on the create branch is the `len(None)` crash, and only then |
| `EarlyAutoscaler.ReadListing` | Terraform_provider/autoscaler-py/autoscaler.py:147-179 | the new lists and costs are those of `AfterListing`: the sorted buckets, the old bad ids plus the offline ids, the measured ready list, the total recomputed from the running records and the hourly cost after the safety check against 3 per hour, which stops exactly the instances `SafetyHaltsAt` describes; on a fresh listing against a measured ready list the ready list is the measured running records whose probe succeeds |
| `EarlyAutoscaler.InstanceSet.constructor` | Terraform_provider/autoscaler-py/autoscaler.py:41-58 | the autoscaler starts with nothing busy, started or hot; a failed first listing leaves every list empty and both costs 0; a listing gives every list and both costs as `AfterListing` from the empty state, every running record being probed and the ready ones measured |
| `EarlyAutoscaler.InstanceSet.UpdateInstanceInfo` | Terraform_provider/autoscaler-py/autoscaler.py:147-179 | a failed listing changes nothing; a listing gives the lists and costs of `AfterListing` and the safety stops; the stored ready records stay measured, so on a fresh listing every running record is probed again |
| `EarlyAutoscaler.InstanceSet.ApplyListing` | Terraform_provider/autoscaler-py/autoscaler.py:152-179 | after a fetched listing the lists and costs are those of `AfterListing`, the stops are the safety loop's, and on a fresh listing the ready list is the measured running records whose probe succeeds |
| `EarlyAutoscaler.InstanceSet.UpdateReadyInstances` | Terraform_provider/autoscaler-py/autoscaler.py:192-220 | the ready list becomes `ReadyAfter`: records equal to a stored ready record are kept, the others probed, and all then measured; unmeasured running records are therefore all probed; nothing else changes |
| `EarlyAutoscaler.InstanceSet.TickDuration` | Terraform_provider/autoscaler-py/autoscaler.py:99-109 | each started id still among the cold records removes that record and is appended to the bad ids; the started list is emptied |
| `EarlyAutoscaler.InstanceSet.ReportBusy` | Terraform_provider/autoscaler-py/autoscaler.py:223-228 | the busy list becomes `WithBusy` of the old one |
| `EarlyAutoscaler.InstanceSet.UpdateCosts` | Terraform_provider/autoscaler-py/autoscaler.py:111-127 | the hourly and total costs are recomputed from the hot records alone |
| `EarlyAutoscaler.InstanceSet.CostSafetyCheck` | Terraform_provider/autoscaler-py/autoscaler.py:129-136 | the hot instances are stopped in order exactly as long as the hourly cost is over 3 |
| `EarlyAutoscaler.InstanceSet.ManageInstances` | Terraform_provider/autoscaler-py/autoscaler.py:231-290 | every bad id is destroyed and cleared; the start/stop and create/destroy runs are those `StartStop` and `CreateDestroy` specify on the busy count, the hot count and the total; started ids are remembered; at most one of create and destroy happens |
| `EarlyAutoscaler.InstanceSet.DestroyAllInstances` | Terraform_provider/autoscaler-py/autoscaler.py:356-358 | one destroy per hot, cold and loading record: exactly their ids, hot first, then cold, then loading |
| `EarlyAutoscaler.InstanceSet.StopAllInstances` | Terraform_provider/autoscaler-py/autoscaler.py:360-362 | one stop per hot and loading record: exactly their ids, hot first, then loading |
| `Tokens.InstanceClient.constructor` | autoscaler-py/instance_client.py:5-10 | a new client keeps its address and key and holds the first fetched batch |
| `Tokens.InstanceClient.MonitorTokenQueue` | autoscaler-py/instance_client.py:12-16 | below the mark of 10 the fetched tokens are queued after the old ones in fetched order; a failed fetch there is reported and changes nothing |
| `Tokens.InstanceClient.Take` | autoscaler-py/loadbalancer.py:116 | the oldest token is taken and the rest keep their order; an empty queue yields nothing |
| `Tokens.RefillKeepsOrder` | autoscaler-py/instance_client.py:12-16 | a refill never drops or reorders a queued token, and a queue at the mark is left alone |
| `Dispatch.DropNewlines` | autoscaler-py/loadbalancer.py:107 | the result holds exactly the characters of the input other than newlines |
| `Dispatch.DropNewlinesKeepsOrder` | autoscaler-py/loadbalancer.py:107 | `replace('\n', '')` keeps the other characters in order and each as often as in the input, and leaves a string without newlines unchanged |
| `Dispatch.DropNewlinesAppend` | autoscaler-py/loadbalancer.py:107 | removing newlines from a concatenation removes them from each part |
| `Dispatch.AddressParts` | autoscaler-py/loadbalancer.py:105-108 | the address is the cleaned ip, a colon, and the cleaned port |
| `Dispatch.MinIndex` | autoscaler-py/loadbalancer.py:113 | the entry taken precedes every entry of the queue in the (duration, id) order |
| `Dispatch.RequeueKeepsIds` | autoscaler-py/loadbalancer.py:113-120 | popping an entry and pushing one back for the same instance keeps the queue's size and the ids it holds, each as often |
| `Dispatch.BuildQueueFacts` | autoscaler-py/loadbalancer.py:42-50 | the rebuilt queue holds exactly the ready ids, each keyed by its queued work |
| `Dispatch.WithDefaultsFacts` | autoscaler-py/loadbalancer.py:49 | reading the `defaultdict` adds exactly the missing ready ids, at 0, and changes no value read |
| `Dispatch.CountKnownBounds` | autoscaler-py/loadbalancer.py:41-45 | on the first tick no instance counts as ready; when all were ready before, all count |
| `Dispatch.NewIdsMembers` | autoscaler-py/loadbalancer.py:44-47 | the ids given fresh clients are exactly the ready ids not ready on the previous tick |
| `Dispatch.BindSetupArgs` | autoscaler-py/autoscaler_client.py:7 | Python's binding of positional arguments to `setup_autoscaler(self, autoscaler_args)`: it succeeds exactly on one argument, which becomes `autoscaler_args` |
| `Dispatch.SetupAsWrittenRaises` | autoscaler-py/loadbalancer.py:28 | the constructor's call with no argument does not bind: it raises before the first queue is built |
| `Dispatch.SetupBinds` | autoscaler-py/loadbalancer.py:28 | the corrected call passes the autoscaler's arguments, which bind to `autoscaler_args` |
| `Dispatch.BindClientArgs` | autoscaler-py/instance_client.py:5 | Python's binding of positional arguments to `__init__(self, addr, mtoken)`: it succeeds exactly on two arguments, which become `addr` and `mtoken` |
| `Dispatch.AdmissionAsWrittenRaises` | autoscaler-py/loadbalancer.py:47 | the call as written passes the id, the address and the key, which does not bind: it raises for every new ready record |
| `Dispatch.AdmissionBinds` | autoscaler-py/loadbalancer.py:47 | the corrected call passes the address and the key, which bind to `addr` and `mtoken` |
| `Dispatch.AdmitAll` | autoscaler-py/loadbalancer.py:42-47 | every new ready id gets a fresh client holding its first batch, with the address and the key of the id's last record (`ClientsMatch`); every other client is kept |
| `Dispatch.ReadQueue` | autoscaler-py/loadbalancer.py:39-50 | the loop builds the queue, the ready ids, the count of ids ready before and the defaulted duration map |
| `Dispatch.Decay` | autoscaler-py/loadbalancer.py:72 | one tick takes 5 seconds off a duration, never below 0, and never raises a non-negative one |
| `Dispatch.DecayTimesClosed` | autoscaler-py/loadbalancer.py:70-74 | after `n` idle ticks a duration has lost `5n`, down to 0 and no further |
| `Dispatch.DecayReachesZero` | autoscaler-py/loadbalancer.py:70-74 | queued work drains to 0 after enough idle ticks |
| `Dispatch.DecayAllBounds` | autoscaler-py/loadbalancer.py:70-74 | the decay touches only the listed ids, keeps every duration non-negative and no larger than before, and the total is non-negative |
| `Dispatch.DecayAllOnce` | autoscaler-py/loadbalancer.py:70-74 | with distinct ids each listed duration decays exactly once |
| `Dispatch.NumBusyAsWrittenIsZero` | autoscaler-py/loadbalancer.py:68-79 | as written, the busy count reported is always 0 |
| `Dispatch.NumBusyCounterexample` | autoscaler-py/loadbalancer.py:68-79 | one instance ready on two consecutive updates with 10 s queued before the tick: ready count 1, decayed average 5, 2 busy as intended, 0 as written |
| `Dispatch.NumBusyIntended` | autoscaler-py/loadbalancer.py:76-79 | the intended busy count is 0 with no work, the whole ready count at full load, and monotone in the queued work |
| `Dispatch.LoadBalancer.constructor` | autoscaler-py/loadbalancer.py:16-29 | the first queue is built from an empty duration map; every ready instance gets a client with the address and the key of its last record, and none counts as ready yet |
| `Dispatch.LoadBalancer.UpdateReadyQueue` | autoscaler-py/loadbalancer.py:33-56 | a failed fetch of the ready list (None) crashes the loop before anything is written, and only that case crashes; otherwise the state is the rebuild `RebuildReadyQueue` specifies, new clients' addresses and keys included; every queued id has a client |
| `Dispatch.LoadBalancer.RebuildReadyQueue` | autoscaler-py/loadbalancer.py:35-56 | the queue and the ready ids are rebuilt from the ready list; the ready count counts the ids ready before; new ids get fresh clients with the address and the key of their last record, and old clients are kept; every queued id has a client |
| `Dispatch.LoadBalancer.TickDuration` | autoscaler-py/loadbalancer.py:64-82 | every previously ready duration decays once per listing, and the report carries the ready count and the corrected busy count `NumBusy` of the decayed average (see Findings: as written the source reports 0) |
| `Dispatch.LoadBalancer.GetNextAddr` | autoscaler-py/loadbalancer.py:110-122 | the least (duration, id) entry is popped; its instance gives up its oldest token; its duration grows by `num_tokens / 35` and it is queued again with that key; nothing else changes; an empty queue yields no address |
| `Cli.Split` | cli.go:12 | the pieces are at least one and none holds the separator |
| `Cli.JoinSplit` | cli.go:12 | joining the pieces of a split gives back the string |
| `Cli.SplitJoin` | cli.go:12 | splitting a join of separator-free pieces gives back the pieces |
| `Cli.CommandVector` | cli.go:12-16 | the vector is the program, the command, then the space-free pieces whose join is the argument string |
| `Cli.CommandVectorOfWords` | cli.go:12-16 | arguments given as space-free words reach the program as exactly those words |
| `Cli.Substr` | cli.go:48-60 | a start past the end gives ""; otherwise the result is the runes from `start`, `min(length, rest)` of them; a negative start or length inside the string is the slice panic, and only those |
| `Cli.SubstrOfSplice` | cli.go:48-60 | a piece placed after a prefix is cut out by its position and length |
| `Cli.SubstrAtEnd` | cli.go:55-59 | asking for more runes than remain yields the rest of the string |
| `Cli.ContractNumber` | cli.go:34-36 | the number is the up-to-seven runes starting 16 past the key's first occurrence, cut short by the end of the output, and "" when that start is at or past the end |
| `Cli.ContractAfterKey` | cli.go:34-36 | when the key's first occurrence is followed by two runes and a seven-rune number, that number is extracted |
| `Cli.ContractWithoutKey` | cli.go:34-36 | without the key the number is read from rune 15 whatever is there, and an output of 15 runes or fewer gives "" |
| `Cli.Prepend` | cli.go:42-47 | appending, shifting up by one and storing in front yields `y` followed by `x` |

## Left out

- Process and network calls are parameters: `vastai` listings, offer searches, start/stop/create/destroy calls, the ssh probes and log greps, the `/tokens` HTTP call, the `/ready` request of `get_ready_instances` (an `Option`, `None` for a failed request), and running the command in `cli`.
- In the current version, `update_tokens_per_second` and its parsing of the instance log are left out. The tokens/s of a record is a field of the listing there.
- `check_server_error` and `find_error_instances` are left out (the call is commented out in the current version). So is `get_curr_instances`' JSON decoding.
- `create_instance`'s reading of `new_contract` is left out: its success is the oracle's answer.
- `get_asks`, `create_cold_set`, `create_instances` and `deconstruct` are left out. These only run other calls or threads.
- The background loops (`update_and_manage_background`, `tick_background`) and `manage_join` are left out.
- Threads, thread pools and locks are not modelled; every operation runs to completion alone.
- In the current version, the batches decided by `manage_instances` run on their own threads. The model returns them, and `Autoscaler.RunBatch` runs one.
- `monitor_instance_clients` is left out: it runs `MonitorTokenQueue` on every client of the map at once, and that concurrency is not modelled.
- Floating point is modelled as exact reals: there is no rounding.
- The weight `0.5 ** (m * t)` of `update_rolling_average` is a parameter in (0, 1]. The power is not computed.
- `IGNORE_INSTANCE_IDS` holds a string while the listing's ids are integers, so it never matches. The action oracles subsume it.
- The earlier version's `update_tokens_per_second` is modelled by what it writes (`EarlyAutoscaler.Measured`); the rate it parses from the log over ssh is the parameter `measure`. That version sorts by performance per dollar and never reads the rate back.
- `Autoscaler.InstanceSet.ManageInstances`: it states that the tried bad ids are a prefix of the old bad ids with at most 20 successes, its lower bound and how the loop ends. It does not state which prefix, because that depends on the oracle's answers chunk by chunk (`Autoscaler.ActOnInstances`).
- `Autoscaler.ActOnInstances`: it states the prefix, the success count, its bounds and the three ways the loop can end, but not where each chunk starts.
- `Tokens.InstanceClient.constructor`: the first refill is taken to succeed. A failed first fetch makes the source iterate over `None`, and that failure is not modelled.
- Dispatch.LoadBalancer.constructor: it takes the first ready-list fetch to succeed. A failed first fetch makes the source's constructor raise in `update_ready_queue`; a constructor cannot report that, so the crash is modelled only in `UpdateReadyQueue`. The `setup_autoscaler` request itself is a call to the server and is left out; its arity error is a Findings row.
- `get_next_addr` on an empty queue returns `token`, which it never assigned, so the return raises `UnboundLocalError` (autoscaler-py/loadbalancer.py:122). The model yields `Unavailable`.
- `token_queue.get()` on an empty queue blocks until a refill arrives. The model yields `Blocked`, with the entry left out of the queue, as the source leaves it while blocked.
- `Dispatch.LoadBalancer.TickDuration`: the queued entries keep their old keys until the next rebuild, as in the source.
- Dispatch.LoadBalancer.TickDuration: it reports the corrected busy count `NumBusy` of the Findings row, not the 0 the source reports (`NumBusyAsWritten`).
- The earlier version never updates `num_hot`, which stays 0. The model keeps this: `ManageInstances` uses the 0.
- The earlier version compares ready records by dict equality (`in`). The model compares whole records, including the "tokens/s" key the measurement adds (`EarlyAutoscaler.Measured`), so a fresh listing never matches (`EarlyAutoscaler.RetentionNeverFires`). The "ready" key written by `check_server_ready` is not kept; it does not change that outcome, because the measured key alone already tells the records apart.
- EarlyAutoscaler.InstanceSet.UpdateReadyInstances: in the source the probed and measured dicts are the very objects of the hot list, so the hot records of the ready ones gain "tokens/s" too. The model measures only the ready list's copies and leaves `hotInstances` as listed. The source calls this method only right after a fresh listing, where both give the same ready list.
- `cli` prints the arguments and the contract number. It also calls `err.Error()`, which panics when the command succeeds and `err` is nil. Neither the output nor the exit error is modelled.
- `Cli.ContractNumber`: `strings.Index` gives a byte offset while `substr` counts runes. The model counts runes in both, which agree on ASCII output only.
- `Cli.Prepend`: Go's `append` may write into the caller's backing array. The model returns a fresh sequence, so aliasing is not modelled.

## Findings

| source | as written | input that shows it | evidently intended | confidence | as-written member | corrected member |
|---|---|---|---|---|---|---|
| autoscaler-py/loadbalancer.py:68-79 | `tick_duration` sets a local `num_ready = 0` and computes `num_busy = int(busy_level * num_ready)` from it, so the busy count reported is always 0 | an instance ready on two consecutive updates with 10 s queued before the tick: decayed average 5, busy level 2.0, intended 2, reported 0 | scale by the ready count `self.num_ready`, reported as `num_hot` on the same line, giving 2 | not executed | `Dispatch.NumBusyAsWritten` | `Dispatch.NumBusy` |
| autoscaler-py/loadbalancer.py:47 | `update_ready_queue` creates each new client as `InstanceClient(id, addr, mtoken)`, but `__init__` at instance_client.py:5 takes only `addr` and `mtoken`, so the call raises a `TypeError` | any ready record whose id was not ready on the previous tick, such as the first one ever listed | pass the address and the key, `InstanceClient(addr, mtoken)` | not executed | `Dispatch.AdmissionArgsAsWritten` | `Dispatch.AdmitAll` |
| autoscaler-py/loadbalancer.py:28 | `LoadBalancer.__init__` calls `self.client.setup_autoscaler()` with no argument, but `setup_autoscaler` at autoscaler_client.py:7 takes `autoscaler_args`, so every construction raises a `TypeError` before the first queue is built | any construction of a load balancer | pass the autoscaler's arguments, `setup_autoscaler(autoscaler_args)`, after which the first queue is built | not executed | `Dispatch.SetupArgsAsWritten` | `Dispatch.LoadBalancer.constructor` |
