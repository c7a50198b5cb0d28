/** The current fleet autoscaler (autoscaler-py/autoscaler.py): classification of the provider's
    listing, the capped batching of provider actions, the scaling decision, the cost ledger and the
    cost safety check. Provider calls are oracles whose answers are parameters. */
module Autoscaler {
  import opened Wrappers
  import opened Collections
  import opened Fleet
  import opened RatioManager

  const MaxCostPerHour: real := 10.0
  const MaxNumActions: int := 20
  const ErrorResponse: string := "Error response from daemon"

  // The thresholds of SimpleStrategy.
  const TargetHotBusyRatioUpper: real := 0.9
  const TargetHotBusyRatioLower: real := 0.6
  const TargetHotRatio: real := 0.3

  predicate HasDaemonError(inst: Instance) {
    inst.statusMsg.Some? && Contains(inst.statusMsg.value, ErrorResponse)
  }

  /** The bucket `update_instance_info` puts a record in. The bad test comes first, so a record that
      is offline or carries the daemon error is never counted as running. */
  function Classify(inst: Instance): (b: Bucket)
    ensures b == Bad <==> IsOffline(inst) || HasDaemonError(inst)
    ensures b == Running <==> IsRunning(inst) && !HasDaemonError(inst)
    ensures b == Unrecognised <==>
              !IsOffline(inst) && !HasDaemonError(inst) && !IsRunning(inst) && !IsLoadingStatus(inst) && !IsColdStatus(inst)
  {
    if IsOffline(inst) || HasDaemonError(inst) then Bad
    else if IsRunning(inst) then Running
    else if IsLoadingStatus(inst) then Loading
    else if IsColdStatus(inst) then Cold
    else Unrecognised
  }

  // ---------------------------------------------------------------------------------------------
  // act_on_instances

  datatype Action = Start | Stop | Create | Destroy

  /** The ids of a candidate list; no list means no ids. */
  function ListedIds(instanceList: Option<seq<Id>>): seq<Id> {
    if instanceList.Some? then instanceList.value else []
  }

  /** `act_on_instances`: try `action` on the first `n = min(numInstances, 20)` ids; the ones that
      fail are replaced by the next ids of the list, chunk by chunk, while the number still to do is
      positive and no larger than what is left of the list. `attempted` is every id tried, in order;
      `succeeded` is how many of them the oracle accepted. */
  method ActOnInstances(action: Id -> bool, numInstances: int, instanceList: Option<seq<Id>>)
    returns (attempted: seq<Id>, succeeded: int)
    ensures attempted <= ListedIds(instanceList)
    ensures succeeded == CountTrue(attempted, action)
    ensures 0 <= succeeded <= Max(Min(numInstances, MaxNumActions), 0)
    ensures Min(numInstances, MaxNumActions) <= 0 || Min(numInstances, MaxNumActions) > |ListedIds(instanceList)| ==> attempted == []
    ensures 0 < Min(numInstances, MaxNumActions) <= |ListedIds(instanceList)| ==> |attempted| >= Min(numInstances, MaxNumActions)
    ensures Min(numInstances, MaxNumActions) > 0 ==>
            || attempted == ListedIds(instanceList)
            || succeeded == Min(numInstances, MaxNumActions)
            || Min(numInstances, MaxNumActions) - succeeded > |ListedIds(instanceList)| - |attempted|
  {
    var n := Min(numInstances, MaxNumActions);
    attempted, succeeded := [], 0;
    if instanceList.None? || |instanceList.value| == 0 {
      return;
    }
    ghost var ids := instanceList.value;
    var idList := instanceList.value;
    var numRemaining := n;
    while numRemaining > 0 && numRemaining <= |idList|
      invariant attempted <= ids && idList == ids[|attempted|..]
      invariant n > 0 ==> 0 <= numRemaining <= n && numRemaining == n - CountTrue(attempted, action)
      invariant n <= 0 ==> numRemaining == n && attempted == []
      invariant attempted == [] ==> numRemaining == n && idList == ids
      invariant attempted != [] ==> 0 < n <= |ids| && |attempted| >= n
      decreases |idList|
    {
      var currIds := idList[..numRemaining];
      assert ids[..|attempted| + numRemaining] == attempted + currIds;
      idList := idList[numRemaining..];
      var done := TryAll(action, currIds);
      numRemaining := numRemaining - done;
      CountTrueAppend(attempted, currIds, action);
      attempted := attempted + currIds;
    }
    succeeded := n - numRemaining;
  }

  /** One chunk of act_on_instances: the action is tried on every id of the chunk and each
      success lowers the number still to do by one. */
  method TryAll(action: Id -> bool, chunk: seq<Id>) returns (done: int)
    ensures done == CountTrue(chunk, action)
  {
    done := 0;
    for i := 0 to |chunk|
      invariant done == CountTrue(chunk[..i], action)
    {
      assert chunk[..i + 1][..i] == chunk[..i];
      if action(chunk[i]) {
        done := done + 1;
      }
    }
    assert chunk[..|chunk|] == chunk;
  }

  // ---------------------------------------------------------------------------------------------
  // The scaling decision of manage_instances

  /** How many hot instances to stop when the hot-busy ratio is under the lower target. */
  function StopCount(hotBusyRatio: real, numHot: int): int {
    numHot - TruncToInt((hotBusyRatio / TargetHotBusyRatioLower) * Max(numHot, 1) as real)
  }

  /** How many cold instances to start when the hot-busy ratio is at or over the upper target. */
  function StartCount(hotBusyRatio: real, numHot: int): int {
    TruncToInt((hotBusyRatio / TargetHotBusyRatioUpper) * Max(numHot, 1) as real) - numHot
  }

  /** How many offers to create when the hot ratio is over its target. */
  function CreateCount(hotRatio: real, numTot: int): int {
    TruncToInt((hotRatio / TargetHotRatio) * Max(numTot, 1) as real) - numTot
  }

  /** How many cold instances to destroy when the smoothed hot ratio is under its target. */
  function DestroyCount(hotRatioRolling: real, numTot: int): int {
    numTot - TruncToInt((hotRatioRolling / TargetHotRatio) * Max(numTot, 1) as real)
  }

  /** One call of act_on_instances: the action, the requested count and the candidate ids
      (None when the offer search gave nothing). */
  datatype Batch = Batch(action: Action, count: int, candidates: Option<seq<Id>>)

  /** The batches of one decision: at most one on the hot axis (stop or start) and at most one on
      the size axis (create or destroy). */
  datatype Plan = Plan(hotAxis: Option<Batch>, sizeAxis: Option<Batch>)

  function ScalingPlan(numHotBusy: int, numHot: int, numTot: int, numHotRolling: real,
                       hotIds: seq<Id>, coldIds: seq<Id>, asks: Option<seq<Id>>): (p: Plan)
    ensures var hotBusyRatio := OffsetRatio(numHotBusy as real, numHot);
            && (p.hotAxis.Some? <==> hotBusyRatio < TargetHotBusyRatioLower || hotBusyRatio >= TargetHotBusyRatioUpper)
            && (p.hotAxis.Some? ==> p.hotAxis.value.action == Stop || p.hotAxis.value.action == Start)
            && (hotBusyRatio < TargetHotBusyRatioLower ==> p.hotAxis.Some? && p.hotAxis.value.action == Stop)
            && (hotBusyRatio >= TargetHotBusyRatioUpper ==> p.hotAxis.Some? && p.hotAxis.value.action == Start)
            && (p.hotAxis.Some? && p.hotAxis.value.action == Stop ==>
                  p.hotAxis.value.candidates == Some(Reverse(hotIds)) && p.hotAxis.value.count == StopCount(hotBusyRatio, numHot))
            && (p.hotAxis.Some? && p.hotAxis.value.action == Start ==>
                  p.hotAxis.value.candidates == Some(coldIds) && p.hotAxis.value.count == StartCount(hotBusyRatio, numHot))
    ensures var hotRatio := OffsetRatio(numHot as real, numTot);
            var hotRatioRolling := OffsetRatio(numHotRolling, numTot);
            && (p.sizeAxis.Some? <==> hotRatio > TargetHotRatio || hotRatioRolling < TargetHotRatio)
            && (p.sizeAxis.Some? ==> p.sizeAxis.value.action == Create || p.sizeAxis.value.action == Destroy)
            && (hotRatio > TargetHotRatio ==> p.sizeAxis.Some? && p.sizeAxis.value.action == Create)
            && (hotRatio <= TargetHotRatio && hotRatioRolling < TargetHotRatio ==>
                  p.sizeAxis.Some? && p.sizeAxis.value.action == Destroy)
            && (p.sizeAxis.Some? && p.sizeAxis.value.action == Create ==>
                  p.sizeAxis.value.candidates == asks && p.sizeAxis.value.count == CreateCount(hotRatio, numTot))
            && (p.sizeAxis.Some? && p.sizeAxis.value.action == Destroy ==>
                  hotRatio <= TargetHotRatio &&
                  p.sizeAxis.value.candidates == Some(Reverse(coldIds)) && p.sizeAxis.value.count == DestroyCount(hotRatioRolling, numTot))
  {
    var hotBusyRatio := OffsetRatio(numHotBusy as real, numHot);
    var hotRatio := OffsetRatio(numHot as real, numTot);
    var hotRatioRolling := OffsetRatio(numHotRolling, numTot);
    var hotAxis :=
      if hotBusyRatio < TargetHotBusyRatioLower then
        Some(Batch(Stop, StopCount(hotBusyRatio, numHot), Some(Reverse(hotIds))))
      else if hotBusyRatio >= TargetHotBusyRatioUpper then
        Some(Batch(Start, StartCount(hotBusyRatio, numHot), Some(coldIds)))
      else None;
    var sizeAxis :=
      if hotRatio > TargetHotRatio then
        Some(Batch(Create, CreateCount(hotRatio, numTot), asks))
      else if hotRatioRolling < TargetHotRatio then
        Some(Batch(Destroy, DestroyCount(hotRatioRolling, numTot), Some(Reverse(coldIds))))
      else None;
    Plan(hotAxis, sizeAxis)
  }

  /** `floor(x)` for `0 <= x < bound` with an integer bound is at most `bound - 1`. */
  lemma FloorBelow(x: real, bound: int)
    requires 0.0 <= x < bound as real
    ensures 0 <= TruncToInt(x) <= bound - 1
  {
  }

  lemma ScaledBelow(ratio: real, m: int)
    requires 0.0 <= ratio < 1.0 && m >= 1
    ensures 0.0 <= ratio * m as real < m as real
  {
    assert m as real - ratio * m as real == (1.0 - ratio) * m as real;
  }

  lemma ScaledAtLeast(ratio: real, m: int)
    requires ratio >= 1.0 && m >= 1
    ensures ratio * m as real >= m as real
  {
    assert ratio * m as real - m as real == (ratio - 1.0) * m as real;
  }

  /** The counts of a decision are sensible for non-negative inputs: stopping never asks for more
      than the hot count and, with any hot instance, for at least one; starting and creating never
      ask for a negative number; destroying never asks for more than the total. */
  lemma StopCountBounds(hotBusyRatio: real, numHot: int)
    requires 0.0 <= hotBusyRatio < TargetHotBusyRatioLower && numHot >= 0
    ensures 0 <= StopCount(hotBusyRatio, numHot) <= numHot
    ensures numHot >= 1 ==> StopCount(hotBusyRatio, numHot) >= 1
  {
    var m := Max(numHot, 1);
    assert hotBusyRatio / TargetHotBusyRatioLower < 1.0;
    ScaledBelow(hotBusyRatio / TargetHotBusyRatioLower, m);
    FloorBelow((hotBusyRatio / TargetHotBusyRatioLower) * m as real, m);
  }

  lemma StartCountBounds(hotBusyRatio: real, numHot: int)
    requires hotBusyRatio >= TargetHotBusyRatioUpper && numHot >= 0
    ensures StartCount(hotBusyRatio, numHot) >= 0
    ensures numHot == 0 ==> StartCount(hotBusyRatio, numHot) >= 1
  {
    ScaledAtLeast(hotBusyRatio / TargetHotBusyRatioUpper, Max(numHot, 1));
  }

  lemma CreateCountBounds(hotRatio: real, numTot: int)
    requires hotRatio > TargetHotRatio && numTot >= 0
    ensures CreateCount(hotRatio, numTot) >= 0
    ensures numTot == 0 ==> CreateCount(hotRatio, numTot) >= 1
  {
    ScaledAtLeast(hotRatio / TargetHotRatio, Max(numTot, 1));
  }

  lemma DestroyCountBounds(hotRatioRolling: real, numTot: int)
    requires 0.0 <= hotRatioRolling < TargetHotRatio && numTot >= 0
    ensures 0 <= DestroyCount(hotRatioRolling, numTot) <= numTot
  {
    var m := Max(numTot, 1);
    assert hotRatioRolling / TargetHotRatio < 1.0;
    ScaledBelow(hotRatioRolling / TargetHotRatio, m);
    FloorBelow((hotRatioRolling / TargetHotRatio) * m as real, m);
  }

  /** Ten hot instances and nine busy ones: the hot-busy ratio 10/10.1 is over 0.9, so one more
      instance is started. */
  lemma StartScenario(hotIds: seq<Id>, coldIds: seq<Id>, numTot: int, numHotRolling: real, asks: Option<seq<Id>>)
    ensures var p := ScalingPlan(9, 10, numTot, numHotRolling, hotIds, coldIds, asks);
            p.hotAxis == Some(Batch(Start, 1, Some(coldIds)))
  {
    var r := OffsetRatio(9 as real, 10);
    assert r == 10.0 / 10.1;
    var x := (r / TargetHotBusyRatioUpper) * 10 as real;
    assert x == 100.0 / 9.09;
    assert 11.0 <= x < 12.0;
    assert TruncToInt(x) == 11;
  }

  /** The smoothed busy count: snap up to a larger observation, otherwise the truncated rolling
      average of the old value and the observation. */
  function NextAvgBusy(avgNumBusy: int, numBusy: int, weight: real): (r: int)
    requires IsDecayWeight(weight)
    ensures numBusy > avgNumBusy ==> r == numBusy
    ensures 0 <= numBusy <= avgNumBusy ==> numBusy <= r <= avgNumBusy
  {
    if numBusy > avgNumBusy then numBusy
    else TruncToInt(RollingAverage(avgNumBusy as real, numBusy as real, weight))
  }

  // ---------------------------------------------------------------------------------------------
  // The cost ledger of update_costs

  lemma SomeKey(m: map<Id, real>)
    requires m != map[]
    ensures exists k :: k in m
  {
    if forall k :: k !in m {
      assert false;
    }
  }

  /** The sum of the values of a map. */
  ghost function MapSum(m: map<Id, real>): real
    decreases |m|
  {
    if m == map[] then 0.0
    else
      SomeKey(m);
      var k :| k in m;
      assert |(m - {k}).Keys| == |m.Keys - {k}| == |m| - 1;
      m[k] + MapSum(m - {k})
  }

  lemma {:induction false} MapSumRemove(m: map<Id, real>, k: Id)
    requires k in m
    ensures MapSum(m) == m[k] + MapSum(m - {k})
    decreases |m|
  {
    var j :| j in m && MapSum(m) == m[j] + MapSum(m - {j});
    if j != k {
      assert |(m - {j}).Keys| == |m.Keys - {j}| == |m| - 1;
      assert |(m - {k}).Keys| == |m.Keys - {k}| == |m| - 1;
      MapSumRemove(m - {j}, k);
      MapSumRemove(m - {k}, j);
      assert (m - {j}) - {k} == (m - {k}) - {j};
    }
  }

  /** Overwriting one entry changes the sum by the difference. */
  lemma MapSumUpdate(m: map<Id, real>, k: Id, v: real)
    ensures MapSum(m[k := v]) == MapSum(m) - (if k in m then m[k] else 0.0) + v
  {
    MapSumRemove(m[k := v], k);
    assert m[k := v] - {k} == m - {k};
    if k in m {
      MapSumRemove(m, k);
    } else {
      assert m - {k} == m;
    }
  }

  /** What one hot instance is recorded as having cost. */
  function LedgerCost(inst: Instance): real {
    InstanceCost(inst) + (inst.inetUpCost + inst.inetDownCost)
  }

  /** The ledger after recording every instance of `hot` in order. */
  function Ledger(m: map<Id, real>, hot: seq<Instance>): map<Id, real> {
    if hot == [] then m
    else Ledger(m, hot[..|hot| - 1])[hot[|hot| - 1].id := LedgerCost(hot[|hot| - 1])]
  }

  /** The ledger keeps every old key, gains the hot ids, holds the current cost of each hot
      instance (when hot ids are unique) and leaves every other entry alone. */
  lemma LedgerEntries(m: map<Id, real>, hot: seq<Instance>)
    ensures Ledger(m, hot).Keys == m.Keys + set i | 0 <= i < |hot| :: hot[i].id
    ensures forall k :: k in m && (forall i :: 0 <= i < |hot| ==> hot[i].id != k) ==> Ledger(m, hot)[k] == m[k]
    ensures NoDup(Ids(hot)) ==> forall i :: 0 <= i < |hot| ==> Ledger(m, hot)[hot[i].id] == LedgerCost(hot[i])
  {
    LedgerKeys(m, hot);
    LedgerUntouched(m, hot);
    if NoDup(Ids(hot)) {
      LedgerCosts(m, hot);
    }
  }

  lemma {:induction false} LedgerKeys(m: map<Id, real>, hot: seq<Instance>)
    ensures Ledger(m, hot).Keys == m.Keys + set i | 0 <= i < |hot| :: hot[i].id
  {
    if hot != [] {
      var init, last := hot[..|hot| - 1], hot[|hot| - 1];
      LedgerKeys(m, init);
      assert (set i | 0 <= i < |hot| :: hot[i].id) == (set i | 0 <= i < |init| :: init[i].id) + {last.id} by {
        forall i | 0 <= i < |hot| ensures hot[i].id in (set j | 0 <= j < |init| :: init[j].id) + {last.id} {
          if i < |init| { assert init[i].id == hot[i].id; }
        }
        forall i | 0 <= i < |init| ensures init[i].id in (set j | 0 <= j < |hot| :: hot[j].id) {
          assert hot[i].id == init[i].id;
        }
      }
    }
  }

  lemma {:induction false} LedgerUntouched(m: map<Id, real>, hot: seq<Instance>)
    ensures forall k :: k in m && (forall i :: 0 <= i < |hot| ==> hot[i].id != k) ==> k in Ledger(m, hot) && Ledger(m, hot)[k] == m[k]
  {
    if hot != [] {
      var init, last := hot[..|hot| - 1], hot[|hot| - 1];
      LedgerUntouched(m, init);
      LedgerKeys(m, init);
      forall k | k in m && (forall i :: 0 <= i < |hot| ==> hot[i].id != k)
        ensures Ledger(m, hot)[k] == m[k]
      {
        assert forall i :: 0 <= i < |init| ==> init[i].id == hot[i].id;
        assert last.id != k;
      }
    }
  }

  lemma {:induction false} LedgerCosts(m: map<Id, real>, hot: seq<Instance>)
    requires NoDup(Ids(hot))
    ensures forall i :: 0 <= i < |hot| ==> hot[i].id in Ledger(m, hot) && Ledger(m, hot)[hot[i].id] == LedgerCost(hot[i])
  {
    LedgerKeys(m, hot);
    if hot != [] {
      var init, last := hot[..|hot| - 1], hot[|hot| - 1];
      assert Ids(init) == Ids(hot)[..|init|];
      assert NoDup(Ids(init));
      LedgerCosts(m, init);
      forall i | 0 <= i < |hot| ensures Ledger(m, hot)[hot[i].id] == LedgerCost(hot[i]) {
        if i < |init| {
          assert Ids(hot)[i] != Ids(hot)[|init|];
          assert init[i] == hot[i];
        }
      }
    }
  }

  /** The readiness loop of update_ready_instances: probe every record, keep the ready ones in order. */
  method ProbeReady(hot: seq<Instance>, probe: Instance -> bool) returns (ready: seq<Instance>)
    ensures ready == Filter(hot, probe)
  {
    ready := [];
    for i := 0 to |hot|
      invariant ready == Filter(hot[..i], probe)
    {
      assert hot[..i + 1][..i] == hot[..i];
      if probe(hot[i]) {
        ready := ready + [hot[i]];
      }
    }
    assert hot[..|hot|] == hot;
  }

  /** The loop of update_costs: sum the hourly rates and write each record's cost so far into the
      ledger; `added` is what the ledger's total grew by. */
  method RecordCosts(ledger: map<Id, real>, hot: seq<Instance>)
    returns (newLedger: map<Id, real>, currCost: real, added: real)
    ensures newLedger == Ledger(ledger, hot)
    ensures currCost == SumOf(hot, DphTotal)
    ensures added == MapSum(newLedger) - MapSum(ledger)
  {
    currCost, added := 0.0, 0.0;
    newLedger := ledger;
    for i := 0 to |hot|
      invariant currCost == SumOf(hot[..i], DphTotal)
      invariant newLedger == Ledger(ledger, hot[..i])
      invariant added == MapSum(newLedger) - MapSum(ledger)
    {
      var inst := hot[i];
      assert hot[..i + 1][..i] == hot[..i];
      currCost := currCost + inst.dphTotal;
      var newCost := InstanceCost(inst) + (inst.inetUpCost + inst.inetDownCost);
      var addCost := if inst.id in newLedger then newCost - newLedger[inst.id] else newCost;
      MapSumUpdate(newLedger, inst.id, newCost);
      newLedger := newLedger[inst.id := newCost];
      added := added + addCost;
    }
    assert hot[..|hot|] == hot;
  }

  /** The attributes update_instance_info rewrites from a listing: the ready, running, loading and
      cold records, the bad ids, the cost ledger and the hourly cost. */
  datatype Inventory = Inventory(readyInstances: seq<Instance>, hotInstances: seq<Instance>,
                                 loadingInstances: seq<Instance>, coldInstances: seq<Instance>,
                                 badInstanceIds: seq<Id>, costDict: map<Id, real>, currCostPerHour: real)

  /** update_instance_info on values: classify and sort the listing, probe the running records
      (keeping the old ready list when there are none), record their costs and run the safety
      check on the new hourly cost. */
  method ReadListing(insts: seq<Instance>, probe: Instance -> bool, old_: Inventory, oldTotal: real)
    returns (stopped: seq<Id>, inv: Inventory, total: real)
    ensures RefreshedValues(insts, probe, old_, stopped, inv)
    ensures total - MapSum(inv.costDict) == oldTotal - MapSum(old_.costDict)
  {
    var loading, hot, cold, newBad := SortListing(insts);
    var ready := old_.readyInstances;
    if |hot| != 0 {
      ready := ProbeReady(hot, probe);
    }
    var ledger, hourly, added := RecordCosts(old_.costDict, hot);
    var currCost;
    currCost, stopped := CostSafetyLoop(hourly, hot, MaxCostPerHour);
    inv := Inventory(ready, hot, loading, cold, old_.badInstanceIds + newBad, ledger, currCost);
    total := oldTotal + added;
  }

  /** The attributes update_instance_info leaves behind after reading the listing `insts`, when
      they were `old_` before and the safety check stopped `stopped`. */
  ghost predicate RefreshedValues(insts: seq<Instance>, probe: Instance -> bool, old_: Inventory,
                                  stopped: seq<Id>, inv: Inventory)
  {
    var hot := inv.hotInstances;
    && Classified(insts, inv.loadingInstances, hot, inv.coldInstances)
    && inv.badInstanceIds == old_.badInstanceIds + Ids(Select(insts, Classify, Bad))
    && inv.readyInstances == (if hot == [] then old_.readyInstances else Filter(hot, probe))
    && inv.costDict == Ledger(old_.costDict, hot)
    && SafetyHaltsAt(SumOf(hot, DphTotal), hot, MaxCostPerHour, |stopped|)
    && stopped == Ids(hot[..|stopped|])
    && inv.currCostPerHour == CostAfterStops(SumOf(hot, DphTotal), hot, |stopped|)
  }

  /** The buckets that classifying `curr` gives: running and cold records sorted by decreasing
      tokens/s, loading records in listing order. */
  ghost predicate Classified(curr: seq<Instance>, loading: seq<Instance>, hot: seq<Instance>, cold: seq<Instance>)
  {
    && hot == SortDesc(Select(curr, Classify, Running), Tps)
    && cold == SortDesc(Select(curr, Classify, Cold), Tps)
    && loading == Select(curr, Classify, Loading)
  }

  /** The classification loop of update_instance_info: one pass over the listing that files each
      record under its bucket, keeping the listing order. */
  method Bucketize(insts: seq<Instance>)
    returns (loading: seq<Instance>, hot: seq<Instance>, cold: seq<Instance>, bad: seq<Id>)
    ensures hot == Select(insts, Classify, Running)
    ensures cold == Select(insts, Classify, Cold)
    ensures loading == Select(insts, Classify, Loading)
    ensures bad == Ids(Select(insts, Classify, Bad))
  {
    hot, cold, loading, bad := [], [], [], [];
    ghost var badRecords := [];
    for i := 0 to |insts|
      invariant hot == Select(insts[..i], Classify, Running)
      invariant cold == Select(insts[..i], Classify, Cold)
      invariant loading == Select(insts[..i], Classify, Loading)
      invariant badRecords == Select(insts[..i], Classify, Bad)
      invariant bad == Ids(badRecords)
    {
      var inst := insts[i];
      assert insts[..i + 1] == insts[..i] + [inst];
      SelectSnoc(insts[..i], inst, Classify, Running);
      SelectSnoc(insts[..i], inst, Classify, Cold);
      SelectSnoc(insts[..i], inst, Classify, Loading);
      SelectSnoc(insts[..i], inst, Classify, Bad);
      var b := Classify(inst);
      if b == Bad {
        IdsSnoc(badRecords, inst);
        bad := bad + [inst.id];
        badRecords := badRecords + [inst];
      } else if b == Running {
        hot := hot + [inst];
      } else if b == Loading {
        loading := loading + [inst];
      } else if b == Cold {
        cold := cold + [inst];
      }
      // a record with any other status is only logged
    }
    assert insts[..|insts|] == insts;
  }

  /** The classification of update_instance_info followed by its two sorts. */
  method SortListing(insts: seq<Instance>)
    returns (loading: seq<Instance>, hot: seq<Instance>, cold: seq<Instance>, bad: seq<Id>)
    ensures Classified(insts, loading, hot, cold)
    ensures bad == Ids(Select(insts, Classify, Bad))
  {
    loading, hot, cold, bad := Bucketize(insts);
    hot := SortDesc(hot, Tps);
    cold := SortDesc(cold, Tps);
  }

  class InstanceSet {
    var numHot: int
    var numBusy: int
    /** The attributes read from the provider's listing, replaced together by update_instance_info. */
    var inv: Inventory
    var totalCost: real
    // SimpleStrategy's rolling state
    var avgNumBusy: int
    var avgNumHot: real
    /** 0.5 ** (0.01 * TIME_INTERVAL_SECONDS), the weight of the old value in each rolling average. */
    const weight: real

    ghost predicate Valid()
      reads this
    {
      && IsDecayWeight(weight)
      && totalCost == MapSum(inv.costDict)
    }

    /** The autoscaler starts empty, reads the listing once and seeds the smoothed hot count with
        the number of classified records. */
    constructor (curr: Option<seq<Instance>>, probe: Instance -> bool, weight: real)
      requires IsDecayWeight(weight)
      ensures Valid() && this.weight == weight
      ensures numHot == 0 && numBusy == 0 && avgNumBusy == 0
      ensures avgNumHot == (|inv.hotInstances| + |inv.loadingInstances| + |inv.coldInstances|) as real
      ensures curr.None? ==> inv == Inventory([], [], [], [], [], map[], 0.0)
      ensures curr.Some? ==>
                RefreshedValues(curr.value, probe, Inventory([], [], [], [], [], map[], 0.0),
                                Ids(inv.hotInstances[..SafetyStops(SumOf(inv.hotInstances, DphTotal), inv.hotInstances, MaxCostPerHour)]),
                                inv)
    {
      this.weight := weight;
      numHot, numBusy := 0, 0;
      inv := Inventory([], [], [], [], [], map[], 0.0);
      totalCost := 0.0;
      avgNumBusy, avgNumHot := 0, 0.0;
      new;
      var stopped := UpdateInstanceInfo(curr, probe);
      if curr.Some? {
        SafetyHaltsAtUnique(SumOf(inv.hotInstances, DphTotal), inv.hotInstances, MaxCostPerHour, |stopped|);
      }
      avgNumHot := (|inv.hotInstances| + |inv.loadingInstances| + |inv.coldInstances|) as real;
    }

    /** The load balancer's report (the /report route): overwrite the hot and busy counts. */
    method Report(numHot: int, numBusy: int)
      modifies this`numHot, this`numBusy
      ensures this.numHot == numHot && this.numBusy == numBusy
    {
      this.numHot := numHot;
      this.numBusy := numBusy;
    }

    /** `update_instance_info`: classify a fresh listing, then probe readiness, update the ledger
        and run the cost safety check. A failed listing (None) changes nothing. */
    method UpdateInstanceInfo(curr: Option<seq<Instance>>, probe: Instance -> bool) returns (stopped: seq<Id>)
      requires Valid()
      modifies this`inv, this`totalCost
      ensures Valid()
      ensures curr.None? ==> stopped == [] && inv == old(inv) && totalCost == old(totalCost)
      ensures curr.Some? ==> RefreshedValues(curr.value, probe, old(inv), stopped, inv)
    {
      stopped := [];
      if curr.Some? {
        stopped := ApplyListing(curr.value, probe);
      }
    }

    /** The body of update_instance_info once the listing has been fetched. */
    method ApplyListing(insts: seq<Instance>, probe: Instance -> bool) returns (stopped: seq<Id>)
      requires Valid()
      modifies this`inv, this`totalCost
      ensures Valid()
      ensures RefreshedValues(insts, probe, old(inv), stopped, inv)
    {
      var next, total;
      stopped, next, total := ReadListing(insts, probe, inv, totalCost);
      inv, totalCost := next, total;
    }

    /** `update_ready_instances`: the running records whose probe succeeds, in order. With no
        running record the old ready list is left as it was. */
    method UpdateReadyInstances(probe: Instance -> bool)
      modifies this`inv
      ensures inv == old(inv).(readyInstances := if inv.hotInstances == [] then old(inv.readyInstances)
                                                 else Filter(inv.hotInstances, probe))
    {
      if |inv.hotInstances| == 0 {
        return;
      }
      var ready := ProbeReady(inv.hotInstances, probe);
      inv := inv.(readyInstances := ready);
    }

    /** `update_costs`: the hourly cost becomes the sum of the hot rates; each hot instance's
        cost so far is written to the ledger and the change is added to the running total, which
        therefore stays the sum of the ledger. */
    method UpdateCosts()
      requires Valid()
      modifies this`inv, this`totalCost
      ensures Valid()
      ensures inv == old(inv).(costDict := Ledger(old(inv.costDict), inv.hotInstances),
                               currCostPerHour := SumOf(inv.hotInstances, DphTotal))
    {
      var ledger, curr, added := RecordCosts(inv.costDict, inv.hotInstances);
      inv := inv.(costDict := ledger, currCostPerHour := curr);
      totalCost := totalCost + added;
    }

    /** `cost_safety_check`: stop hot instances in order until the hourly cost is at most 10. */
    method CostSafetyCheck() returns (stopped: seq<Id>)
      modifies this`inv
      ensures SafetyHaltsAt(old(inv.currCostPerHour), inv.hotInstances, MaxCostPerHour, |stopped|)
      ensures stopped == Ids(inv.hotInstances[..|stopped|])
      ensures inv == old(inv).(currCostPerHour := CostAfterStops(old(inv.currCostPerHour), inv.hotInstances, |stopped|))
    {
      var newCost;
      newCost, stopped := CostSafetyLoop(inv.currCostPerHour, inv.hotInstances, MaxCostPerHour);
      inv := inv.(currCostPerHour := newCost);
    }

    /** `manage_instances`: destroy the bad ids and clear them, update the smoothed counts, then
        decide at most one start/stop batch and at most one create/destroy batch. The bad ids are
        destroyed on the spot (`destroyOk` answers for the provider); the two decided batches are
        returned, to be carried out by RunBatch. */
    method ManageInstances(destroyOk: Id -> bool, asks: Option<seq<Id>>)
      returns (triedBad: seq<Id>, plan: Plan)
      requires Valid()
      modifies this`inv, this`avgNumBusy, this`avgNumHot
      ensures Valid()
      ensures inv == old(inv).(badInstanceIds := [])
      ensures triedBad <= old(inv.badInstanceIds)
      ensures CountTrue(triedBad, destroyOk) <= MaxNumActions
      ensures |old(inv.badInstanceIds)| > 0 ==> |triedBad| >= Min(|old(inv.badInstanceIds)|, MaxNumActions)
      ensures triedBad == old(inv.badInstanceIds)
              || CountTrue(triedBad, destroyOk) == Min(|old(inv.badInstanceIds)|, MaxNumActions)
              || Min(|old(inv.badInstanceIds)|, MaxNumActions) - CountTrue(triedBad, destroyOk)
                 > |old(inv.badInstanceIds)| - |triedBad|
      ensures avgNumBusy == NextAvgBusy(old(avgNumBusy), numBusy, weight)
      ensures avgNumHot == RollingAverage(old(avgNumHot), numHot as real, weight)
      ensures plan == ScalingPlan(avgNumBusy, numHot, |inv.hotInstances| + |inv.loadingInstances| + |inv.coldInstances|,
                                  avgNumHot, Ids(inv.hotInstances), Ids(inv.coldInstances), asks)
    {
      var destroyedCount;
      triedBad, destroyedCount := ActOnInstances(destroyOk, |inv.badInstanceIds|, Some(inv.badInstanceIds));
      inv := inv.(badInstanceIds := []);

      var numHotBusy;
      if numBusy > avgNumBusy {
        numHotBusy := numBusy;
      } else {
        numHotBusy := TruncToInt(RollingAverage(avgNumBusy as real, numBusy as real, weight));
      }
      avgNumBusy := numHotBusy;

      var numModelLoading := |inv.hotInstances| - numHot;
      var numLoading := |inv.loadingInstances| + numModelLoading;
      var numCold := |inv.coldInstances| + numLoading;
      var numTot := numHot + numCold;

      var numHotRolling := RollingAverage(avgNumHot, numHot as real, weight);
      avgNumHot := numHotRolling;

      plan := ScalingPlan(numHotBusy, numHot, numTot, numHotRolling, Ids(inv.hotInstances), Ids(inv.coldInstances), asks);
    }

    /** `destroy_all_instances`: one capped batch over every hot, cold and loading record. */
    method DestroyAllInstances(destroyOk: Id -> bool) returns (attempted: seq<Id>, succeeded: int)
      ensures attempted <= Ids(inv.hotInstances + inv.coldInstances + inv.loadingInstances)
      ensures 0 <= succeeded <= MaxNumActions && succeeded == CountTrue(attempted, destroyOk)
      ensures inv.hotInstances + inv.coldInstances + inv.loadingInstances != [] ==> attempted != []
      ensures |attempted| >= Min(|inv.hotInstances + inv.coldInstances + inv.loadingInstances|, MaxNumActions)
      ensures var n := Min(|inv.hotInstances + inv.coldInstances + inv.loadingInstances|, MaxNumActions);
              || attempted == Ids(inv.hotInstances + inv.coldInstances + inv.loadingInstances)
              || succeeded == n
              || n - succeeded > |inv.hotInstances + inv.coldInstances + inv.loadingInstances| - |attempted|
    {
      var all := inv.hotInstances + inv.coldInstances + inv.loadingInstances;
      attempted, succeeded := ActOnInstances(destroyOk, |all|, Some(Ids(all)));
    }

    /** `stop_all_instances`: one capped batch over every hot and loading record. */
    method StopAllInstances(stopOk: Id -> bool) returns (attempted: seq<Id>, succeeded: int)
      ensures attempted <= Ids(inv.hotInstances + inv.loadingInstances)
      ensures 0 <= succeeded <= MaxNumActions && succeeded == CountTrue(attempted, stopOk)
      ensures inv.hotInstances + inv.loadingInstances != [] ==> attempted != []
      ensures |attempted| >= Min(|inv.hotInstances + inv.loadingInstances|, MaxNumActions)
      ensures var n := Min(|inv.hotInstances + inv.loadingInstances|, MaxNumActions);
              || attempted == Ids(inv.hotInstances + inv.loadingInstances)
              || succeeded == n
              || n - succeeded > |inv.hotInstances + inv.loadingInstances| - |attempted|
    {
      var all := inv.hotInstances + inv.loadingInstances;
      attempted, succeeded := ActOnInstances(stopOk, |all|, Some(Ids(all)));
    }
  }

  /** Carry out one decided batch, as the thread started for it by manage_instances does. */
  method RunBatch(b: Batch, ok: Id -> bool) returns (attempted: seq<Id>, succeeded: int)
    ensures attempted <= (if b.candidates.Some? then b.candidates.value else [])
    ensures 0 <= succeeded <= MaxNumActions && succeeded <= Max(b.count, 0)
    ensures succeeded == CountTrue(attempted, ok)
    ensures Min(b.count, MaxNumActions) <= 0 || Min(b.count, MaxNumActions) > |ListedIds(b.candidates)| ==> attempted == []
    ensures 0 < Min(b.count, MaxNumActions) <= |ListedIds(b.candidates)| ==> |attempted| >= Min(b.count, MaxNumActions)
    ensures Min(b.count, MaxNumActions) > 0 ==>
            || attempted == ListedIds(b.candidates)
            || succeeded == Min(b.count, MaxNumActions)
            || Min(b.count, MaxNumActions) - succeeded > |ListedIds(b.candidates)| - |attempted|
  {
    attempted, succeeded := ActOnInstances(ok, b.count, b.candidates);
  }
}
