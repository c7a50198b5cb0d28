/** The earlier fleet autoscaler (Terraform_provider/autoscaler-py/autoscaler.py): a different
    classification order, readiness remembered by record equality (which a fresh listing never
    meets, so every running record is probed again), started-but-still-cold instances demoted to
    bad, a duplicate-free busy list and one-instance-at-a-time scaling loops. */
module EarlyAutoscaler {
  import opened Wrappers
  import opened Collections
  import opened Fleet
  import Autoscaler

  const MaxCostPerHour: real := 3.0
  const TargetHotBusyRatioUpper: real := 0.9
  const TargetHotBusyRatioLower: real := 0.6
  const TargetHotRatio: real := 0.3

  /** The bucket of the earlier update_instance_info: running first, then loading, then cold,
      then offline, with no look at the status message. */
  function Classify(inst: Instance): (b: Bucket)
    ensures IsRunning(inst) ==> b == Running
    ensures b == Bad <==> IsOffline(inst)
    ensures b == Unrecognised <==>
              !IsRunning(inst) && !IsLoadingStatus(inst) && !IsColdStatus(inst) && !IsOffline(inst)
  {
    if IsRunning(inst) then Running
    else if IsLoadingStatus(inst) then Loading
    else if IsColdStatus(inst) then Cold
    else if IsOffline(inst) then Bad
    else Unrecognised
  }

  /** The two versions file a record differently exactly when it carries the daemon error without
      being offline: the current version calls it bad, the earlier one files it by status. */
  lemma ClassifyVersions(inst: Instance)
    ensures Autoscaler.Classify(inst) != Classify(inst) <==> Autoscaler.HasDaemonError(inst) && !IsOffline(inst)
  {
    if Autoscaler.HasDaemonError(inst) && !IsOffline(inst) {
      assert Autoscaler.Classify(inst) == Bad;
    }
  }

  /** The classification loop of the earlier update_instance_info. */
  method Bucketize(insts: seq<Instance>)
    returns (loading: seq<Instance>, hot: seq<Instance>, cold: seq<Instance>, bad: seq<Id>)
    ensures hot == Select(insts, Classify, Running)
    ensures cold == Select(insts, Classify, Cold)
    ensures loading == Select(insts, Classify, Loading)
    ensures bad == Ids(Select(insts, Classify, Bad))
  {
    hot, cold, loading, bad := [], [], [], [];
    ghost var badRecords := [];
    for i := 0 to |insts|
      invariant hot == Select(insts[..i], Classify, Running)
      invariant cold == Select(insts[..i], Classify, Cold)
      invariant loading == Select(insts[..i], Classify, Loading)
      invariant badRecords == Select(insts[..i], Classify, Bad)
      invariant bad == Ids(badRecords)
    {
      var inst := insts[i];
      assert insts[..i + 1] == insts[..i] + [inst];
      SelectSnoc(insts[..i], inst, Classify, Running);
      SelectSnoc(insts[..i], inst, Classify, Cold);
      SelectSnoc(insts[..i], inst, Classify, Loading);
      SelectSnoc(insts[..i], inst, Classify, Bad);
      var b := Classify(inst);
      if b == Running {
        hot := hot + [inst];
      } else if b == Loading {
        loading := loading + [inst];
      } else if b == Cold {
        cold := cold + [inst];
      } else if b == Bad {
        IdsSnoc(badRecords, inst);
        bad := bad + [inst.id];
        badRecords := badRecords + [inst];
      }
      // a record with any other status is only logged
    }
    assert insts[..|insts|] == insts;
  }

  // ---------------------------------------------------------------------------------------------
  // update_ready_instances: readiness is remembered by comparing whole records, and every ready
  // record is then measured. The measurement writes "tokens/s" into the record, a key the
  // provider's listing never carries, so a freshly listed record never equals a stored ready one.

  /** The running records that were already ready, in order. */
  function Retained(hot: seq<Instance>, ready: seq<Instance>): seq<Instance> {
    if hot == [] then []
    else Retained(hot[..|hot| - 1], ready) + (if hot[|hot| - 1] in ready then [hot[|hot| - 1]] else [])
  }

  /** The running records that were not ready before and so are probed, in order. */
  function Unready(hot: seq<Instance>, ready: seq<Instance>): seq<Instance> {
    if hot == [] then []
    else Unready(hot[..|hot| - 1], ready) + (if hot[|hot| - 1] in ready then [] else [hot[|hot| - 1]])
  }

  /** The new ready list: the retained records, then the probed records whose probe succeeded. */
  function NextReady(hot: seq<Instance>, ready: seq<Instance>, probe: Instance -> bool): seq<Instance> {
    Retained(hot, ready) + Filter(Unready(hot, ready), probe)
  }

  lemma {:induction false} SplitMembers(hot: seq<Instance>, ready: seq<Instance>)
    ensures forall x :: x in Retained(hot, ready) <==> x in hot && x in ready
    ensures forall x :: x in Unready(hot, ready) <==> x in hot && x !in ready
  {
    if hot != [] {
      var init, last := hot[..|hot| - 1], hot[|hot| - 1];
      assert hot == init + [last];
      SplitMembers(init, ready);
    }
  }

  /** The retention rule: a record is ready afterwards exactly when it is running and either was
      ready already or its probe succeeded; so the ready list is drawn from the running records. */
  lemma ReadyRetention(hot: seq<Instance>, ready: seq<Instance>, probe: Instance -> bool)
    ensures forall x :: x in NextReady(hot, ready, probe) <==> x in hot && (x in ready || probe(x))
  {
    SplitMembers(hot, ready);
    FilterMembers(Unready(hot, ready), probe);
  }

  /** The two loops of update_ready_instances: split the running records into kept and to-probe,
      then probe the latter in order. */
  method ProbeUnready(hot: seq<Instance>, ready: seq<Instance>, probe: Instance -> bool) returns (next: seq<Instance>)
    ensures next == NextReady(hot, ready, probe)
  {
    var kept, toProbe := [], [];
    for i := 0 to |hot|
      invariant kept == Retained(hot[..i], ready)
      invariant toProbe == Unready(hot[..i], ready)
    {
      assert hot[..i + 1][..i] == hot[..i];
      if hot[i] in ready {
        kept := kept + [hot[i]];
      } else {
        toProbe := toProbe + [hot[i]];
      }
    }
    assert hot[..|hot|] == hot;
    var probed := [];
    for i := 0 to |toProbe|
      invariant probed == Filter(toProbe[..i], probe)
    {
      assert toProbe[..i + 1][..i] == toProbe[..i];
      if probe(toProbe[i]) {
        probed := probed + [toProbe[i]];
      }
    }
    assert toProbe[..|toProbe|] == toProbe;
    next := kept + probed;
  }

  /** The rate update_tokens_per_second writes when the log holds no "tokens/s" line. */
  const UnknownTokensPerSecond: real := 1.0

  /** No record carries "tokens/s": a listing as the provider returns it. */
  predicate Unmeasured(s: seq<Instance>) {
    forall i :: 0 <= i < |s| ==> s[i].tokensPerSec.None?
  }

  /** Every record carries "tokens/s": a ready list after its measurement pass. */
  predicate AllMeasured(s: seq<Instance>) {
    forall i :: 0 <= i < |s| ==> s[i].tokensPerSec.Some?
  }

  /** `update_tokens_per_second` on one record: the rate read from its log, or the unknown rate
      when there is none, is written into the record; no other field changes. */
  function Measured(inst: Instance, rate: Option<real>): (r: Instance)
    ensures r.tokensPerSec.Some? && r.id == inst.id
    ensures Tps(r) == (if rate.Some? then rate.value else UnknownTokensPerSecond)
    ensures r.(tokensPerSec := inst.tokensPerSec) == inst
  {
    inst.(tokensPerSec := Some(if rate.Some? then rate.value else UnknownTokensPerSecond))
  }

  /** The ready list after the measurement pass: the same records in the same order, each measured. */
  function MeasureAll(ready: seq<Instance>, measure: Instance -> Option<real>): (r: seq<Instance>)
    ensures AllMeasured(r) && Ids(r) == Ids(ready)
    ensures forall i :: 0 <= i < |r| ==> r[i].(tokensPerSec := ready[i].tokensPerSec) == ready[i]
  {
    seq(|ready|, i requires 0 <= i < |ready| => Measured(ready[i], measure(ready[i])))
  }

  /** The third loop of update_ready_instances: one measurement per ready record. */
  method MeasureReady(ready: seq<Instance>, measure: Instance -> Option<real>) returns (r: seq<Instance>)
    ensures r == MeasureAll(ready, measure)
  {
    r := ready;
    for i := 0 to |ready|
      invariant |r| == |ready|
      invariant forall j :: 0 <= j < i ==> r[j] == Measured(ready[j], measure(ready[j]))
      invariant forall j :: i <= j < |ready| ==> r[j] == ready[j]
    {
      r := r[i := Measured(r[i], measure(r[i]))];
    }
  }

  /** The ready list update_ready_instances leaves behind. */
  function ReadyAfter(hot: seq<Instance>, ready: seq<Instance>, probe: Instance -> bool,
                      measure: Instance -> Option<real>): seq<Instance> {
    MeasureAll(NextReady(hot, ready, probe), measure)
  }

  /** On a fresh listing the retention branch never fires: every record of the old ready list has
      been measured and no listed record has, so none is retained and every running record is
      probed again. */
  lemma RetentionNeverFires(hot: seq<Instance>, ready: seq<Instance>, probe: Instance -> bool)
    requires Unmeasured(hot) && AllMeasured(ready)
    ensures NextReady(hot, ready, probe) == Filter(hot, probe)
  {
    SplitFresh(hot, ready);
  }

  lemma {:induction false} SplitFresh(hot: seq<Instance>, ready: seq<Instance>)
    requires Unmeasured(hot) && AllMeasured(ready)
    ensures Retained(hot, ready) == [] && Unready(hot, ready) == hot
  {
    if hot != [] {
      var init, last := hot[..|hot| - 1], hot[|hot| - 1];
      SplitFresh(init, ready);
      assert last.tokensPerSec.None?;
      assert hot == init + [last];
    }
  }

  /** The running records of a fresh listing are unmeasured. */
  lemma FreshRunning(insts: seq<Instance>)
    requires Unmeasured(insts)
    ensures Unmeasured(SortDesc(Select(insts, Classify, Running), ExpectedPerformance))
  {
    var sel := Select(insts, Classify, Running);
    var hot := SortDesc(sel, ExpectedPerformance);
    SortDescCorrect(sel, ExpectedPerformance);
    SelectCounts(insts, Classify, Running);
    forall i | 0 <= i < |hot| ensures hot[i].tokensPerSec.None? {
      assert hot[i] in multiset(hot);
      assert hot[i] in sel;
      assert hot[i] in insts;
    }
  }

  // ---------------------------------------------------------------------------------------------
  // update_costs and cost_safety_check

  /** The earlier update_costs: the hourly rate and the total cost are recomputed from the running
      records alone, so nothing accumulates across calls. */
  method RecomputeCosts(hot: seq<Instance>) returns (currCost: real, totalCost: real)
    ensures currCost == SumOf(hot, DphTotal)
    ensures totalCost == SumOf(hot, InstanceCost) + SumOf(hot, InetCost)
  {
    currCost := 0.0;
    var instanceCost, inetCost := 0.0, 0.0;
    for i := 0 to |hot|
      invariant currCost == SumOf(hot[..i], DphTotal)
      invariant instanceCost == SumOf(hot[..i], InstanceCost)
      invariant inetCost == SumOf(hot[..i], InetCost)
    {
      assert hot[..i + 1][..i] == hot[..i];
      currCost := currCost + hot[i].dphTotal;
      instanceCost := instanceCost + hot[i].dphTotal * (hot[i].duration / 3600.0);
      inetCost := inetCost + hot[i].inetDownCost;
      inetCost := inetCost + hot[i].inetUpCost;
    }
    assert hot[..|hot|] == hot;
    totalCost := instanceCost + inetCost;
  }

  // ---------------------------------------------------------------------------------------------
  // tick_duration: started instances still cold are demoted to bad

  /** The index of the first record of `cold` carrying `id`, or `|cold|` when there is none. */
  function FirstWithId(cold: seq<Instance>, id: Id): (i: nat)
    ensures i <= |cold|
    ensures i < |cold| ==> cold[i].id == id
    ensures forall k :: 0 <= k < i ==> cold[k].id != id
  {
    if cold == [] then 0
    else if cold[0].id == id then 0
    else 1 + FirstWithId(cold[1..], id)
  }

  /** `cold` without its first record carrying `id` (Python's `list.remove` of that record). */
  function RemoveFirstId(cold: seq<Instance>, id: Id): seq<Instance> {
    var i := FirstWithId(cold, id);
    if i < |cold| then cold[..i] + cold[i + 1..] else cold
  }

  /** Removal takes out one record exactly when some record carries the id, and leaves the rest. */
  lemma RemoveFirstFacts(cold: seq<Instance>, id: Id)
    ensures id in Ids(cold) <==> FirstWithId(cold, id) < |cold|
    ensures |RemoveFirstId(cold, id)| == if id in Ids(cold) then |cold| - 1 else |cold|
    ensures multiset(RemoveFirstId(cold, id)) <= multiset(cold)
  {
    FirstWithIdPresent(cold, id);
    RemoveFirstDrawn(cold, id);
  }

  lemma FirstWithIdPresent(cold: seq<Instance>, id: Id)
    ensures id in Ids(cold) <==> FirstWithId(cold, id) < |cold|
  {
    var i := FirstWithId(cold, id);
    if i < |cold| {
      assert Ids(cold)[i] == id;
    }
  }

  lemma RemoveFirstDrawn(cold: seq<Instance>, id: Id)
    ensures multiset(RemoveFirstId(cold, id)) <= multiset(cold)
  {
    var i := FirstWithId(cold, id);
    if i < |cold| {
      var pre, post := cold[..i], cold[i + 1..];
      assert cold == pre + [cold[i]] + post;
      assert multiset(cold) == multiset(pre) + multiset{cold[i]} + multiset(post);
      assert RemoveFirstId(cold, id) == pre + post;
    }
  }

  /** Ids of records drawn from `b` are ids of `b`. */
  lemma IdsOfSub(a: seq<Instance>, b: seq<Instance>)
    requires multiset(a) <= multiset(b)
    ensures forall x :: x in Ids(a) ==> x in Ids(b)
  {
    forall x | x in Ids(a) ensures x in Ids(b) {
      var i :| 0 <= i < |a| && Ids(a)[i] == x;
      assert a[i] in multiset(b);
      var j :| 0 <= j < |b| && b[j] == a[i];
      assert Ids(b)[j] == x;
    }
  }

  datatype Demotion = Demotion(remaining: seq<Instance>, found: seq<Id>)

  /** Each started id, in order, removes the first cold record with that id, and is recorded as
      found when there was one. */
  function Demote(started: seq<Id>, cold: seq<Instance>): Demotion {
    if started == [] then Demotion(cold, [])
    else
      var s := started[0];
      var step := if s in Ids(cold) then Demotion(RemoveFirstId(cold, s), [s]) else Demotion(cold, []);
      var rest := Demote(started[1..], step.remaining);
      Demotion(rest.remaining, step.found + rest.found)
  }

  /** Demotion only moves records: every removed record stands for one found id, every found id
      was started and was the id of a cold record, and the records left are drawn from the old ones. */
  lemma {:induction false} DemoteConserves(started: seq<Id>, cold: seq<Instance>)
    ensures |Demote(started, cold).remaining| + |Demote(started, cold).found| == |cold|
    ensures multiset(Demote(started, cold).remaining) <= multiset(cold)
    ensures forall x :: x in Demote(started, cold).found ==> x in started && x in Ids(cold)
  {
    if started != [] {
      var s := started[0];
      var c1 := if s in Ids(cold) then RemoveFirstId(cold, s) else cold;
      RemoveFirstFacts(cold, s);
      DemoteConserves(started[1..], c1);
      IdsOfSub(c1, cold);
    }
  }

  /** Removing the first record with an id from a list with unique ids removes the id entirely and
      keeps the ids unique. */
  lemma RemoveUnique(cold: seq<Instance>, id: Id)
    requires NoDup(Ids(cold))
    ensures id !in Ids(RemoveFirstId(cold, id))
    ensures NoDup(Ids(RemoveFirstId(cold, id)))
  {
    var i := FirstWithId(cold, id);
    FirstWithIdPresent(cold, id);
    if i < |cold| {
      var ids := Ids(cold);
      var r := RemoveFirstId(cold, id);
      IdsRemoveAt(cold, i);
      assert ids[i] == id;
      RemoveAtUnique(ids, i);
    }
  }

  lemma IdsRemoveAt(cold: seq<Instance>, i: nat)
    requires i < |cold|
    ensures Ids(cold[..i] + cold[i + 1..]) == Ids(cold)[..i] + Ids(cold)[i + 1..]
  {
    var a, b := cold[..i], cold[i + 1..];
    assert Ids(a + b) == Ids(a) + Ids(b);
    assert Ids(a) == Ids(cold)[..i];
    assert Ids(b) == Ids(cold)[i + 1..];
  }

  /** With unique cold ids, no record left cold after tick_duration carries a started id. */
  lemma {:induction false} DemoteClearsStarted(started: seq<Id>, cold: seq<Instance>)
    requires NoDup(Ids(cold))
    ensures forall x :: x in Ids(Demote(started, cold).remaining) ==> x !in started
  {
    if started != [] {
      var s := started[0];
      var c1 := if s in Ids(cold) then RemoveFirstId(cold, s) else cold;
      if s in Ids(cold) {
        RemoveUnique(cold, s);
      }
      DemoteClearsStarted(started[1..], c1);
      DemoteConserves(started[1..], c1);
      var rem := Demote(started[1..], c1).remaining;
      IdsOfSub(rem, c1);
      assert started == [s] + started[1..];
    }
  }

  /** The inner loop of tick_duration: find the first cold record with `id` and remove it. */
  method RemoveFirstMatch(cold: seq<Instance>, id: Id) returns (rest: seq<Instance>, found: bool)
    ensures found == (id in Ids(cold))
    ensures rest == RemoveFirstId(cold, id)
  {
    FirstWithIdPresent(cold, id);
    var j := 0;
    while j < |cold| && cold[j].id != id
      invariant 0 <= j <= FirstWithId(cold, id)
    {
      j := j + 1;
    }
    if j < |cold| {
      rest, found := cold[..j] + cold[j + 1..], true;
    } else {
      rest, found := cold, false;
    }
  }

  /** The outer loop of tick_duration over the started ids. */
  method DemoteStarted(started: seq<Id>, cold: seq<Instance>) returns (remaining: seq<Instance>, found: seq<Id>)
    ensures Demotion(remaining, found) == Demote(started, cold)
  {
    remaining, found := cold, [];
    for i := 0 to |started|
      invariant Demote(started, cold) == Demotion(Demote(started[i..], remaining).remaining, found + Demote(started[i..], remaining).found)
    {
      ghost var before := Demote(started[i..], remaining);
      assert started[i..][1..] == started[i + 1..];
      var rest, hit := RemoveFirstMatch(remaining, started[i]);
      ghost var after := Demote(started[i + 1..], rest);
      var step: seq<Id> := if hit then [started[i]] else [];
      assert before == Demotion(after.remaining, step + after.found);
      assert found + (step + after.found) == (found + step) + after.found;
      found := found + step;
      remaining := rest;
    }
  }

  // ---------------------------------------------------------------------------------------------
  // report_busy

  /** `busy` after a report of `id`: appended when absent. */
  function WithBusy(busy: seq<Id>, id: Id): (r: seq<Id>)
    ensures id in r
    ensures forall x :: x in r <==> x in busy || x == id
  {
    if id in busy then busy else busy + [id]
  }

  /** Reports keep the busy list duplicate-free, and reporting the same id twice is the same as once. */
  lemma BusyReports(busy: seq<Id>, id: Id)
    ensures NoDup(busy) ==> NoDup(WithBusy(busy, id))
    ensures WithBusy(WithBusy(busy, id), id) == WithBusy(busy, id)
    ensures |WithBusy(busy, id)| == |busy| + (if id in busy then 0 else 1)
  {
    if NoDup(busy) && id !in busy {
      var r := busy + [id];
      forall i, j | 0 <= i < j < |r| ensures r[i] != r[j] {
        if j == |busy| {
          assert r[i] in busy;
        }
      }
    }
  }

  // ---------------------------------------------------------------------------------------------
  // The scaling loops of manage_instances

  /** `(x + 1) / (y + 1)` for a non-negative `y`. */
  function StepRatio(x: int, y: int): real
    requires y >= 0
  {
    (x + 1) as real / (y + 1) as real
  }

  /** The busy ratio after `k` starts. */
  function StartRatio(numBusy: int, numHot: nat, k: nat): real {
    StepRatio(numBusy, numHot + k)
  }

  /** The busy ratio after `k` stops. */
  function StopRatio(numBusy: int, numHot: int, k: nat): real
    requires k <= numHot
  {
    StepRatio(numBusy, numHot - k)
  }

  /** The start loop: a prefix of the cold ids, started while the busy ratio stays above the
      upper target, the hot count going up by one per start. */
  ghost predicate StartRun(numBusy: int, numHot: nat, coldIds: seq<Id>, started: seq<Id>) {
    && started <= coldIds
    && (forall k :: 0 <= k < |started| ==> StartRatio(numBusy, numHot, k) > TargetHotBusyRatioUpper)
    && (|started| == |coldIds| || StartRatio(numBusy, numHot, |started|) <= TargetHotBusyRatioUpper)
  }

  /** The stop loop: the hot ids from the end, stopped while the busy ratio stays below the lower
      target, the hot count going down by one per stop and never below zero. */
  ghost predicate StopRun(numBusy: int, numHot: int, hotIds: seq<Id>, stopped: seq<Id>) {
    && stopped <= Reverse(hotIds)
    && |stopped| <= numHot
    && (forall k :: 0 <= k < |stopped| ==> StopRatio(numBusy, numHot, k) < TargetHotBusyRatioLower)
    && (|stopped| == |hotIds| || StopRatio(numBusy, numHot, |stopped|) >= TargetHotBusyRatioLower)
  }

  /** The start-or-stop part of the earlier manage_instances. */
  method StartStop(numBusy: nat, numHot: nat, hotIds: seq<Id>, coldIds: seq<Id>)
    returns (started: seq<Id>, stopped: seq<Id>, newHot: int)
    ensures StartRun(numBusy, numHot, coldIds, started)
    ensures StopRun(numBusy, numHot, hotIds, stopped)
    ensures started == [] || stopped == []
    ensures newHot == numHot + |started| - |stopped| && newHot >= 0
  {
    started, stopped := [], [];
    newHot := numHot;
    var hotBusyRatio := StepRatio(numBusy, numHot);
    if hotBusyRatio > TargetHotBusyRatioUpper && |coldIds| != 0 {
      var coldIdx := 0;
      while hotBusyRatio > TargetHotBusyRatioUpper && coldIdx < |coldIds|
        invariant 0 <= coldIdx <= |coldIds|
        invariant started == coldIds[..coldIdx] && newHot == numHot + coldIdx
        invariant hotBusyRatio == StartRatio(numBusy, numHot, coldIdx)
        decreases |coldIds| - coldIdx
        invariant forall k :: 0 <= k < coldIdx ==> StartRatio(numBusy, numHot, k) > TargetHotBusyRatioUpper
      {
        started := started + [coldIds[coldIdx]];
        assert coldIds[..coldIdx + 1] == coldIds[..coldIdx] + [coldIds[coldIdx]];
        newHot := newHot + 1;
        hotBusyRatio := StepRatio(numBusy, newHot);
        coldIdx := coldIdx + 1;
      }
      assert StepRatio(numBusy, numHot) > TargetHotBusyRatioLower;
    } else if hotBusyRatio < TargetHotBusyRatioLower {
      var hotIdx := |hotIds| - 1;
      ghost var rev := Reverse(hotIds);
      while hotBusyRatio < TargetHotBusyRatioLower && hotIdx >= 0 && |hotIds| != 0
        invariant -1 <= hotIdx < |hotIds|
        invariant |stopped| == |hotIds| - 1 - hotIdx && stopped == rev[..|stopped|]
        invariant newHot == numHot - |stopped| && newHot >= 0
        invariant |stopped| <= numHot && hotBusyRatio == StopRatio(numBusy, numHot, |stopped|)
        invariant forall k :: 0 <= k < |stopped| ==> StopRatio(numBusy, numHot, k) < TargetHotBusyRatioLower
        decreases hotIdx + 1
      {
        SmallRatioNeedsHot(numBusy, newHot);
        assert rev[|stopped|] == hotIds[hotIdx];
        assert rev[..|stopped| + 1] == rev[..|stopped|] + [hotIds[hotIdx]];
        stopped := stopped + [hotIds[hotIdx]];
        newHot := newHot - 1;
        hotBusyRatio := StepRatio(numBusy, newHot);
        hotIdx := hotIdx - 1;
      }
    }
  }

  /** Below the lower target the hot count is at least one, so one more stop keeps it non-negative. */
  lemma SmallRatioNeedsHot(numBusy: nat, numHot: int)
    requires numHot >= 0 && StepRatio(numBusy, numHot) < TargetHotBusyRatioLower
    ensures numHot >= 1
  {
  }

  /** The hot ratio of step `k` of the create loop: the first test uses the ratio computed before
      any start or stop, with `+ 0.1`; later tests use the updated hot count and `+ 1`. */
  function CreateRatio(hotRatio: real, numHot: int, numTot: int, k: nat): real
    requires numTot >= 0
  {
    if k == 0 then hotRatio else StepRatio(numHot, numTot + k)
  }

  /** The same for the destroy loop, the total going down by one per destroy. */
  function DestroyRatio(hotRatio: real, numHot: int, numTot: int, k: nat): real
    requires k <= numTot
  {
    if k == 0 then hotRatio else StepRatio(numHot, numTot - k)
  }

  /** The create loop: a prefix of the offers, never the last one. */
  ghost predicate CreateRun(hotRatio: real, numHot: int, numTot: int, asks: seq<Id>, created: seq<Id>)
    requires numTot >= 0
  {
    && created <= asks
    && |created| <= Max(|asks| - 1, 0)
    && (forall k :: 0 <= k < |created| ==> CreateRatio(hotRatio, numHot, numTot, k) > TargetHotRatio)
    && (|created| == Max(|asks| - 1, 0) || CreateRatio(hotRatio, numHot, numTot, |created|) <= TargetHotRatio)
  }

  /** The destroy loop: the cold ids from the end. */
  ghost predicate DestroyRun(hotRatio: real, numHot: int, numTot: int, coldIds: seq<Id>, destroyed: seq<Id>)
    requires |coldIds| <= numTot
  {
    && destroyed <= Reverse(coldIds)
    && (forall k :: 0 <= k < |destroyed| ==> DestroyRatio(hotRatio, numHot, numTot, k) < TargetHotRatio)
    && (|destroyed| == |coldIds| || DestroyRatio(hotRatio, numHot, numTot, |destroyed|) >= TargetHotRatio)
  }

  /** The create loop: offers in order, never the last one, while the hot ratio stays above target. */
  method CreateLoop(hotRatio: real, numHot: int, numTot: nat, askList: seq<Id>) returns (created: seq<Id>)
    ensures CreateRun(hotRatio, numHot, numTot, askList, created)
  {
    created := [];
    var ratio := hotRatio;
    var tot := numTot;
    var askIdx := 0;
    while ratio > TargetHotRatio && askIdx < |askList| - 1
      invariant 0 <= askIdx <= Max(|askList| - 1, 0)
      invariant created == askList[..askIdx] && tot == numTot + askIdx
      invariant ratio == CreateRatio(hotRatio, numHot, numTot, askIdx)
      invariant forall k :: 0 <= k < askIdx ==> CreateRatio(hotRatio, numHot, numTot, k) > TargetHotRatio
      decreases |askList| - askIdx
    {
      assert askList[..askIdx + 1] == askList[..askIdx] + [askList[askIdx]];
      created := created + [askList[askIdx]];
      tot := tot + 1;
      ratio := StepRatio(numHot, tot);
      askIdx := askIdx + 1;
    }
  }

  /** The destroy loop: cold ids from the end while the hot ratio stays below target. */
  method DestroyLoop(hotRatio: real, numHot: int, numTot: nat, coldIds: seq<Id>) returns (destroyed: seq<Id>)
    requires |coldIds| <= numTot
    ensures DestroyRun(hotRatio, numHot, numTot, coldIds, destroyed)
  {
    destroyed := [];
    var ratio := hotRatio;
    var tot := numTot;
    var coldIdx := |coldIds| - 1;
    ghost var rev := Reverse(coldIds);
    while ratio < TargetHotRatio && coldIdx >= 0 && |coldIds| != 0
      invariant -1 <= coldIdx < |coldIds|
      invariant |destroyed| == |coldIds| - 1 - coldIdx && destroyed == rev[..|destroyed|]
      invariant tot == numTot - |destroyed|
      invariant ratio == DestroyRatio(hotRatio, numHot, numTot, |destroyed|)
      invariant forall k :: 0 <= k < |destroyed| ==> DestroyRatio(hotRatio, numHot, numTot, k) < TargetHotRatio
      decreases coldIdx + 1
    {
      assert rev[|destroyed|] == coldIds[coldIdx];
      assert rev[..|destroyed| + 1] == rev[..|destroyed|] + [coldIds[coldIdx]];
      destroyed := destroyed + [coldIds[coldIdx]];
      tot := tot - 1;
      ratio := StepRatio(numHot, tot);
      coldIdx := coldIdx - 1;
    }
  }

  /** The create-or-destroy part of the earlier manage_instances. `hotRatio` is the ratio computed
      before the start/stop loops, `numHot` the hot count after them. With no offer list and a hot
      ratio above target, `len(None)` raises: reported as `crashed`, with nothing created. */
  method CreateDestroy(hotRatio: real, numHot: int, numTot: nat, asks: Option<seq<Id>>, coldIds: seq<Id>)
    returns (created: seq<Id>, destroyed: seq<Id>, crashed: bool)
    requires |coldIds| <= numTot
    ensures crashed <==> asks.None? && hotRatio > TargetHotRatio
    ensures CreateRun(hotRatio, numHot, numTot, if asks.Some? then asks.value else [], created)
    ensures DestroyRun(hotRatio, numHot, numTot, coldIds, destroyed)
    ensures hotRatio <= TargetHotRatio ==> created == []
    ensures hotRatio >= TargetHotRatio ==> destroyed == []
  {
    created, destroyed, crashed := [], [], false;
    if hotRatio > TargetHotRatio {
      if asks.None? {
        crashed := true;
      } else {
        created := CreateLoop(hotRatio, numHot, numTot, asks.value);
      }
    } else if hotRatio < TargetHotRatio {
      destroyed := DestroyLoop(hotRatio, numHot, numTot, coldIds);
    }
  }

  // ---------------------------------------------------------------------------------------------
  // update_instance_info on values

  /** The buckets of the earlier update_instance_info: running and cold records sorted by
      decreasing performance per dollar, loading records in listing order. */
  ghost predicate Classified(curr: seq<Instance>, loading: seq<Instance>, hot: seq<Instance>, cold: seq<Instance>)
  {
    && hot == SortDesc(Select(curr, Classify, Running), ExpectedPerformance)
    && cold == SortDesc(Select(curr, Classify, Cold), ExpectedPerformance)
    && loading == Select(curr, Classify, Loading)
  }

  /** The classification followed by its two sorts. */
  method SortListing(insts: seq<Instance>)
    returns (loading: seq<Instance>, hot: seq<Instance>, cold: seq<Instance>, bad: seq<Id>)
    ensures Classified(insts, loading, hot, cold)
    ensures bad == Ids(Select(insts, Classify, Bad))
  {
    loading, hot, cold, bad := Bucketize(insts);
    hot := SortDesc(hot, ExpectedPerformance);
    cold := SortDesc(cold, ExpectedPerformance);
  }

  /** The lists and costs update_instance_info maintains. */
  datatype Listing = Listing(ready: seq<Instance>, hot: seq<Instance>, loading: seq<Instance>,
                             cold: seq<Instance>, bad: seq<Id>, totalCost: real, currCost: real)

  /** What the earlier update_instance_info leaves behind after reading `insts`, given the ready
      and bad lists before: the classification and its two sorts, the bad ids appended, the ready
      list update_ready_instances computes, the total cost recomputed from the running records,
      and the hourly rate after the safety check has stopped `SafetyStops` of them. */
  function AfterListing(insts: seq<Instance>, probe: Instance -> bool, measure: Instance -> Option<real>,
                        oldReady: seq<Instance>, oldBad: seq<Id>): Listing
  {
    var hot := SortDesc(Select(insts, Classify, Running), ExpectedPerformance);
    Listing(ReadyAfter(hot, oldReady, probe, measure), hot, Select(insts, Classify, Loading),
            SortDesc(Select(insts, Classify, Cold), ExpectedPerformance), oldBad + Ids(Select(insts, Classify, Bad)),
            SumOf(hot, InstanceCost) + SumOf(hot, InetCost),
            CostAfterStops(SumOf(hot, DphTotal), hot, SafetyStops(SumOf(hot, DphTotal), hot, MaxCostPerHour)))
  }

  /** The earlier update_instance_info on values: classify and sort, update readiness, recompute
      the costs and run the safety check with the limit of 3 per hour. */
  method ReadListing(insts: seq<Instance>, probe: Instance -> bool, measure: Instance -> Option<real>,
                     oldReady: seq<Instance>, oldBad: seq<Id>)
    returns (stopped: seq<Id>, ready: seq<Instance>, hot: seq<Instance>, loading: seq<Instance>,
             cold: seq<Instance>, bad: seq<Id>, totalCost: real, currCost: real)
    ensures Listing(ready, hot, loading, cold, bad, totalCost, currCost) == AfterListing(insts, probe, measure, oldReady, oldBad)
    ensures SafetyHaltsAt(SumOf(hot, DphTotal), hot, MaxCostPerHour, |stopped|)
    ensures stopped == Ids(hot[..SafetyStops(SumOf(hot, DphTotal), hot, MaxCostPerHour)])
    ensures Unmeasured(insts) && AllMeasured(oldReady) ==> ready == MeasureAll(Filter(hot, probe), measure)
  {
    var newBad;
    loading, hot, cold, newBad := SortListing(insts);
    ready := ProbeUnready(hot, oldReady, probe);
    if Unmeasured(insts) && AllMeasured(oldReady) {
      FreshRunning(insts);
      RetentionNeverFires(hot, oldReady, probe);
    }
    ready := MeasureReady(ready, measure);
    var hourly;
    hourly, totalCost := RecomputeCosts(hot);
    currCost, stopped := CostSafetyLoop(hourly, hot, MaxCostPerHour);
    SafetyHaltsAtUnique(hourly, hot, MaxCostPerHour, |stopped|);
    bad := oldBad + newBad;
  }

  class InstanceSet {
    /** Never updated after construction in this version: it stays 0. */
    var numHot: nat
    var readyInstances: seq<Instance>
    var hotInstances: seq<Instance>
    var loadingInstances: seq<Instance>
    var coldInstances: seq<Instance>
    var busyInstanceIds: seq<Id>
    var startedInstanceIds: seq<Id>
    var badInstanceIds: seq<Id>
    // InstanceSetMetrics
    var totalCost: real
    var currCostPerHour: real

    /** Every stored ready record has been measured. */
    ghost predicate Valid()
      reads this
    {
      AllMeasured(readyInstances)
    }

    /** The lists and costs, as one value. */
    function State(): Listing
      reads this
    {
      Listing(readyInstances, hotInstances, loadingInstances, coldInstances, badInstanceIds, totalCost, currCostPerHour)
    }

    /** The autoscaler starts empty and reads the listing once. */
    constructor (curr: Option<seq<Instance>>, probe: Instance -> bool, measure: Instance -> Option<real>)
      ensures Valid()
      ensures numHot == 0 && busyInstanceIds == [] && startedInstanceIds == []
      ensures State() == if curr.Some? then AfterListing(curr.value, probe, measure, [], []) else Listing([], [], [], [], [], 0.0, 0.0)
      ensures curr.Some? ==> readyInstances == MeasureAll(Filter(hotInstances, probe), measure)
    {
      numHot := 0;
      busyInstanceIds, startedInstanceIds := [], [];
      // update_instance_info on the empty state; a failed listing changes nothing
      var first := Listing([], [], [], [], [], 0.0, 0.0);
      if curr.Some? {
        var stopped, ready, hot, loading, cold, bad, total, cost := ReadListing(curr.value, probe, measure, [], []);
        NoneReadyYet(hot, probe);
        first := Listing(ready, hot, loading, cold, bad, total, cost);
      }
      readyInstances, hotInstances, loadingInstances, coldInstances := first.ready, first.hot, first.loading, first.cold;
      badInstanceIds, totalCost, currCostPerHour := first.bad, first.totalCost, first.currCost;
    }

    /** `update_instance_info`: classify a fresh listing, then update readiness, recompute the
        costs and run the cost safety check. A failed listing (None) changes nothing. */
    method UpdateInstanceInfo(curr: Option<seq<Instance>>, probe: Instance -> bool, measure: Instance -> Option<real>)
      returns (stopped: seq<Id>)
      modifies this`readyInstances, this`hotInstances, this`loadingInstances, this`coldInstances
      modifies this`badInstanceIds, this`totalCost, this`currCostPerHour
      ensures curr.None? ==> stopped == [] && State() == old(State())
      ensures curr.Some? ==> State() == AfterListing(curr.value, probe, measure, old(readyInstances), old(badInstanceIds))
      ensures curr.Some? ==> stopped == Ids(hotInstances[..SafetyStops(SumOf(hotInstances, DphTotal), hotInstances, MaxCostPerHour)])
      ensures curr.Some? ==> Valid()
      ensures curr.Some? && Unmeasured(curr.value) && old(Valid()) ==> readyInstances == MeasureAll(Filter(hotInstances, probe), measure)
    {
      stopped := [];
      if curr.Some? {
        stopped := ApplyListing(curr.value, probe, measure);
      }
    }

    /** The body of update_instance_info once the listing has been fetched. */
    method ApplyListing(insts: seq<Instance>, probe: Instance -> bool, measure: Instance -> Option<real>)
      returns (stopped: seq<Id>)
      modifies this`readyInstances, this`hotInstances, this`loadingInstances, this`coldInstances
      modifies this`badInstanceIds, this`totalCost, this`currCostPerHour
      ensures State() == AfterListing(insts, probe, measure, old(readyInstances), old(badInstanceIds))
      ensures stopped == Ids(hotInstances[..SafetyStops(SumOf(hotInstances, DphTotal), hotInstances, MaxCostPerHour)])
      ensures Valid()
      ensures Unmeasured(insts) && old(Valid()) ==> readyInstances == MeasureAll(Filter(hotInstances, probe), measure)
    {
      var ready, hot, loading, cold, allBad, total, newCost;
      stopped, ready, hot, loading, cold, allBad, total, newCost :=
        ReadListing(insts, probe, measure, readyInstances, badInstanceIds);
      badInstanceIds := allBad;
      coldInstances, loadingInstances := cold, loading;
      hotInstances, readyInstances := hot, ready;
      totalCost, currCostPerHour := total, newCost;
    }

    /** `update_ready_instances`: a running record equal to a stored ready record stays ready
        without a probe; the others are probed and kept when the probe succeeds; every ready
        record is then measured. On unmeasured running records nothing is retained. */
    method UpdateReadyInstances(probe: Instance -> bool, measure: Instance -> Option<real>)
      modifies this`readyInstances
      ensures readyInstances == ReadyAfter(hotInstances, old(readyInstances), probe, measure)
      ensures Valid()
      ensures Unmeasured(hotInstances) && old(Valid()) ==> readyInstances == MeasureAll(Filter(hotInstances, probe), measure)
    {
      var next := ProbeUnready(hotInstances, readyInstances, probe);
      if Unmeasured(hotInstances) && AllMeasured(readyInstances) {
        RetentionNeverFires(hotInstances, readyInstances, probe);
      }
      readyInstances := MeasureReady(next, measure);
    }

    /** `tick_duration`: each started id still found among the cold records removes that record
        and becomes bad; the started list is then cleared. */
    method TickDuration()
      modifies this`coldInstances, this`badInstanceIds, this`startedInstanceIds
      ensures coldInstances == Demote(old(startedInstanceIds), old(coldInstances)).remaining
      ensures badInstanceIds == old(badInstanceIds) + Demote(old(startedInstanceIds), old(coldInstances)).found
      ensures startedInstanceIds == []
    {
      var remaining, found := DemoteStarted(startedInstanceIds, coldInstances);
      coldInstances := remaining;
      badInstanceIds := badInstanceIds + found;
      startedInstanceIds := [];
    }

    /** `report_busy`, called by the load balancer: remember `busyId` once. */
    method ReportBusy(busyId: Id)
      modifies this`busyInstanceIds
      ensures busyInstanceIds == WithBusy(old(busyInstanceIds), busyId)
    {
      if busyId !in busyInstanceIds {
        busyInstanceIds := busyInstanceIds + [busyId];
      }
    }

    /** `update_costs`: recompute the hourly rate and the total cost from the running records. */
    method UpdateCosts()
      modifies this`totalCost, this`currCostPerHour
      ensures currCostPerHour == SumOf(hotInstances, DphTotal)
      ensures totalCost == SumOf(hotInstances, InstanceCost) + SumOf(hotInstances, InetCost)
    {
      currCostPerHour, totalCost := RecomputeCosts(hotInstances);
    }

    /** `cost_safety_check`: stop hot instances in order until the hourly cost is at most 3. */
    method CostSafetyCheck() returns (stopped: seq<Id>)
      modifies this`currCostPerHour
      ensures SafetyHaltsAt(old(currCostPerHour), hotInstances, MaxCostPerHour, |stopped|)
      ensures stopped == Ids(hotInstances[..|stopped|])
      ensures currCostPerHour == CostAfterStops(old(currCostPerHour), hotInstances, |stopped|)
    {
      var newCost;
      newCost, stopped := CostSafetyLoop(currCostPerHour, hotInstances, MaxCostPerHour);
      currCostPerHour := newCost;
    }

    /** `manage_instances`: destroy every bad id and clear the list, then start or stop one
        instance at a time on the busy ratio, then create or destroy one at a time on the hot ratio.
        The started ids are remembered for tick_duration. `crashed` is the `len(None)` failure of
        the create branch when no offer list could be read; the starts and stops before it stand. */
    method ManageInstances(asks: Option<seq<Id>>)
      returns (destroyedBad: seq<Id>, started: seq<Id>, stopped: seq<Id>, created: seq<Id>, destroyed: seq<Id>, crashed: bool)
      modifies this`badInstanceIds, this`startedInstanceIds
      ensures destroyedBad == old(badInstanceIds) && badInstanceIds == []
      ensures StartRun(|busyInstanceIds|, numHot, Ids(coldInstances), started)
      ensures StopRun(|busyInstanceIds|, numHot, Ids(hotInstances), stopped)
      ensures started == [] || stopped == []
      ensures startedInstanceIds == old(startedInstanceIds) + started
      ensures crashed <==> asks.None? && OffsetRatio(numHot as real, |hotInstances| + |coldInstances| + |loadingInstances|) > TargetHotRatio
      ensures CreateRun(OffsetRatio(numHot as real, |hotInstances| + |coldInstances| + |loadingInstances|),
                        numHot + |started| - |stopped|, |hotInstances| + |coldInstances| + |loadingInstances|,
                        if asks.Some? then asks.value else [], created)
      ensures DestroyRun(OffsetRatio(numHot as real, |hotInstances| + |coldInstances| + |loadingInstances|),
                         numHot + |started| - |stopped|, |hotInstances| + |coldInstances| + |loadingInstances|,
                         Ids(coldInstances), destroyed)
      ensures created == [] || destroyed == []
    {
      var numHotBusy := |busyInstanceIds|;
      var numTot := |hotInstances| + |coldInstances| + |loadingInstances|;
      var hotRatio := OffsetRatio(numHot as real, numTot);

      destroyedBad := badInstanceIds;
      badInstanceIds := [];

      var newHot;
      started, stopped, newHot := StartStop(numHotBusy, numHot, Ids(hotInstances), Ids(coldInstances));
      startedInstanceIds := startedInstanceIds + started;

      created, destroyed, crashed := CreateDestroy(hotRatio, newHot, numTot, asks, Ids(coldInstances));
    }

    /** `destroy_all_instances`: every hot, cold and loading id, in that order. */
    method DestroyAllInstances() returns (ids: seq<Id>)
      ensures |ids| == |hotInstances| + |coldInstances| + |loadingInstances|
      ensures forall x :: x in ids <==> x in Ids(hotInstances) || x in Ids(coldInstances) || x in Ids(loadingInstances)
      ensures ids == Ids(hotInstances) + Ids(coldInstances) + Ids(loadingInstances)
    {
      ids := Ids(hotInstances + coldInstances + loadingInstances);
      IdsOfJoin(hotInstances, coldInstances, loadingInstances);
    }

    /** `stop_all_instances`: every hot and loading id, in that order. */
    method StopAllInstances() returns (ids: seq<Id>)
      ensures |ids| == |hotInstances| + |loadingInstances|
      ensures forall x :: x in ids <==> x in Ids(hotInstances) || x in Ids(loadingInstances)
      ensures ids == Ids(hotInstances) + Ids(loadingInstances)
    {
      ids := Ids(hotInstances + loadingInstances);
      IdsOfJoin(hotInstances, loadingInstances, []);
      assert hotInstances + loadingInstances + [] == hotInstances + loadingInstances;
    }
  }

  /** On the first read nothing is ready yet, so every running record is probed. */
  lemma NoneReadyYet(hot: seq<Instance>, probe: Instance -> bool)
    ensures NextReady(hot, [], probe) == Filter(hot, probe)
  {
    assert Retained(hot, []) == [] && Unready(hot, []) == hot by {
      SplitEmpty(hot);
    }
  }

  lemma {:induction false} SplitEmpty(hot: seq<Instance>)
    ensures Retained(hot, []) == [] && Unready(hot, []) == hot
  {
    if hot != [] {
      SplitEmpty(hot[..|hot| - 1]);
    }
  }

  lemma IdsOfJoin(a: seq<Instance>, b: seq<Instance>, c: seq<Instance>)
    ensures Ids(a + b + c) == Ids(a) + Ids(b) + Ids(c)
  {
  }
}
