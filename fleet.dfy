/** What both autoscaler versions share: the provider's instance record, the status tests,
    the sort by a performance key, the cost sums and the cost safety loop. */
module Fleet {
  import opened Wrappers
  import opened Collections

  type Id = int

  /** One record of the provider's instance listing. Only the fields the autoscalers read are kept;
      a field the record may lack or hold as null is an Option. */
  datatype Instance = Instance(
    id: Id,
    actualStatus: Option<string>,
    intendedStatus: Option<string>,
    statusMsg: Option<string>,
    tokensPerSec: Option<real>,       // "tokens/s", present once measured
    dlperfPerDphtotal: Option<real>,  // "dlperf_per_dphtotal", may be null
    dphTotal: real,
    dphBase: real,
    duration: real,                   // seconds the instance has been up
    inetUpCost: real,
    inetDownCost: real)

  /** Python's int() on a float: truncation toward zero. */
  function TruncToInt(x: real): (n: int)
    ensures x >= 0.0 ==> n == x.Floor
    ensures n as real <= x < n as real + 1.0 || x < 0.0
    ensures x >= 0.0 ==> n >= 0
  {
    if x >= 0.0 then x.Floor else -((-x).Floor)
  }

  /** The measured throughput of `inst`, or 0.0 when it has none. */
  function Tps(inst: Instance): real {
    match inst.tokensPerSec
    case Some(t) => t
    case None => 0.0
  }

  /** The offer's performance per dollar, a null value counting as 0. */
  function ExpectedPerformance(inst: Instance): real {
    match inst.dlperfPerDphtotal
    case Some(p) => p
    case None => 0.0
  }

  /** The buckets an instance record is sorted into. `Running` is the list the source calls
      `hot_instances`: "running", whether or not its model has loaded. */
  datatype Bucket = Bad | Running | Loading | Cold | Unrecognised

  predicate IsOffline(inst: Instance) { inst.actualStatus == Some("offline") }
  predicate IsRunning(inst: Instance) { inst.actualStatus == Some("running") }

  predicate IsLoadingStatus(inst: Instance) {
    || inst.actualStatus == Some("loading")
    || inst.actualStatus == None
    || (inst.actualStatus == Some("created") && inst.intendedStatus == Some("running"))
  }

  predicate IsColdStatus(inst: Instance) {
    || (inst.actualStatus == Some("created") && inst.intendedStatus == Some("stopped"))
    || inst.actualStatus == Some("stopping")
    || inst.actualStatus == Some("exited")
  }

  /** The records of `s` that `classify` puts in bucket `b`, in listing order. */
  function Select(s: seq<Instance>, classify: Instance -> Bucket, b: Bucket): (r: seq<Instance>)
    ensures |r| <= |s|
  {
    if s == [] then []
    else
      var init := s[..|s| - 1];
      Select(init, classify, b) + (if classify(s[|s| - 1]) == b then [s[|s| - 1]] else [])
  }

  /** Appending one record appends it to its own bucket and to no other. */
  lemma SelectSnoc(s: seq<Instance>, x: Instance, classify: Instance -> Bucket, b: Bucket)
    ensures Select(s + [x], classify, b) == Select(s, classify, b) + (if classify(x) == b then [x] else [])
  {
    assert (s + [x])[..|s|] == s;
  }

  /** A record is selected into its own bucket as often as it is listed, and into no other. */
  lemma {:induction false} SelectCounts(s: seq<Instance>, classify: Instance -> Bucket, b: Bucket)
    ensures forall x :: multiset(Select(s, classify, b))[x] == if classify(x) == b then multiset(s)[x] else 0
    ensures forall x :: x in Select(s, classify, b) <==> x in s && classify(x) == b
  {
    if s != [] {
      var init, last := s[..|s| - 1], s[|s| - 1];
      assert s == init + [last];
      SelectCounts(init, classify, b);
    }
  }

  /** The five buckets together are exactly as long as the listing. */
  lemma {:induction false} SelectLengths(s: seq<Instance>, classify: Instance -> Bucket)
    ensures |s| == |Select(s, classify, Bad)| + |Select(s, classify, Running)| + |Select(s, classify, Loading)|
                 + |Select(s, classify, Cold)| + |Select(s, classify, Unrecognised)|
  {
    if s != [] {
      var init := s[..|s| - 1];
      assert s == init + [s[|s| - 1]];
      SelectLengths(init, classify);
    }
  }

  function Ids(s: seq<Instance>): (r: seq<Id>)
    ensures |r| == |s|
    ensures forall i :: 0 <= i < |s| ==> r[i] == s[i].id
  {
    seq(|s|, i requires 0 <= i < |s| => s[i].id)
  }

  lemma IdsSnoc(s: seq<Instance>, x: Instance)
    ensures Ids(s + [x]) == Ids(s) + [x.id]
  {
  }

  lemma IdsPrefix(s: seq<Instance>, k: nat)
    requires k <= |s|
    ensures Ids(s[..k]) == Ids(s)[..k]
  {
  }

  // ---------------------------------------------------------------------------------------------
  // Sorting: Python's list.sort(key=..., reverse=True), highest key first.

  ghost predicate SortedDesc(s: seq<Instance>, key: Instance -> real) {
    forall i, j :: 0 <= i < j < |s| ==> key(s[i]) >= key(s[j])
  }

  /** Insert `x` before the first element whose key is not above its own. */
  function Insert(x: Instance, s: seq<Instance>, key: Instance -> real): (r: seq<Instance>)
    ensures |r| == |s| + 1
  {
    if s == [] then [x]
    else if key(x) >= key(s[0]) then [x] + s
    else [s[0]] + Insert(x, s[1..], key)
  }

  /** Inserting into a sorted list keeps it sorted and adds exactly the one element. */
  lemma {:induction false} InsertSorted(x: Instance, s: seq<Instance>, key: Instance -> real)
    requires SortedDesc(s, key)
    ensures SortedDesc(Insert(x, s, key), key)
    ensures multiset(Insert(x, s, key)) == multiset(s) + multiset{x}
  {
    if s != [] && key(x) < key(s[0]) {
      InsertSorted(x, s[1..], key);
      assert s == [s[0]] + s[1..];
      HeadStaysFirst(s[0], x, s[1..], Insert(x, s[1..], key), key);
    }
  }

  /** A head whose key bounds both the inserted element and the old tail still heads the list. */
  lemma HeadStaysFirst(h: Instance, x: Instance, tail: seq<Instance>, rest: seq<Instance>, key: Instance -> real)
    requires multiset(rest) == multiset(tail) + multiset{x}
    requires key(h) > key(x)
    requires forall j :: 0 <= j < |tail| ==> key(h) >= key(tail[j])
    requires SortedDesc(rest, key)
    ensures SortedDesc([h] + rest, key)
  {
    forall j | 0 <= j < |rest| ensures key(h) >= key(rest[j]) {
      assert rest[j] in multiset(rest);
      if rest[j] != x {
        assert rest[j] in multiset(tail);
        var k :| 0 <= k < |tail| && tail[k] == rest[j];
      }
    }
    var r := [h] + rest;
    forall i, j | 0 <= i < j < |r| ensures key(r[i]) >= key(r[j]) {
      if i == 0 {
        assert r[j] == rest[j - 1];
      } else {
        assert r[i] == rest[i - 1] && r[j] == rest[j - 1];
      }
    }
  }

  /** `s` sorted by `key`, highest first: sorted and a permutation of `s`. */
  function SortDesc(s: seq<Instance>, key: Instance -> real): (r: seq<Instance>)
    ensures |r| == |s|
  {
    if s == [] then []
    else Insert(s[0], SortDesc(s[1..], key), key)
  }

  /** The sort's result is ordered by decreasing key and is a permutation of its input. */
  lemma {:induction false} SortDescCorrect(s: seq<Instance>, key: Instance -> real)
    ensures SortedDesc(SortDesc(s, key), key)
    ensures multiset(SortDesc(s, key)) == multiset(s)
  {
    if s != [] {
      SortDescCorrect(s[1..], key);
      InsertSorted(s[0], SortDesc(s[1..], key), key);
      assert s == [s[0]] + s[1..];
    }
  }

  /** The records whose key is exactly `c`. */
  function KeyIs(key: Instance -> real, c: real): Instance -> bool {
    x => key(x) == c
  }

  /** Every record before the inserted one has a larger key, so among the records of one key the
      inserted record comes first. */
  lemma {:induction false} InsertStable(x: Instance, t: seq<Instance>, key: Instance -> real, c: real)
    ensures Filter(Insert(x, t, key), KeyIs(key, c)) == (if key(x) == c then [x] else []) + Filter(t, KeyIs(key, c))
  {
    var f := KeyIs(key, c);
    if t == [] {
      FilterCons(x, [], f);
      assert [x] + [] == [x];
    } else if key(x) >= key(t[0]) {
      FilterCons(x, t, f);
    } else {
      InsertStable(x, t[1..], key, c);
      InsertPastHead(x, t, key, c);
    }
  }

  /** The inheriting step of InsertStable: `x` goes past a head with a larger key, which therefore
      is not counted with `x`. */
  lemma {:induction false} InsertPastHead(x: Instance, t: seq<Instance>, key: Instance -> real, c: real)
    requires t != [] && key(x) < key(t[0])
    requires Filter(Insert(x, t[1..], key), KeyIs(key, c)) == (if key(x) == c then [x] else []) + Filter(t[1..], KeyIs(key, c))
    ensures Filter(Insert(x, t, key), KeyIs(key, c)) == (if key(x) == c then [x] else []) + Filter(t, KeyIs(key, c))
  {
    var f := KeyIs(key, c);
    assert Insert(x, t, key) == [t[0]] + Insert(x, t[1..], key);
    FilterCons(t[0], Insert(x, t[1..], key), f);
    FilterCons(t[0], t[1..], f);
    assert t == [t[0]] + t[1..];
  }

  /** The sort is stable, as Python's is: records with equal keys keep their listing order. */
  lemma {:induction false} SortDescStable(s: seq<Instance>, key: Instance -> real, c: real)
    ensures Filter(SortDesc(s, key), KeyIs(key, c)) == Filter(s, KeyIs(key, c))
  {
    if s != [] {
      SortDescStable(s[1..], key, c);
      InsertStable(s[0], SortDesc(s[1..], key), key, c);
      FilterCons(s[0], s[1..], KeyIs(key, c));
      assert s == [s[0]] + s[1..];
    }
  }

  // ---------------------------------------------------------------------------------------------
  // Cost sums over a list of records.

  function SumOf(s: seq<Instance>, f: Instance -> real): real {
    if s == [] then 0.0 else SumOf(s[..|s| - 1], f) + f(s[|s| - 1])
  }

  function DphTotal(inst: Instance): real { inst.dphTotal }
  function DphBase(inst: Instance): real { inst.dphBase }

  /** What an instance has cost so far: its hourly rate over its up time, plus its network charges. */
  function InstanceCost(inst: Instance): real {
    inst.dphTotal * (inst.duration / (60.0 * 60.0))
  }
  function InetCost(inst: Instance): real { inst.inetDownCost + inst.inetUpCost }

  /** The hourly cost left after stopping the first `k` hot instances from `cost`. */
  function CostAfterStops(cost: real, hot: seq<Instance>, k: nat): real
    requires k <= |hot|
  {
    cost - SumOf(hot[..k], DphBase)
  }

  /** The number of hot instances the safety loop stops when it has already stopped `k`. */
  function StopsFrom(cost: real, hot: seq<Instance>, limit: real, k: nat): (n: nat)
    requires k <= |hot|
    ensures k <= n <= |hot|
    decreases |hot| - k
  {
    if k == |hot| || CostAfterStops(cost, hot, k) <= limit then k
    else StopsFrom(cost, hot, limit, k + 1)
  }

  /** The number of hot instances the safety loop stops. */
  function SafetyStops(cost: real, hot: seq<Instance>, limit: real): nat {
    StopsFrom(cost, hot, limit, 0)
  }

  /** The cost safety loop stops exactly the first `k` hot instances: every earlier point was still
      over `limit`, and it halts at the first point at or below `limit`, or when the list runs out. */
  ghost predicate SafetyHaltsAt(cost: real, hot: seq<Instance>, limit: real, k: nat) {
    && k <= |hot|
    && (forall j :: 0 <= j < k ==> CostAfterStops(cost, hot, j) > limit)
    && (k == |hot| || CostAfterStops(cost, hot, k) <= limit)
  }

  /** The loop's halting point is unique: it is the number `SafetyStops` gives. */
  lemma SafetyHaltsAtUnique(cost: real, hot: seq<Instance>, limit: real, k: nat)
    requires SafetyHaltsAt(cost, hot, limit, k)
    ensures k == SafetyStops(cost, hot, limit)
  {
    StopsFromBefore(cost, hot, limit, k, 0);
  }

  lemma {:induction false} StopsFromBefore(cost: real, hot: seq<Instance>, limit: real, k: nat, j: nat)
    requires SafetyHaltsAt(cost, hot, limit, k) && j <= k
    ensures StopsFrom(cost, hot, limit, j) == k
    decreases k - j
  {
    if j < k {
      StopsFromBefore(cost, hot, limit, k, j + 1);
    }
  }

  /** `cost_safety_check` (both versions, with their own limits): walk the hot list in order,
      stopping each instance and subtracting its base rate, while the hourly cost is over `limit`.
      The stop calls' results are not read by the source, so they are not modelled. */
  method CostSafetyLoop(cost: real, hot: seq<Instance>, limit: real) returns (newCost: real, stopped: seq<Id>)
    ensures SafetyHaltsAt(cost, hot, limit, |stopped|)
    ensures stopped == Ids(hot[..|stopped|])
    ensures newCost == CostAfterStops(cost, hot, |stopped|)
  {
    newCost := cost;
    stopped := [];
    var hotIdx := 0;
    while newCost > limit && hotIdx < |hot|
      invariant hotIdx <= |hot| && |stopped| == hotIdx
      invariant stopped == Ids(hot[..hotIdx])
      invariant newCost == CostAfterStops(cost, hot, hotIdx)
      invariant forall j :: 0 <= j < hotIdx ==> CostAfterStops(cost, hot, j) > limit
      decreases |hot| - hotIdx
    {
      stopped := stopped + [hot[hotIdx].id];
      newCost := newCost - hot[hotIdx].dphBase;
      assert hot[..hotIdx + 1][..hotIdx] == hot[..hotIdx];
      hotIdx := hotIdx + 1;
    }
  }

  /** The budget scenario of the current version: a budget of 10 per hour and eleven hot
      instances at 1 per hour each stops exactly one instance, the first. */
  lemma SafetyScenarioStopsOne(hot: seq<Instance>, k: nat)
    requires |hot| == 11 && forall i :: 0 <= i < 11 ==> hot[i].dphBase == 1.0
    requires SafetyHaltsAt(11.0, hot, 10.0, k)
    ensures k == 1
  {
    assert hot[..0] == [];
    assert hot[..1][..0] == [];
    assert SumOf(hot[..1], DphBase) == 1.0;
    assert CostAfterStops(11.0, hot, 0) == 11.0;
    assert CostAfterStops(11.0, hot, 1) == 10.0;
  }

  // ---------------------------------------------------------------------------------------------
  // Ratios of counts, never divided by zero

  lemma OffsetNonZero(n: int)
    ensures n as real + 0.1 != 0.0
  {
    if n >= 0 {
      assert n as real + 0.1 > 0.0;
    } else {
      assert n as real + 0.1 < 0.0;
    }
  }

  /** `(num_hot_busy + 1) / (num_hot + 0.1)`; the same shape gives the hot ratio. */
  function OffsetRatio(numerator: real, count: int): real {
    OffsetNonZero(count);
    (numerator + 1.0) / (count as real + 0.1)
  }
}
