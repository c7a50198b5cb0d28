/** The load balancer's dispatch queue (autoscaler-py/loadbalancer.py): a min-priority queue of
    ready instances keyed by how much queued work each has, rebuilt every tick, decayed every tick
    and charged on every dispatch. The autoscaler's ready list and the instances' token fetches are
    oracles whose answers are parameters. */
module Dispatch {
  import opened Wrappers
  import opened Collections
  import opened Fleet
  import opened Tokens

  const TimeIntervalSeconds: real := 5.0
  const FullLoadThreshold: real := 2.5
  const DefaultTps: real := 35.0

  /** One record of the autoscaler's ready list, with the fields the load balancer reads. */
  datatype ReadyRecord = ReadyRecord(id: Id, publicIpaddr: string, hostPort: string, mtoken: string)

  function ReadyIds(ready: seq<ReadyRecord>): (r: seq<Id>)
    ensures |r| == |ready|
    ensures forall i :: 0 <= i < |ready| ==> r[i] == ready[i].id
  {
    seq(|ready|, i requires 0 <= i < |ready| => ready[i].id)
  }

  predicate NotNewline(c: char) { c != '\n' }

  /** `s` with every newline removed. */
  function DropNewlines(s: string): (r: string)
    ensures |r| <= |s|
    ensures forall c :: c in r <==> c in s && c != '\n'
  {
    if s == [] then []
    else DropNewlines(s[..|s| - 1]) + (if s[|s| - 1] == '\n' then [] else [s[|s| - 1]])
  }

  /** Removing newlines keeps the other characters in order and each as often as in `s`, and
      leaves a string without newlines as it is. */
  lemma {:induction false} DropNewlinesKeepsOrder(s: string)
    ensures DropNewlines(s) == Filter(s, NotNewline)
    ensures '\n' !in s ==> DropNewlines(s) == s
  {
    if s != [] {
      DropNewlinesKeepsOrder(s[..|s| - 1]);
      assert s == s[..|s| - 1] + [s[|s| - 1]];
    }
  }

  /** Removing newlines works piece by piece. */
  lemma DropNewlinesAppend(a: string, b: string)
    ensures DropNewlines(a + b) == DropNewlines(a) + DropNewlines(b)
  {
    DropNewlinesKeepsOrder(a);
    DropNewlinesKeepsOrder(b);
    DropNewlinesKeepsOrder(a + b);
    FilterAppend(a, b, NotNewline);
  }

  /** `get_address`: "ip:port" without newlines. */
  function Address(r: ReadyRecord): string {
    DropNewlines(r.publicIpaddr + ":" + r.hostPort)
  }

  /** The address is the cleaned ip, a colon and the cleaned port. */
  lemma AddressParts(r: ReadyRecord)
    ensures Address(r) == DropNewlines(r.publicIpaddr) + ":" + DropNewlines(r.hostPort)
  {
    DropNewlinesAppend(r.publicIpaddr + ":", r.hostPort);
    DropNewlinesAppend(r.publicIpaddr, ":");
  }

  // ---------------------------------------------------------------------------------------------
  // The priority queue

  /** A queue entry `(queue_duration, id, record)`. */
  datatype Entry = Entry(key: real, id: Id, rec: ReadyRecord)

  /** The tuple order on the first two components: by key, ties broken by id. */
  predicate Before(a: Entry, b: Entry) {
    a.key < b.key || (a.key == b.key && a.id <= b.id)
  }

  /** The position of the entry `PriorityQueue.get` returns. */
  function MinIndex(q: seq<Entry>): (i: nat)
    requires |q| > 0
    ensures i < |q|
    ensures forall j :: 0 <= j < |q| ==> Before(q[i], q[j])
  {
    if |q| == 1 then 0
    else
      var m := MinIndex(q[..|q| - 1]);
      if Before(q[m], q[|q| - 1]) then m else |q| - 1
  }

  function RemoveAt(q: seq<Entry>, i: nat): seq<Entry>
    requires i < |q|
  {
    q[..i] + q[i + 1..]
  }

  function EntryIds(q: seq<Entry>): (r: seq<Id>)
    ensures |r| == |q|
    ensures forall i :: 0 <= i < |q| ==> r[i] == q[i].id
  {
    seq(|q|, i requires 0 <= i < |q| => q[i].id)
  }

  /** Popping the minimum and pushing back an entry for the same instance keeps the queue's size
      and the ids it holds, each as often as before. */
  lemma RequeueKeepsIds(q: seq<Entry>, i: nat, e: Entry)
    requires i < |q| && e.id == q[i].id
    ensures |RemoveAt(q, i) + [e]| == |q|
    ensures multiset(EntryIds(RemoveAt(q, i) + [e])) == multiset(EntryIds(q))
  {
    var ids := EntryIds(q);
    var r := EntryIds(RemoveAt(q, i) + [e]);
    assert r == ids[..i] + ids[i + 1..] + [ids[i]];
    assert ids == ids[..i] + [ids[i]] + ids[i + 1..];
  }

  /** `defaultdict(int)` read: an absent id counts as 0. */
  function Get(qd: map<Id, real>, id: Id): real {
    if id in qd then qd[id] else 0.0
  }

  // ---------------------------------------------------------------------------------------------
  // update_ready_queue on values

  /** One entry per ready record, in order, keyed by its queued work. */
  function BuildQueue(ready: seq<ReadyRecord>, qd: map<Id, real>): seq<Entry> {
    seq(|ready|, i requires 0 <= i < |ready| => Entry(Get(qd, ready[i].id), ready[i].id, ready[i]))
  }

  /** The rebuilt queue holds exactly the ready ids, each entry keyed by that id's queued work. */
  lemma BuildQueueFacts(ready: seq<ReadyRecord>, qd: map<Id, real>)
    ensures EntryIds(BuildQueue(ready, qd)) == ReadyIds(ready)
    ensures forall i :: 0 <= i < |ready| ==> BuildQueue(ready, qd)[i].key == Get(qd, ready[i].id)
  {
  }

  /** The duration map after reading every id of `ids`: absent ids gain the default 0. */
  function WithDefaults(qd: map<Id, real>, ids: seq<Id>): map<Id, real> {
    if ids == [] then qd
    else
      var m := WithDefaults(qd, ids[..|ids| - 1]);
      if ids[|ids| - 1] in m then m else m[ids[|ids| - 1] := 0.0]
  }

  /** Reading the ready ids adds exactly those missing, at 0, so every read value is as before. */
  lemma {:induction false} WithDefaultsFacts(qd: map<Id, real>, ids: seq<Id>)
    ensures forall k :: k in WithDefaults(qd, ids) <==> k in qd || k in ids
    ensures forall k :: Get(WithDefaults(qd, ids), k) == Get(qd, k)
  {
    if ids != [] {
      WithDefaultsFacts(qd, ids[..|ids| - 1]);
      assert ids == ids[..|ids| - 1] + [ids[|ids| - 1]];
    }
  }

  /** The number of positions of `ids` holding an id of `known`. */
  function CountKnown(ids: seq<Id>, known: seq<Id>): (n: nat)
    ensures n <= |ids|
  {
    if ids == [] then 0
    else CountKnown(ids[..|ids| - 1], known) + (if ids[|ids| - 1] in known then 1 else 0)
  }

  /** No id counts on the first tick, and every id counts when all were ready before. */
  lemma {:induction false} CountKnownBounds(ids: seq<Id>, known: seq<Id>)
    ensures known == [] ==> CountKnown(ids, known) == 0
    ensures (forall i :: 0 <= i < |ids| ==> ids[i] in known) ==> CountKnown(ids, known) == |ids|
  {
    if ids != [] {
      CountKnownBounds(ids[..|ids| - 1], known);
    }
  }

  lemma ReadyIdsSnoc(s: seq<ReadyRecord>, x: ReadyRecord)
    ensures ReadyIds(s + [x]) == ReadyIds(s) + [x.id]
  {
  }

  lemma BuildQueueSnoc(s: seq<ReadyRecord>, x: ReadyRecord, qd: map<Id, real>)
    ensures BuildQueue(s + [x], qd) == BuildQueue(s, qd) + [Entry(Get(qd, x.id), x.id, x)]
  {
  }

  lemma CountKnownSnoc(s: seq<Id>, x: Id, known: seq<Id>)
    ensures CountKnown(s + [x], known) == CountKnown(s, known) + (if x in known then 1 else 0)
  {
    assert (s + [x])[..|s|] == s;
  }

  lemma WithDefaultsSnoc(qd: map<Id, real>, s: seq<Id>, x: Id)
    ensures WithDefaults(qd, s + [x]) == var m := WithDefaults(qd, s); if x in m then m else m[x := 0.0]
  {
    assert (s + [x])[..|s|] == s;
  }

  /** The ids of `ids` that are not in `known`: the ones that get a fresh client. */
  function NewIds(ids: seq<Id>, known: seq<Id>): set<Id> {
    if ids == [] then {}
    else NewIds(ids[..|ids| - 1], known) + (if ids[|ids| - 1] in known then {} else {ids[|ids| - 1]})
  }

  lemma {:induction false} NewIdsMembers(ids: seq<Id>, known: seq<Id>)
    ensures forall id :: id in NewIds(ids, known) <==> id in ids && id !in known
  {
    if ids != [] {
      NewIdsMembers(ids[..|ids| - 1], known);
      assert ids == ids[..|ids| - 1] + [ids[|ids| - 1]];
    }
  }

  lemma NewIdsSnoc(s: seq<Id>, x: Id, known: seq<Id>)
    ensures NewIds(s + [x], known) == NewIds(s, known) + (if x in known then {} else {x})
  {
    assert (s + [x])[..|s|] == s;
  }

  /** A positional argument of a Python call, as far as binding it to a parameter needs. */
  datatype Arg = IdArg(id: Id) | StrArg(s: string)

  /** Binding positional arguments to the client constructor's two parameters, instance_addr and
      mtoken: any other number of arguments raises TypeError, here None. */
  function BindClientArgs(args: seq<Arg>): (r: Option<(Arg, Arg)>)
    ensures r.Some? <==> |args| == 2
    ensures r.Some? ==> r.value.0 == args[0] && r.value.1 == args[1]
  {
    if |args| == 2 then Some((args[0], args[1])) else None
  }

  /** The arguments update_ready_queue passes when it admits a new ready record: its id, its
      address and its key. */
  function AdmissionArgsAsWritten(r: ReadyRecord): seq<Arg> {
    [IdArg(r.id), StrArg(Address(r)), StrArg(r.mtoken)]
  }

  /** As written, admitting any new ready record raises TypeError. */
  lemma AdmissionAsWrittenRaises(r: ReadyRecord)
    ensures BindClientArgs(AdmissionArgsAsWritten(r)) == None
  {
  }

  /** The arguments the constructor expects: the address and the key. */
  function AdmissionArgs(r: ReadyRecord): seq<Arg> {
    [StrArg(Address(r)), StrArg(r.mtoken)]
  }

  /** With the id dropped, the address binds to instance_addr and the key to mtoken, as AdmitAll
      passes them. */
  lemma AdmissionBinds(r: ReadyRecord)
    ensures BindClientArgs(AdmissionArgs(r)) == Some((StrArg(Address(r)), StrArg(r.mtoken)))
  {
  }

  /** Python's binding of positional arguments to `Client.setup_autoscaler(self, autoscaler_args)`:
      it succeeds exactly on one argument, which becomes `autoscaler_args`. */
  function BindSetupArgs(args: seq<Arg>): (r: Option<Arg>)
    ensures r.Some? <==> |args| == 1
    ensures r.Some? ==> r.value == args[0]
  {
    if |args| == 1 then Some(args[0]) else None
  }

  /** The arguments the load balancer's constructor passes to setup_autoscaler: none. */
  function SetupArgsAsWritten(): seq<Arg> {
    []
  }

  /** As written, constructing a load balancer raises TypeError before the first queue is built. */
  lemma SetupAsWrittenRaises()
    ensures BindSetupArgs(SetupArgsAsWritten()) == None
  {
  }

  /** Passing the autoscaler's arguments binds them to `autoscaler_args`. */
  lemma SetupBinds(autoscalerArgs: string)
    ensures BindSetupArgs([StrArg(autoscalerArgs)]) == Some(StrArg(autoscalerArgs))
  {
  }

  /** Every id of `ready` not in `known` has a client for the address and the token of its last
      record in `ready`, which is the one `update_ready_queue` constructs last. */
  predicate ClientsMatch(ready: seq<ReadyRecord>, known: seq<Id>, clients: map<Id, InstanceClient>)
  {
    forall j :: 0 <= j < |ready| && ready[j].id !in known && ready[j].id !in ReadyIds(ready)[j + 1..] ==>
      ready[j].id in clients && clients[ready[j].id].instanceAddr == Address(ready[j]) && clients[ready[j].id].mtoken == ready[j].mtoken
  }

  /** The client bookkeeping of update_ready_queue: every id not ready on the previous tick gets a
      fresh client whose first refill is `fetch(id)`, built from its last record; the other
      clients are kept. */
  method AdmitAll(ready: seq<ReadyRecord>, known: seq<Id>, clients: map<Id, InstanceClient>, fetch: Id -> seq<Token>)
    returns (newClients: map<Id, InstanceClient>)
    ensures forall id :: id in newClients <==> id in clients || id in NewIds(ReadyIds(ready), known)
    ensures forall id :: id in clients && id !in NewIds(ReadyIds(ready), known) ==> newClients[id] == clients[id]
    ensures forall id :: id in NewIds(ReadyIds(ready), known) ==> fresh(newClients[id]) && newClients[id].tokenQueue == fetch(id)
    ensures ClientsMatch(ready, known, newClients)
  {
    var ids := ReadyIds(ready);
    newClients := clients;
    ghost var made: set<Id> := {};
    for i := 0 to |ready|
      invariant made == NewIds(ids[..i], known)
      invariant forall id :: id in newClients <==> id in clients || id in made
      invariant forall id :: id in clients && id !in made ==> newClients[id] == clients[id]
      invariant forall id :: id in made ==> fresh(newClients[id]) && newClients[id].tokenQueue == fetch(id)
      invariant forall j :: 0 <= j < i && ready[j].id !in known && ready[j].id !in ids[j + 1..i] ==>
                  ready[j].id in newClients && newClients[ready[j].id].instanceAddr == Address(ready[j])
                  && newClients[ready[j].id].mtoken == ready[j].mtoken
    {
      assert ids[..i + 1] == ids[..i] + [ids[i]];
      NewIdsSnoc(ids[..i], ids[i], known);
      var id := ready[i].id;
      if id !in known {
        var c := new InstanceClient(Address(ready[i]), ready[i].mtoken, fetch(id));
        newClients := newClients[id := c];
        made := made + {id};
      }
    }
    assert ids[..|ids|] == ids;
  }

  /** The queue part of update_ready_queue: one entry per ready record, keyed by its duration
      (absent durations are read as, and become, 0), the ready ids, and how many were ready on
      the previous tick. */
  method ReadQueue(ready: seq<ReadyRecord>, known: seq<Id>, qd: map<Id, real>)
    returns (q: seq<Entry>, ids: seq<Id>, n: nat, newQd: map<Id, real>)
    ensures q == BuildQueue(ready, qd) && ids == ReadyIds(ready)
    ensures n == CountKnown(ReadyIds(ready), known)
    ensures newQd == WithDefaults(qd, ReadyIds(ready))
  {
    q, ids, n, newQd := [], [], 0, qd;
    for i := 0 to |ready|
      invariant ids == ReadyIds(ready[..i]) && q == BuildQueue(ready[..i], qd)
      invariant n == CountKnown(ids, known)
      invariant newQd == WithDefaults(qd, ids)
    {
      var rec := ready[i];
      assert ready[..i + 1] == ready[..i] + [rec];
      ReadyIdsSnoc(ready[..i], rec);
      BuildQueueSnoc(ready[..i], rec, qd);
      CountKnownSnoc(ids, rec.id, known);
      WithDefaultsSnoc(qd, ids, rec.id);
      WithDefaultsFacts(qd, ids);
      if rec.id in known {
        n := n + 1;
      }
      if rec.id !in newQd {
        newQd := newQd[rec.id := 0.0];
      }
      q := q + [Entry(newQd[rec.id], rec.id, rec)];
      ids := ids + [rec.id];
    }
    assert ready[..|ready|] == ready;
  }

  // ---------------------------------------------------------------------------------------------
  // tick_duration on values

  /** One tick of decay: `max(0, d - 5)`. */
  function Decay(d: real): (r: real)
    ensures r >= 0.0 && r >= d - TimeIntervalSeconds
    ensures r == 0.0 || r == d - TimeIntervalSeconds
    ensures d >= 0.0 ==> r <= d
  {
    if 0.0 >= d - TimeIntervalSeconds then 0.0 else d - TimeIntervalSeconds
  }

  /** `n` ticks of decay with no new work. */
  function DecayTimes(d: real, n: nat): real {
    if n == 0 then d else Decay(DecayTimes(d, n - 1))
  }

  /** After `n` ticks a non-negative duration has lost `5 n`, down to zero and no further. */
  lemma {:induction false} DecayTimesClosed(d: real, n: nat)
    requires d >= 0.0
    ensures DecayTimes(d, n) == if d - n as real * TimeIntervalSeconds > 0.0 then d - n as real * TimeIntervalSeconds else 0.0
  {
    if n > 0 {
      DecayTimesClosed(d, n - 1);
    }
  }

  /** Queued work drains: after `d / 5` ticks (rounded up) with no dispatch the duration is 0. */
  lemma DecayReachesZero(d: real, n: nat)
    requires 0.0 <= d <= n as real * TimeIntervalSeconds
    ensures DecayTimes(d, n) == 0.0
  {
    DecayTimesClosed(d, n);
  }

  datatype Decayed = Decayed(durations: map<Id, real>, total: real)

  /** The loop of tick_duration over the previously ready ids, in order: each duration decays
      once per occurrence and the decayed values are summed. */
  function DecayAll(qd: map<Id, real>, ids: seq<Id>): Decayed
    decreases |ids|
  {
    if ids == [] then Decayed(qd, 0.0)
    else
      var d := Decay(Get(qd, ids[0]));
      var rest := DecayAll(qd[ids[0] := d], ids[1..]);
      Decayed(rest.durations, d + rest.total)
  }

  /** Decay touches only the listed ids, reads absent ones as 0 and keeps every duration
      non-negative and no larger than before; the total is non-negative. */
  lemma {:induction false} DecayAllBounds(qd: map<Id, real>, ids: seq<Id>)
    ensures forall k :: k in DecayAll(qd, ids).durations <==> k in qd || k in ids
    ensures forall k :: k in qd && k !in ids ==> DecayAll(qd, ids).durations[k] == qd[k]
    ensures forall k :: k in ids ==> DecayAll(qd, ids).durations[k] >= 0.0
    ensures (forall k :: k in qd ==> qd[k] >= 0.0) ==>
              forall k :: k in DecayAll(qd, ids).durations ==> 0.0 <= DecayAll(qd, ids).durations[k] <= Get(qd, k)
    ensures DecayAll(qd, ids).total >= 0.0
    decreases |ids|
  {
    if ids != [] {
      var d := Decay(Get(qd, ids[0]));
      var qd1 := qd[ids[0] := d];
      DecayAllBounds(qd1, ids[1..]);
      assert ids == [ids[0]] + ids[1..];
    }
  }

  /** With distinct ids, every listed duration decays exactly once. */
  lemma {:induction false} DecayAllOnce(qd: map<Id, real>, ids: seq<Id>)
    requires NoDup(ids)
    ensures forall i :: 0 <= i < |ids| ==>
              ids[i] in DecayAll(qd, ids).durations && DecayAll(qd, ids).durations[ids[i]] == Decay(Get(qd, ids[i]))
    decreases |ids|
  {
    if ids != [] {
      var d := Decay(Get(qd, ids[0]));
      var qd1 := qd[ids[0] := d];
      assert NoDup(ids[1..]) by {
        assert forall i :: 0 <= i < |ids| - 1 ==> ids[1..][i] == ids[i + 1];
      }
      DecayAllOnce(qd1, ids[1..]);
      DecayAllBounds(qd1, ids[1..]);
      assert ids[0] !in ids[1..] by {
        assert forall i :: 0 <= i < |ids| - 1 ==> ids[1..][i] == ids[i + 1];
      }
      forall i | 0 <= i < |ids|
        ensures ids[i] in DecayAll(qd, ids).durations && DecayAll(qd, ids).durations[ids[i]] == Decay(Get(qd, ids[i]))
      {
        if i > 0 {
          assert ids[1..][i - 1] == ids[i];
          assert ids[i] != ids[0];
        }
      }
    }
  }

  /** `tot_duration / num_soon_ready`, or 0 with an empty queue. */
  function AvgDuration(total: real, queued: nat): real {
    if queued != 0 then total / queued as real else 0.0
  }

  /** The busy count the report evidently means: the busy level scaled by the ready count,
      truncated. */
  function NumBusy(avg: real, numReady: int): int {
    TruncToInt((avg / FullLoadThreshold) * numReady as real)
  }

  /** The busy count as tick_duration computes it: the local `num_ready` it multiplies by is
      set to 0 and never updated. */
  function NumBusyAsWritten(avg: real): int {
    var numReady := 0;
    TruncToInt((avg / FullLoadThreshold) * numReady as real)
  }

  /** As written, every report says no instance is busy, whatever the queued work. */
  lemma NumBusyAsWrittenIsZero(avg: real)
    ensures NumBusyAsWritten(avg) == 0
  {
  }

  /** One instance ready on two consecutive updates, with 10 seconds queued before the tick:
      the decayed average is 5, the busy level 2.0, so the intended count is 2 and the written
      one 0. */
  lemma NumBusyCounterexample()
    ensures var numReady := CountKnown([7], [7]);
            var avg := AvgDuration(DecayAll(map[7 := 10.0], [7]).total, 1);
            numReady == 1 && avg == 5.0 && NumBusy(avg, numReady) == 2 && NumBusyAsWritten(avg) == 0
  {
    assert [7][..0] == [];
    assert DecayAll(map[7 := 10.0], [7]).total == 5.0 by {
      assert [7][1..] == [];
    }
    assert (5.0 / FullLoadThreshold) * 1 as real == 2.0;
  }

  /** The intended busy count: zero with no queued work, the whole ready count at full load, and
      never decreasing as the queued work grows. */
  lemma NumBusyIntended(avg1: real, avg2: real, numReady: nat)
    requires 0.0 <= avg1 <= avg2
    ensures NumBusy(0.0, numReady) == 0
    ensures NumBusy(FullLoadThreshold, numReady) == numReady
    ensures 0 <= NumBusy(avg1, numReady) <= NumBusy(avg2, numReady)
  {
    assert (FullLoadThreshold / FullLoadThreshold) * numReady as real == numReady as real;
    var x, y := (avg1 / FullLoadThreshold) * numReady as real, (avg2 / FullLoadThreshold) * numReady as real;
    assert 0.0 <= x <= y by {
      assert 0.0 <= avg1 / FullLoadThreshold <= avg2 / FullLoadThreshold;
    }
    assert x.Floor as real <= y;
  }

  // ---------------------------------------------------------------------------------------------
  // get_next_addr

  /** What a dispatch yields: no address on an empty queue (where the source's return of the
      never-assigned token raises), a wait on an instance whose token queue is empty, or an address with a token. */
  datatype Dispatched = Unavailable | Blocked(addr: string) | Acquired(addr: string, token: Token)

  class LoadBalancer {
    var oldReadyIds: seq<Id>
    var readyQueue: seq<Entry>
    var numReady: int
    var queueDuration: map<Id, real>
    var instanceClients: map<Id, InstanceClient>

    /** Every queued and every previously ready id has a token client. */
    ghost predicate Valid()
      reads this
    {
      && (forall i :: 0 <= i < |readyQueue| ==> readyQueue[i].id in instanceClients)
      && (forall i :: 0 <= i < |oldReadyIds| ==> oldReadyIds[i] in instanceClients)
    }

    /** The load balancer starts with nothing and builds its first queue; every ready instance
        then gets a fresh client and none counts as ready yet. This is the constructor with its
        setup request corrected (`SetupAsWrittenRaises`) and its first fetch succeeding. */
    constructor (ready: seq<ReadyRecord>, fetch: Id -> seq<Token>)
      ensures Valid()
      ensures readyQueue == BuildQueue(ready, map[]) && oldReadyIds == ReadyIds(ready) && numReady == 0
      ensures queueDuration == WithDefaults(map[], ReadyIds(ready))
      ensures forall id :: id in instanceClients <==> id in ReadyIds(ready)
      ensures forall id :: id in ReadyIds(ready) ==> instanceClients[id].tokenQueue == fetch(id)
      ensures ClientsMatch(ready, [], instanceClients)
    {
      oldReadyIds, readyQueue, numReady := [], [], 0;
      queueDuration, instanceClients := map[], map[];
      new;
      RebuildReadyQueue(ready, fetch);
      CountKnownBounds(ReadyIds(ready), []);
    }

    /** `update_ready_queue`: fetch the ready list and rebuild the queue from it. A failed fetch
        gives None, over which the loop raises before anything is written: that is `crashed`,
        with the state left as it was. */
    method UpdateReadyQueue(fetched: Option<seq<ReadyRecord>>, fetch: Id -> seq<Token>) returns (crashed: bool)
      requires Valid()
      modifies this`readyQueue, this`oldReadyIds, this`numReady, this`queueDuration, this`instanceClients
      ensures Valid()
      ensures crashed <==> fetched.None?
      ensures fetched.None? ==>
                && readyQueue == old(readyQueue) && oldReadyIds == old(oldReadyIds) && numReady == old(numReady)
                && queueDuration == old(queueDuration) && instanceClients == old(instanceClients)
      ensures fetched.Some? ==>
                var ready := fetched.value;
                && readyQueue == BuildQueue(ready, old(queueDuration))
                && oldReadyIds == ReadyIds(ready)
                && numReady == CountKnown(ReadyIds(ready), old(oldReadyIds))
                && queueDuration == WithDefaults(old(queueDuration), ReadyIds(ready))
                && (forall id :: id in instanceClients <==> id in old(instanceClients) || id in ReadyIds(ready))
                && (forall id :: id in old(instanceClients) && !(id in ReadyIds(ready) && id !in old(oldReadyIds)) ==>
                      instanceClients[id] == old(instanceClients)[id])
                && (forall id :: id in ReadyIds(ready) && id !in old(oldReadyIds) ==>
                      fresh(instanceClients[id]) && instanceClients[id].tokenQueue == fetch(id))
                && ClientsMatch(ready, old(oldReadyIds), instanceClients)
    {
      crashed := fetched.None?;
      if fetched.Some? {
        RebuildReadyQueue(fetched.value, fetch);
      }
    }

    /** The body of update_ready_queue once the ready list has been fetched: rebuild the queue
        from it, remember its ids, count the ones that were ready on the previous tick, and give
        the others fresh clients. */
    method RebuildReadyQueue(ready: seq<ReadyRecord>, fetch: Id -> seq<Token>)
      requires Valid()
      modifies this`readyQueue, this`oldReadyIds, this`numReady, this`queueDuration, this`instanceClients
      ensures Valid()
      ensures readyQueue == BuildQueue(ready, old(queueDuration))
      ensures oldReadyIds == ReadyIds(ready)
      ensures numReady == CountKnown(ReadyIds(ready), old(oldReadyIds))
      ensures queueDuration == WithDefaults(old(queueDuration), ReadyIds(ready))
      ensures forall id :: id in instanceClients <==> id in old(instanceClients) || id in ReadyIds(ready)
      ensures forall id :: id in old(instanceClients) && !(id in ReadyIds(ready) && id !in old(oldReadyIds)) ==>
                instanceClients[id] == old(instanceClients)[id]
      ensures forall id :: id in ReadyIds(ready) && id !in old(oldReadyIds) ==>
                fresh(instanceClients[id]) && instanceClients[id].tokenQueue == fetch(id)
      ensures ClientsMatch(ready, old(oldReadyIds), instanceClients)
    {
      var q, ids, n, qd := ReadQueue(ready, oldReadyIds, queueDuration);
      var clients := AdmitAll(ready, oldReadyIds, instanceClients, fetch);
      BuildQueueFacts(ready, queueDuration);
      NewIdsMembers(ids, oldReadyIds);
      forall i | 0 <= i < |ready| ensures ready[i].id in clients {
        if ready[i].id in oldReadyIds {
          var j :| 0 <= j < |oldReadyIds| && oldReadyIds[j] == ready[i].id;
        }
      }
      readyQueue, oldReadyIds, numReady := q, ids, n;
      queueDuration, instanceClients := qd, clients;
      assert forall i :: 0 <= i < |readyQueue| ==> readyQueue[i].id == ReadyIds(ready)[i];
    }

    /** `tick_duration`: decay the duration of every previously ready id and report the ready
        count and the busy count. The queued keys are left as they were until the next rebuild. */
    method TickDuration() returns (reportHot: int, reportBusy: int)
      modifies this`queueDuration
      ensures queueDuration == DecayAll(old(queueDuration), oldReadyIds).durations
      ensures reportHot == numReady
      ensures reportBusy == NumBusy(AvgDuration(DecayAll(old(queueDuration), oldReadyIds).total, |readyQueue|), numReady)
    {
      var total := 0.0;
      var ids := oldReadyIds;
      ghost var start := queueDuration;
      for i := 0 to |ids|
        invariant DecayAll(start, ids) ==
                  Decayed(DecayAll(queueDuration, ids[i..]).durations, total + DecayAll(queueDuration, ids[i..]).total)
      {
        assert ids[i..][1..] == ids[i + 1..];
        var prev := Get(queueDuration, ids[i]);
        var curr := if 0.0 >= prev - TimeIntervalSeconds then 0.0 else prev - TimeIntervalSeconds;
        queueDuration := queueDuration[ids[i] := curr];
        total := total + curr;
      }
      var avg := AvgDuration(total, |readyQueue|);
      reportHot, reportBusy := numReady, NumBusy(avg, numReady);
    }

    /** `get_next_addr`: pop the entry with the least (duration, id), take one token from its
        instance, charge `num_tokens / 35` seconds to that instance and push it back with the new
        duration. Nothing else changes. */
    method GetNextAddr(numTokens: real) returns (r: Dispatched)
      requires Valid()
      modifies this`readyQueue, this`queueDuration, instanceClients.Values
      ensures Valid()
      ensures old(readyQueue) == [] ==> r == Unavailable && readyQueue == [] && queueDuration == old(queueDuration)
      ensures old(readyQueue) == [] ==> forall c :: c in instanceClients.Values ==> c.tokenQueue == old(c.tokenQueue)
      ensures old(readyQueue) != [] ==>
                var i := MinIndex(old(readyQueue));
                var e := old(readyQueue)[i];
                var c := instanceClients[e.id];
                && (forall d :: d in instanceClients.Values && d != c ==> d.tokenQueue == old(d.tokenQueue))
                && (old(c.tokenQueue) == [] ==>
                      r == Blocked(Address(e.rec)) && readyQueue == RemoveAt(old(readyQueue), i)
                      && queueDuration == old(queueDuration) && c.tokenQueue == [])
                && (old(c.tokenQueue) != [] ==>
                      && r == Acquired(Address(e.rec), old(c.tokenQueue)[0])
                      && c.tokenQueue == old(c.tokenQueue)[1..]
                      && queueDuration == old(queueDuration)[e.id := Get(old(queueDuration), e.id) + (1.0 / DefaultTps) * numTokens]
                      && readyQueue == RemoveAt(old(readyQueue), i) + [Entry(queueDuration[e.id], e.id, e.rec)])
    {
      if |readyQueue| == 0 {
        return Unavailable;
      }
      var i := MinIndex(readyQueue);
      var e := readyQueue[i];
      readyQueue := RemoveAt(readyQueue, i);
      var addr := Address(e.rec);
      var c := instanceClients[e.id];
      var token := c.Take();
      if token.None? {
        return Blocked(addr);
      }
      queueDuration := queueDuration[e.id := Get(queueDuration, e.id) + (1.0 / DefaultTps) * numTokens];
      readyQueue := readyQueue + [Entry(queueDuration[e.id], e.id, e.rec)];
      r := Acquired(addr, token.value);
    }
  }
}
