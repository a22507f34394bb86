// The comparison engine as one state machine: the event handlers of
// compareGrpcEndpoints. Stream transport, keepalive pings and logging are
// outside the model; every inbound event and every timer callback is a
// method the single-threaded event loop invokes, with the clock reading as
// an argument.

module Engine {
  import opened Aggregation
  import Reporting

  datatype Option<T> = None | Some(value: T)

  /** Delay of the one-shot availability check: a third of the test
      duration, rounded down, but at most five seconds. */
  function AvailabilityDelay(testDurationSec: int): (ms: int)
    ensures ms <= 5000
    ensures 3 * ms <= testDurationSec * 1000
    ensures ms == 5000 || testDurationSec * 1000 < 3 * ms + 3
  {
    var third := (testDurationSec * 1000) / 3;
    if third < 5000 then third else 5000
  }

  /** Every buffered entry of a slot-keyed buffer belongs to its slot and
      comes from a configured endpoint. */
  ghost predicate BuffersIn(m: map<int, seq<BlockData>>, names: set<string>)
  {
    forall s :: s in m ==> forall i :: 0 <= i < |m[s]| ==> m[s][i].slot == s && m[s][i].endpoint in names
  }

  /** No slot of the buffer has an empty list. */
  ghost predicate NoEmptyList(m: map<int, seq<BlockData>>)
  {
    forall s :: s in m ==> |m[s]| > 0
  }

  lemma BufferSlot(m: map<int, seq<BlockData>>, names: set<string>, s: int)
    requires BuffersIn(m, names) && s in m
    ensures EndpointsIn(m[s], names)
  {
    forall j | 0 <= j < |m[s]|
      ensures m[s][j].endpoint in names
    {
    }
  }

  /** Appends an entry to the list of its slot, creating the list if needed. */
  function Record(m: map<int, seq<BlockData>>, bd: BlockData): map<int, seq<BlockData>>
  {
    m[bd.slot := (if bd.slot in m then m[bd.slot] else []) + [bd]]
  }

  /** The buffer without the slots below `bound`. */
  function Evicted(m: map<int, seq<BlockData>>, bound: int): map<int, seq<BlockData>>
  {
    map s | s in m && s >= bound :: m[s]
  }

  lemma RecordKeepsBuffers(m: map<int, seq<BlockData>>, names: set<string>, bd: BlockData)
    requires BuffersIn(m, names) && bd.endpoint in names
    ensures BuffersIn(Record(m, bd), names)
  {
    var r: map<int, seq<BlockData>> := Record(m, bd);
    forall s: int | s in r
      ensures forall i: int :: 0 <= i < |r[s]| ==> r[s][i].slot == s && r[s][i].endpoint in names
    {
      if s == bd.slot && s in m {
        BufferSlot(m, names, s);
      }
    }
  }

  lemma EvictedKeepsBuffers(m: map<int, seq<BlockData>>, names: set<string>, bound: int)
    requires BuffersIn(m, names)
    ensures BuffersIn(Evicted(m, bound), names)
  {
  }

  function Unavailable(st: EndpointStats): EndpointStats
  {
    st.(isAvailable := false)
  }

  function MarkedReceived(st: EndpointStats): EndpointStats
  {
    st.(hasReceivedData := true)
  }

  /** The records after `ep` delivered a slot. */
  function Marked(stats: map<string, EndpointStats>, ep: string): map<string, EndpointStats>
    requires ep in stats
  {
    stats[ep := MarkedReceived(stats[ep])]
  }

  /** The check interval shows progress exactly during the first second of
      every fifth second after the start (elapsed milliseconds `d`). */
  lemma ProgressMarks(d: int)
    ensures (d / 1000 % 5 == 0 && d / 1000 > 0) <==> (d >= 5000 && d % 5000 < 1000)
  {
    var q, r := d / 1000, d % 1000;
    assert d == 1000 * q + r && 0 <= r < 1000;
    var a, b := q / 5, q % 5;
    assert q == 5 * a + b && 0 <= b < 5;
    assert d == 5000 * a + (1000 * b + r);
    assert 0 <= 1000 * b + r < 5000;
    assert d / 5000 == a && d % 5000 == 1000 * b + r;
  }

  /** Every record is balanced, available exactly when its endpoint is
      active, and marked as having data exactly when its first slot came. */
  ghost predicate StatsAgree(stats: map<string, EndpointStats>, active: set<string>, received: map<string, bool>)
  {
    forall e :: e in stats ==>
      && Balanced(stats[e])
      && (stats[e].isAvailable <==> e in active)
      && e in received && stats[e].hasReceivedData == received[e]
  }

  lemma MarkKeepsAgreement(stats: map<string, EndpointStats>, active: set<string>, received: map<string, bool>,
                           ep: string)
    requires StatsAgree(stats, active, received) && ep in stats
    ensures StatsAgree(Marked(stats, ep), active, received[ep := true])
  {
  }

  lemma DeactivateKeepsAgreement(stats: map<string, EndpointStats>, active: set<string>,
                                 received: map<string, bool>, ep: string)
    requires StatsAgree(stats, active, received) && ep in stats
    ensures StatsAgree(stats[ep := Unavailable(stats[ep])], active - {ep}, received)
  {
  }

  lemma AggregateKeepsAgreement(stats: map<string, EndpointStats>, active: set<string>,
                                received: map<string, bool>, list: seq<BlockData>)
    requires StatsAgree(stats, active, received)
    requires Complete(active, list) && |list| > 0 && active <= stats.Keys
    ensures EndpointsIn(list, stats.Keys)
    ensures StatsAgree(Aggregate(stats, active, list), active, received)
  {
    AggregateCreditsEachOnce(stats, active, list);
    AggregateComplete(stats, active, list);
  }

  /** The records after the availability check marked every endpoint
      without data unavailable and removed it from the active set. */
  lemma CheckKeepsAgreement(stats: map<string, EndpointStats>, active: set<string>, received: map<string, bool>,
                            stats': map<string, EndpointStats>, active': set<string>)
    requires StatsAgree(stats, active, received)
    requires stats'.Keys == stats.Keys
    requires forall e :: e in stats' ==>
      stats'[e] == if e in received && received[e] then stats[e] else Unavailable(stats[e])
    requires forall e :: e in active' <==> e in active && e in received && received[e]
    ensures StatsAgree(stats', active', received)
  {
  }

  /** Number of endpoint records that have seen data. */
  function ReceivedCount(stats: map<string, EndpointStats>): nat
  {
    |set e | e in stats && stats[e].hasReceivedData|
  }

  /** The entries of a pending list that come from an active endpoint that
      has received data, in order. */
  function ActiveData(list: seq<BlockData>, active: set<string>, stats: map<string, EndpointStats>)
    : (r: seq<BlockData>)
    requires EndpointsIn(list, stats.Keys)
    ensures EndpointsIn(r, stats.Keys)
    ensures forall i :: 0 <= i < |r| ==> r[i].endpoint in active && stats[r[i].endpoint].hasReceivedData
    ensures |r| <= |list| && (forall i :: 0 <= i < |r| ==> r[i] in list)
    ensures forall i :: 0 <= i < |list| && list[i].endpoint in active && stats[list[i].endpoint].hasReceivedData ==>
      list[i] in r
  {
    if list == [] then []
    else
      var p, bd := list[..|list| - 1], list[|list| - 1];
      assert EndpointsIn(p, stats.Keys) by {
        assert forall i :: 0 <= i < |p| ==> p[i] == list[i];
      }
      var rest := ActiveData(p, active, stats);
      if bd.endpoint in active && stats[bd.endpoint].hasReceivedData then rest + [bd] else rest
  }

  /** What replaying the pending slots in `order` does to the records: a
      slot already present in `bySlot` is skipped; otherwise its entries
      from active endpoints with data are aggregated when there are at
      least two of them. */
  function Replay(stats: map<string, EndpointStats>, active: set<string>,
                  bySlot: map<int, seq<BlockData>>, pending: map<int, seq<BlockData>>, order: seq<int>)
    : (r: map<string, EndpointStats>)
    requires forall k :: 0 <= k < |order| ==> order[k] in pending
    requires BuffersIn(pending, stats.Keys)
    ensures r.Keys == stats.Keys
  {
    if order == [] then stats
    else
      var st := Replay(stats, active, bySlot, pending, order[..|order| - 1]);
      var slot := order[|order| - 1];
      if slot in bySlot then st
      else
        var data := ActiveData(pending[slot], active, st);
        if |data| >= 2 then Aggregate(st, active, data) else st
  }

  /** When every pending slot is also in `bySlot`, the replay changes no
      record. */
  lemma {:induction false} ReplaySkipsAll(stats: map<string, EndpointStats>, active: set<string>,
                                          bySlot: map<int, seq<BlockData>>, pending: map<int, seq<BlockData>>,
                                          order: seq<int>)
    requires forall k :: 0 <= k < |order| ==> order[k] in pending && order[k] in bySlot
    requires BuffersIn(pending, stats.Keys)
    ensures Replay(stats, active, bySlot, pending, order) == stats
  {
    if order != [] {
      ReplaySkipsAll(stats, active, bySlot, pending, order[..|order| - 1]);
    }
  }

  /** One more slot of the replay, in the terms the replay loop uses. */
  lemma ReplayStep(stats: map<string, EndpointStats>, active: set<string>,
                   bySlot: map<int, seq<BlockData>>, pending: map<int, seq<BlockData>>, order: seq<int>, i: nat)
    requires i < |order|
    requires forall k :: 0 <= k < |order| ==> order[k] in pending
    requires BuffersIn(pending, stats.Keys)
    ensures EndpointsIn(pending[order[i]], stats.Keys)
    ensures var st := Replay(stats, active, bySlot, pending, order[..i]);
            Replay(stats, active, bySlot, pending, order[..i + 1])
            == if order[i] in bySlot then st
               else
                 var data := ActiveData(pending[order[i]], active, st);
                 if |data| >= 2 then Aggregate(st, active, data) else st
  {
    BufferSlot(pending, stats.Keys, order[i]);
    assert order[..i + 1][..i] == order[..i];
  }

  /** Counts a group once for every active endpoint with an entry in it. */
  method CountReceivedFor(stats: map<string, EndpointStats>, active: set<string>, list: seq<BlockData>)
    returns (r: map<string, EndpointStats>)
    requires active <= stats.Keys
    ensures r == CountReceived(stats, active, list)
  {
    r := stats;
    var remaining := active;
    while remaining != {}
      invariant remaining <= active
      invariant r.Keys == stats.Keys
      invariant forall e :: e in r ==>
        r[e] == if e in active - remaining && e in Endpoints(list) then Counted(stats[e]) else stats[e]
      decreases remaining
    {
      var endpoint :| endpoint in remaining;
      if endpoint in Endpoints(list) {
        r := r[endpoint := Counted(r[endpoint])];
      }
      remaining := remaining - {endpoint};
    }
  }

  /** Credits every entry of a group against the earliest arrival. */
  method CreditLatencies(stats: map<string, EndpointStats>, list: seq<BlockData>, earliest: int)
    returns (r: map<string, EndpointStats>)
    requires EndpointsIn(list, stats.Keys)
    ensures r == CreditAll(stats, list, earliest)
  {
    r := stats;
    for i := 0 to |list|
      invariant EndpointsIn(list[..i], stats.Keys)
      invariant r == CreditAll(stats, list[..i], earliest)
    {
      var bd := list[i];
      var latency := bd.timestamp - earliest;
      var st := r[bd.endpoint];
      if latency > 0 {
        r := r[bd.endpoint := st.(latencies := st.latencies + [latency], totalLatency := st.totalLatency + latency)];
      } else {
        r := r[bd.endpoint := st.(firstReceived := st.firstReceived + 1)];
      }
      assert list[..i + 1][..i] == list[..i];
    }
    assert list[..|list|] == list;
  }

  /** Aggregates one group of entries: counts it for the active endpoints
      with an entry, then credits each entry against the earliest one. */
  method AggregateGroup(stats: map<string, EndpointStats>, active: set<string>, list: seq<BlockData>)
    returns (r: map<string, EndpointStats>)
    requires |list| > 0 && EndpointsIn(list, stats.Keys) && active <= stats.Keys
    ensures r == Aggregate(stats, active, list)
  {
    var counted := CountReceivedFor(stats, active, list);
    var earliestTimestamp := Earliest(list);
    r := CreditLatencies(counted, list, earliestTimestamp);
  }

  /** Aggregates a complete group; the records keep agreeing with the
      active set and the first-slot flags. */
  method AggregateAgreeing(stats: map<string, EndpointStats>, active: set<string>,
                           received: map<string, bool>, list: seq<BlockData>) returns (r: map<string, EndpointStats>)
    requires StatsAgree(stats, active, received)
    requires Complete(active, list) && |list| > 0 && active <= stats.Keys
    ensures EndpointsIn(list, stats.Keys)
    ensures r == Aggregate(stats, active, list)
    ensures r.Keys == stats.Keys && StatsAgree(r, active, received)
  {
    AggregateKeepsAgreement(stats, active, received, list);
    r := AggregateGroup(stats, active, list);
  }

  lemma {:induction false} SubsetNoLarger(a: set<string>, b: set<string>)
    requires a <= b
    ensures |a| <= |b|
    decreases b
  {
    if a != {} {
      var y :| y in a;
      SubsetNoLarger(a - {y}, b - {y});
    }
  }

  /** The loop of the availability check: walking the configured endpoints
      in order, each one that has not delivered a slot is marked
      unavailable and dropped from the active set. */
  method CheckAvailability(endpoints: seq<string>, stats: map<string, EndpointStats>, active: set<string>,
                           received: map<string, bool>)
    returns (stats': map<string, EndpointStats>, active': set<string>)
    requires stats.Keys == received.Keys == (set e | e in endpoints) && active <= stats.Keys
    ensures stats'.Keys == stats.Keys
    ensures forall e :: e in stats' ==>
      stats'[e] == if received[e] then stats[e] else Unavailable(stats[e])
    ensures forall e :: e in active' <==> e in active && e in received && received[e]
  {
    stats', active' := stats, active;
    ghost var seen: set<string> := {};
    for i := 0 to |endpoints|
      invariant seen <= stats.Keys && forall j :: 0 <= j < i ==> endpoints[j] in seen
      invariant stats'.Keys == stats.Keys
      invariant forall e :: e in active' <==> e in active && (e in seen ==> received[e])
      invariant forall e :: e in stats' ==>
        stats'[e] == if e in seen && !received[e] then Unavailable(stats[e]) else stats[e]
    {
      var name := endpoints[i];
      if !received[name] {
        stats' := stats'[name := Unavailable(stats'[name])];
        active' := active' - {name};
      }
      seen := seen + {name};
    }
    assert seen == stats.Keys;
  }

  class Comparison {
    const endpoints: seq<string>
    const names: set<string>
    const testDurationSec: int
    const startTime: int
    const endTime: int
    const availabilityDelay: int

    var activeEndpoints: set<string>
    var firstSlotReceived: map<string, bool>
    var endpointStats: map<string, EndpointStats>
    var blockDataBySlot: map<int, seq<BlockData>>
    var pendingBlockData: map<int, seq<BlockData>>
    // keys of pendingBlockData in insertion order, the order its replay visits them
    var pendingOrder: seq<int>
    var startedFormalStats: bool
    // the one-shot availability timeout and the one-second check interval
    var availabilityTimerArmed: bool
    var checkIntervalArmed: bool

    // slots whose group was aggregated and which are still buffered
    ghost var completedSlots: set<int>
    // whether the availability check has run
    ghost var availabilityChecked: bool

    /** Records and first-slot flags for exactly the configured endpoints;
        the active endpoints are among them. */
    ghost predicate Shape()
      reads this`endpointStats, this`firstSlotReceived, this`activeEndpoints
    {
      && names == (set e | e in endpoints)
      && endpointStats.Keys == names
      && firstSlotReceived.Keys == names
      && activeEndpoints <= names
    }

    /** Buffers hold entries of their slot from configured endpoints, and the
        pending key order lists each pending key once. */
    ghost predicate Buffers()
      reads this`blockDataBySlot, this`pendingBlockData, this`pendingOrder
    {
      && BuffersIn(blockDataBySlot, names)
      && NoEmptyList(blockDataBySlot)
      && BuffersIn(pendingBlockData, names)
      && (forall k :: 0 <= k < |pendingOrder| ==> pendingOrder[k] in pendingBlockData)
      && (forall s :: s in pendingBlockData ==> s in pendingOrder)
      && (forall i, j :: 0 <= i < j < |pendingOrder| ==> pendingOrder[i] != pendingOrder[j])
    }

    ghost predicate WellFormed()
      reads this
    {
      Shape() && Buffers()
    }

    /** Entries are recorded by slot before they are kept as pending, and
        pending data exists only before formal statistics. */
    ghost predicate PendingRecorded()
      reads this`blockDataBySlot, this`pendingBlockData, this`pendingOrder, this`startedFormalStats,
            this`completedSlots
    {
      && pendingBlockData.Keys <= blockDataBySlot.Keys
      && (startedFormalStats ==> pendingBlockData == map[] && pendingOrder == [])
      && (!startedFormalStats ==> completedSlots == {})
    }

    /** An aggregated slot that is still buffered never has fewer entries
        than there are active endpoints. */
    ghost predicate GroupsCovered()
      reads this`completedSlots, this`blockDataBySlot, this`activeEndpoints
    {
      forall s :: s in completedSlots ==> s in blockDataBySlot && |blockDataBySlot[s]| >= |activeEndpoints|
    }

    /** After the availability check, only endpoints with data are active. */
    ghost predicate CheckedActive()
      reads this`availabilityChecked, this`activeEndpoints, this`firstSlotReceived
    {
      availabilityChecked ==> forall e :: e in activeEndpoints ==> e in firstSlotReceived && firstSlotReceived[e]
    }

    ghost predicate Valid()
      reads this
    {
      && WellFormed()
      && PendingRecorded()
      && StatsAgree(endpointStats, activeEndpoints, firstSlotReceived)
      && GroupsCovered()
      && CheckedActive()
    }

    /** Initialisation: every endpoint active, available and without data;
        both buffers empty; formal statistics not started; both timers
        armed. */
    constructor (endpoints: seq<string>, testDurationSec: int, startTime: int)
      ensures Valid()
      ensures this.endpoints == endpoints && this.testDurationSec == testDurationSec
      ensures this.startTime == startTime && endTime == startTime + testDurationSec * 1000
      ensures availabilityDelay == AvailabilityDelay(testDurationSec)
      ensures activeEndpoints == names
      ensures forall e :: e in names ==> firstSlotReceived[e] == false && endpointStats[e] == InitialStats
      ensures blockDataBySlot == map[] && pendingBlockData == map[] && pendingOrder == []
      ensures !startedFormalStats && availabilityTimerArmed && checkIntervalArmed
    {
      var received: map<string, bool> := map[];
      var active: set<string> := {};
      for i := 0 to |endpoints|
        invariant forall e :: e in received <==> e in endpoints[..i]
        invariant forall e :: e in received ==> received[e] == false
        invariant forall e :: e in active <==> e in endpoints[..i]
      {
        received := received[endpoints[i] := false];
        active := active + {endpoints[i]};
      }
      var stats: map<string, EndpointStats> := map[];
      for i := 0 to |endpoints|
        invariant forall e :: e in stats <==> e in endpoints[..i]
        invariant forall e :: e in stats ==> stats[e] == InitialStats
      {
        stats := stats[endpoints[i] := InitialStats];
      }
      assert endpoints[..|endpoints|] == endpoints;
      this.endpoints := endpoints;
      this.testDurationSec := testDurationSec;
      this.startTime := startTime;
      endTime := startTime + testDurationSec * 1000;
      availabilityDelay := AvailabilityDelay(testDurationSec);
      names := set e | e in endpoints;
      activeEndpoints := active;
      firstSlotReceived := received;
      endpointStats := stats;
      blockDataBySlot := map[];
      pendingBlockData := map[];
      pendingOrder := [];
      startedFormalStats := false;
      availabilityTimerArmed := true;
      checkIntervalArmed := true;
      completedSlots := {};
      availabilityChecked := false;
    }

    /** End of test: clear the timers, then reduce the records to the
        report. (Closing the streams lies outside the model.) There is no
        guard: every call produces the report again. */
    method EndTest() returns (report: Reporting.Report)
      requires Valid()
      modifies this`availabilityTimerArmed, this`checkIntervalArmed
      ensures Valid()
      ensures unchanged(this`activeEndpoints, this`startedFormalStats)
      ensures unchanged(this`endpointStats, this`firstSlotReceived)
      ensures unchanged(this`blockDataBySlot, this`pendingBlockData)
      ensures unchanged(this`pendingOrder, this`completedSlots)
      ensures !availabilityTimerArmed && !checkIntervalArmed
      ensures report == Reporting.ReportOf(endpoints, endpointStats)
    {
      ClearTimers();
      report := Reporting.ReportOf(endpoints, endpointStats);
    }

    /** Clears the check interval and the availability timeout. */
    method ClearTimers()
      requires Valid()
      modifies this`availabilityTimerArmed, this`checkIntervalArmed
      ensures Valid()
      ensures unchanged(this`activeEndpoints, this`startedFormalStats)
      ensures unchanged(this`endpointStats, this`firstSlotReceived)
      ensures unchanged(this`blockDataBySlot, this`pendingBlockData)
      ensures unchanged(this`pendingOrder, this`completedSlots)
      ensures !availabilityTimerArmed && !checkIntervalArmed
    {
      checkIntervalArmed := false;
      availabilityTimerArmed := false;
    }

    /** Deletes every buffered slot below `bound`. */
    method EvictOldSlots(bound: int)
      modifies this`blockDataBySlot
      ensures forall s :: s in blockDataBySlot <==> s in old(blockDataBySlot) && s >= bound
      ensures forall s :: s in blockDataBySlot ==> blockDataBySlot[s] == old(blockDataBySlot)[s]
      ensures blockDataBySlot == Evicted(old(blockDataBySlot), bound)
    {
      var oldSlots := set s | s in blockDataBySlot && s < bound;
      while oldSlots != {}
        invariant oldSlots <= old(blockDataBySlot).Keys
        invariant forall s :: s in blockDataBySlot <==> s in old(blockDataBySlot) && (s >= bound || s in oldSlots)
        invariant forall s :: s in blockDataBySlot ==> blockDataBySlot[s] == old(blockDataBySlot)[s]
        decreases oldSlots
      {
        var slot :| slot in oldSlots;
        blockDataBySlot := blockDataBySlot - {slot};
        oldSlots := oldSlots - {slot};
      }
    }

    /** Replays the data collected before formal statistics and clears the
        pending buffer. */
    method ProcessCollectedData()
      requires WellFormed()
      modifies this`endpointStats, this`pendingBlockData, this`pendingOrder
      ensures WellFormed()
      ensures unchanged(this`activeEndpoints, this`startedFormalStats)
      ensures unchanged(this`firstSlotReceived, this`blockDataBySlot)
      ensures unchanged(this`completedSlots, this`availabilityChecked)
      ensures endpointStats
        == Replay(old(endpointStats), activeEndpoints, blockDataBySlot, old(pendingBlockData), old(pendingOrder))
      ensures pendingBlockData == map[] && pendingOrder == []
    {
      var stats := endpointStats;
      var i := 0;
      while i < |pendingOrder|
        invariant 0 <= i <= |pendingOrder|
        invariant unchanged(this`endpointStats)
        invariant unchanged(this`pendingBlockData, this`pendingOrder)
        invariant stats.Keys == names
        invariant stats == Replay(endpointStats, activeEndpoints, blockDataBySlot, pendingBlockData, pendingOrder[..i])
      {
        var slot := pendingOrder[i];
        var blockDataList := pendingBlockData[slot];
        ReplayStep(endpointStats, activeEndpoints, blockDataBySlot, pendingBlockData, pendingOrder, i);
        if slot !in blockDataBySlot {
          var activeEndpointData := ActiveData(blockDataList, activeEndpoints, stats);
          if |activeEndpointData| >= 2 {
            stats := AggregateGroup(stats, activeEndpoints, activeEndpointData);
          }
        }
        i := i + 1;
      }
      assert pendingOrder[..i] == pendingOrder;
      endpointStats := stats;
      pendingBlockData := map[];
      pendingOrder := [];
    }

    /** Formal statistics start: the collected data is replayed, which
        leaves every record as it was, since each pending slot is also
        buffered by slot. */
    method StartFormalStats()
      requires Valid() && !startedFormalStats
      modifies this`startedFormalStats, this`endpointStats, this`pendingBlockData, this`pendingOrder
      ensures Valid() && startedFormalStats
      ensures pendingBlockData == map[] && pendingOrder == []
      ensures unchanged(this`endpointStats, this`activeEndpoints, this`firstSlotReceived)
      ensures unchanged(this`blockDataBySlot, this`completedSlots, this`availabilityChecked)
      ensures unchanged(this`availabilityTimerArmed, this`checkIntervalArmed)
    {
      startedFormalStats := true;
      ghost var before := endpointStats;
      ReplaySkipsAll(endpointStats, activeEndpoints, blockDataBySlot, pendingBlockData, pendingOrder);
      ProcessCollectedData();
      assert endpointStats == before;
    }

    /** The first slot an endpoint delivers marks it as having data; when
        that makes every configured endpoint one with data, formal
        statistics start and the collected data is replayed. */
    method MarkFirstSlot(ep: string)
      requires Valid() && ep in names
      modifies this`firstSlotReceived, this`endpointStats, this`startedFormalStats,
               this`pendingBlockData, this`pendingOrder
      ensures Valid()
      ensures firstSlotReceived == old(firstSlotReceived)[ep := true]
      ensures endpointStats == Marked(old(endpointStats), ep)
      ensures startedFormalStats
        == (old(startedFormalStats) || (!old(firstSlotReceived)[ep] && ReceivedCount(endpointStats) == |endpoints|))
      ensures startedFormalStats == old(startedFormalStats)
        ==> pendingBlockData == old(pendingBlockData) && pendingOrder == old(pendingOrder)
      ensures startedFormalStats ==> pendingBlockData == map[] && pendingOrder == []
      ensures unchanged(this`activeEndpoints, this`blockDataBySlot, this`completedSlots, this`availabilityChecked)
    {
      if !firstSlotReceived[ep] {
        MarkReceived(ep);
        if !startedFormalStats {
          var receivedDataCount := ReceivedCount(endpointStats);
          if receivedDataCount == |endpoints| {
            StartFormalStats();
          }
        }
      } else {
        assert endpointStats == Marked(endpointStats, ep);
        assert firstSlotReceived == firstSlotReceived[ep := true];
      }
    }

    /** Notes that `ep` has delivered data. */
    method MarkReceived(ep: string)
      requires Valid() && ep in names
      modifies this`firstSlotReceived, this`endpointStats
      ensures Valid()
      ensures firstSlotReceived == old(firstSlotReceived)[ep := true]
      ensures endpointStats == Marked(old(endpointStats), ep)
      ensures unchanged(this`activeEndpoints, this`blockDataBySlot, this`completedSlots, this`availabilityChecked)
      ensures unchanged(this`startedFormalStats, this`pendingBlockData, this`pendingOrder)
    {
      MarkKeepsAgreement(endpointStats, activeEndpoints, firstSlotReceived, ep);
      firstSlotReceived := firstSlotReceived[ep := true];
      endpointStats := Marked(endpointStats, ep);
    }

    /** Records an entry under its slot and, before formal statistics, also
        as pending. */
    method RecordEntry(bd: BlockData)
      requires Valid() && bd.endpoint in names
      modifies this`blockDataBySlot, this`pendingBlockData, this`pendingOrder
      ensures Valid()
      ensures blockDataBySlot == Record(old(blockDataBySlot), bd)
      ensures pendingBlockData == if startedFormalStats then old(pendingBlockData) else Record(old(pendingBlockData), bd)
      ensures pendingOrder
        == if startedFormalStats || bd.slot in old(pendingBlockData) then old(pendingOrder) else old(pendingOrder) + [bd.slot]
      ensures unchanged(this`activeEndpoints, this`firstSlotReceived, this`endpointStats, this`startedFormalStats)
      ensures unchanged(this`completedSlots, this`availabilityChecked)
    {
      var slot := bd.slot;
      RecordKeepsBuffers(blockDataBySlot, names, bd);
      RecordKeepsBuffers(pendingBlockData, names, bd);
      blockDataBySlot := Record(blockDataBySlot, bd);
      if !startedFormalStats {
        if slot !in pendingBlockData {
          pendingOrder := pendingOrder + [slot];
        }
        pendingBlockData := Record(pendingBlockData, bd);
      }
    }

    /** In formal statistics, a slot's group is aggregated when its list has
        exactly as many entries as there are active endpoints and every
        active endpoint is among them; then the slots more than 100 below
        it are evicted. */
    method CheckGroup(slot: int) returns (completed: bool)
      requires Valid() && startedFormalStats && slot in blockDataBySlot
      requires slot in completedSlots ==> |blockDataBySlot[slot]| > |activeEndpoints|
      modifies this`endpointStats, this`blockDataBySlot, this`completedSlots
      ensures Valid()
      ensures EndpointsIn(old(blockDataBySlot)[slot], old(endpointStats).Keys)
      ensures completed <==> Complete(activeEndpoints, old(blockDataBySlot)[slot])
      ensures completed ==> slot !in old(completedSlots)
      ensures endpointStats
        == if completed then Aggregate(old(endpointStats), activeEndpoints, old(blockDataBySlot)[slot])
           else old(endpointStats)
      ensures blockDataBySlot == if completed then Evicted(old(blockDataBySlot), slot - 100) else old(blockDataBySlot)
      ensures completedSlots
        == if completed then (old(completedSlots) + {slot}) * blockDataBySlot.Keys else old(completedSlots)
      ensures unchanged(this`activeEndpoints, this`firstSlotReceived, this`startedFormalStats)
      ensures unchanged(this`pendingBlockData, this`pendingOrder, this`availabilityChecked)
    {
      var activeEndpointCount := |activeEndpoints|;
      var blockDataList := blockDataBySlot[slot];
      BufferSlot(blockDataBySlot, names, slot);
      if |blockDataList| == activeEndpointCount && activeEndpoints <= Endpoints(blockDataList) {
        var aggregated := AggregateAgreeing(endpointStats, activeEndpoints, firstSlotReceived, blockDataList);
        InstallStats(aggregated, slot);
        RetireSlotsBelow(slot - 100);
        completed := true;
      } else {
        completed := false;
      }
    }

    /** Stores the records of an aggregated group and notes its slot as
        aggregated. */
    method InstallStats(stats: map<string, EndpointStats>, slot: int)
      requires Valid() && startedFormalStats && slot in blockDataBySlot
      requires |blockDataBySlot[slot]| == |activeEndpoints|
      requires stats.Keys == endpointStats.Keys && StatsAgree(stats, activeEndpoints, firstSlotReceived)
      modifies this`endpointStats, this`completedSlots
      ensures Valid()
      ensures endpointStats == stats && completedSlots == old(completedSlots) + {slot}
      ensures unchanged(this`activeEndpoints, this`blockDataBySlot)
      ensures unchanged(this`firstSlotReceived, this`startedFormalStats)
      ensures unchanged(this`pendingBlockData, this`pendingOrder, this`availabilityChecked)
    {
      endpointStats := stats;
      completedSlots := completedSlots + {slot};
    }

    /** Evicts the slots below `bound`; they are no longer aggregated groups. */
    method RetireSlotsBelow(bound: int)
      requires Valid() && startedFormalStats
      modifies this`blockDataBySlot, this`completedSlots
      ensures Valid()
      ensures blockDataBySlot == Evicted(old(blockDataBySlot), bound)
      ensures completedSlots == old(completedSlots) * blockDataBySlot.Keys
      ensures unchanged(this`activeEndpoints, this`endpointStats)
      ensures unchanged(this`firstSlotReceived, this`startedFormalStats)
      ensures unchanged(this`pendingBlockData, this`pendingOrder, this`availabilityChecked)
    {
      EvictedKeepsBuffers(blockDataBySlot, names, bound);
      EvictOldSlots(bound);
      completedSlots := completedSlots * blockDataBySlot.Keys;
    }

    /** A slot message from `ep`, received at time `now`. Returns whether
        the message completed its slot's group. */
    method OnSlot(ep: string, slot: int, now: int) returns (completed: bool)
      requires Valid() && ep in names
      modifies this`firstSlotReceived, this`endpointStats, this`startedFormalStats,
               this`pendingBlockData, this`pendingOrder, this`blockDataBySlot, this`completedSlots
      ensures Valid()
      ensures firstSlotReceived == old(firstSlotReceived)[ep := true]
      ensures startedFormalStats
        == (old(startedFormalStats)
            || (!old(firstSlotReceived)[ep] && ReceivedCount(Marked(old(endpointStats), ep)) == |endpoints|))
      ensures var bd := BlockData(ep, slot, now);
              pendingBlockData == (if startedFormalStats then map[] else Record(old(pendingBlockData), bd))
      ensures completed <==> startedFormalStats && Complete(activeEndpoints, Record(old(blockDataBySlot), BlockData(ep, slot, now))[slot])
      ensures completed ==> slot !in old(completedSlots)
      ensures completed ==>
        EndpointsIn(Record(old(blockDataBySlot), BlockData(ep, slot, now))[slot], old(endpointStats).Keys)
      ensures var list := Record(old(blockDataBySlot), BlockData(ep, slot, now))[slot];
              endpointStats
              == if completed then Aggregate(Marked(old(endpointStats), ep), activeEndpoints, list)
                 else Marked(old(endpointStats), ep)
      ensures var recorded := Record(old(blockDataBySlot), BlockData(ep, slot, now));
              blockDataBySlot == if completed then Evicted(recorded, slot - 100) else recorded
      ensures completedSlots
        == if completed then (old(completedSlots) + {slot}) * blockDataBySlot.Keys else old(completedSlots)
      ensures pendingOrder
        == if startedFormalStats then []
           else if slot in old(pendingBlockData) then old(pendingOrder) else old(pendingOrder) + [slot]
    {
      MarkFirstSlot(ep);
      var bd := BlockData(ep, slot, now);
      RecordEntry(bd);
      if !startedFormalStats {
        completed := false;
        return;
      }
      completed := CheckGroup(slot);
    }

    /** The one-shot availability check: endpoints that have not delivered a
        slot become unavailable; then formal statistics start if at least
        two endpoints remain active, or the test ends early if fewer do. */
    method OnAvailabilityCheck() returns (report: Option<Reporting.Report>)
      requires Valid() && availabilityTimerArmed
      modifies this`endpointStats, this`activeEndpoints, this`availabilityTimerArmed, this`availabilityChecked,
               this`checkIntervalArmed, this`startedFormalStats, this`pendingBlockData, this`pendingOrder
      ensures Valid()
      ensures !availabilityTimerArmed && availabilityChecked
      ensures forall e :: e in activeEndpoints <==> e in old(activeEndpoints) && firstSlotReceived[e]
      ensures unchanged(this`firstSlotReceived)
      ensures endpointStats.Keys == old(endpointStats).Keys
      ensures forall e :: e in endpointStats ==>
        endpointStats[e] == if firstSlotReceived[e] then old(endpointStats)[e] else Unavailable(old(endpointStats)[e])
      ensures startedFormalStats == (old(startedFormalStats) || |activeEndpoints| >= 2)
      ensures report.Some? <==> !old(startedFormalStats) && |activeEndpoints| < 2
      ensures report.Some? ==> report.value == Reporting.ReportOf(endpoints, endpointStats)
      ensures checkIntervalArmed == (old(checkIntervalArmed) && report.None?)
      ensures unchanged(this`blockDataBySlot, this`completedSlots)
      ensures pendingBlockData == if startedFormalStats then map[] else old(pendingBlockData)
      ensures pendingOrder == if startedFormalStats then [] else old(pendingOrder)
    {
      ApplyAvailabilityCheck();
      if !startedFormalStats && |activeEndpoints| >= 2 {
        StartFormalStats();
        report := None;
      } else if !startedFormalStats && |activeEndpoints| < 2 {
        var r := EndTest();
        report := Some(r);
      } else {
        report := None;
      }
    }

    /** Marks every endpoint without data unavailable and inactive, and
        notes that the check has run. */
    method ApplyAvailabilityCheck()
      requires Valid() && availabilityTimerArmed
      modifies this`endpointStats, this`activeEndpoints, this`availabilityTimerArmed, this`availabilityChecked
      ensures Valid()
      ensures !availabilityTimerArmed && availabilityChecked
      ensures forall e :: e in activeEndpoints <==> e in old(activeEndpoints) && firstSlotReceived[e]
      ensures endpointStats.Keys == old(endpointStats).Keys
      ensures forall e :: e in endpointStats ==>
        endpointStats[e] == if firstSlotReceived[e] then old(endpointStats)[e] else Unavailable(old(endpointStats)[e])
      ensures unchanged(this`firstSlotReceived, this`blockDataBySlot, this`completedSlots, this`checkIntervalArmed)
      ensures unchanged(this`startedFormalStats, this`pendingBlockData, this`pendingOrder)
    {
      var stats, active := CheckAvailability(endpoints, endpointStats, activeEndpoints, firstSlotReceived);
      CheckKeepsAgreement(endpointStats, activeEndpoints, firstSlotReceived, stats, active);
      SubsetNoLarger(active, activeEndpoints);
      endpointStats := stats;
      activeEndpoints := active;
      availabilityTimerArmed := false;
      availabilityChecked := true;
    }

    /** Marks `ep` unavailable and removes it from the active set. */
    method Deactivate(ep: string)
      requires Valid() && ep in names
      modifies this`endpointStats, this`activeEndpoints
      ensures Valid()
      ensures activeEndpoints == old(activeEndpoints) - {ep}
      ensures endpointStats == old(endpointStats)[ep := Unavailable(old(endpointStats)[ep])]
    {
      DeactivateKeepsAgreement(endpointStats, activeEndpoints, firstSlotReceived, ep);
      SubsetNoLarger(activeEndpoints - {ep}, activeEndpoints);
      endpointStats := endpointStats[ep := Unavailable(endpointStats[ep])];
      activeEndpoints := activeEndpoints - {ep};
    }

    /** A stream error on `ep`: it becomes unavailable and inactive; the test
        ends early when fewer than two endpoints remain active before formal
        statistics. */
    method OnStreamError(ep: string) returns (report: Option<Reporting.Report>)
      requires Valid() && ep in names
      modifies this`endpointStats, this`activeEndpoints, this`availabilityTimerArmed, this`checkIntervalArmed
      ensures Valid()
      ensures activeEndpoints == old(activeEndpoints) - {ep}
      ensures endpointStats == old(endpointStats)[ep := Unavailable(old(endpointStats)[ep])]
      ensures report.Some? <==> |activeEndpoints| < 2 && !startedFormalStats
      ensures report.Some? ==> report.value == Reporting.ReportOf(endpoints, endpointStats)
      ensures report.Some? ==> !availabilityTimerArmed && !checkIntervalArmed
      ensures report.None? ==>
        availabilityTimerArmed == old(availabilityTimerArmed) && checkIntervalArmed == old(checkIntervalArmed)
    {
      Deactivate(ep);
      report := None;
      if |activeEndpoints| < 2 {
        if !startedFormalStats {
          var r := EndTest();
          report := Some(r);
        }
      }
    }

    /** A failed connection attempt for `ep`: it becomes unavailable and
        inactive, with no further check. */
    method OnConnectFailure(ep: string)
      requires Valid() && ep in names
      modifies this`endpointStats, this`activeEndpoints
      ensures Valid()
      ensures activeEndpoints == old(activeEndpoints) - {ep}
      ensures endpointStats == old(endpointStats)[ep := Unavailable(old(endpointStats)[ep])]
    {
      Deactivate(ep);
    }

    /** One tick of the one-second check interval at clock reading `now`:
        reports whether a progress line is due, and ends the test once the
        end time is reached. */
    method Tick(now: int) returns (showProgress: bool, report: Option<Reporting.Report>)
      requires Valid() && checkIntervalArmed
      modifies this`availabilityTimerArmed, this`checkIntervalArmed
      ensures Valid()
      ensures showProgress <==> now - startTime >= 5000 && (now - startTime) % 5000 < 1000
      ensures report.Some? <==> now >= endTime
      ensures report.Some? ==> report.value == Reporting.ReportOf(endpoints, endpointStats)
      ensures report.Some? ==> !availabilityTimerArmed && !checkIntervalArmed
      ensures report.None? ==> availabilityTimerArmed == old(availabilityTimerArmed) && checkIntervalArmed
    {
      var elapsedSec := (now - startTime) / 1000;
      showProgress := elapsedSec % 5 == 0 && elapsedSec > 0;
      ProgressMarks(now - startTime);
      report := None;
      if now >= endTime {
        var r := EndTest();
        report := Some(r);
      }
    }
  }
}
