// Slot groups and latency crediting of the gRPC endpoint comparison engine.
// A slot group is the list of notifications that the endpoints delivered for
// one slot, in arrival order; aggregating a group credits every endpoint in
// it either with a first arrival or with a latency relative to the earliest
// arrival.

module Aggregation {

  /** One slot notification as an endpoint delivered it. */
  datatype BlockData = BlockData(endpoint: string, slot: int, timestamp: int)

  /** Running statistics of one endpoint. */
  datatype EndpointStats = EndpointStats(
    totalLatency: int,
    latencies: seq<int>,
    firstReceived: nat,
    totalReceived: nat,
    isAvailable: bool,
    hasReceivedData: bool)

  /** The record every endpoint starts with. */
  const InitialStats := EndpointStats(0, [], 0, 0, true, false)

  function Sum(s: seq<int>): int
  {
    if s == [] then 0 else Sum(s[..|s| - 1]) + s[|s| - 1]
  }

  lemma SumAppend(s: seq<int>, x: int)
    ensures Sum(s + [x]) == Sum(s) + x
  {
    assert (s + [x])[..|s|] == s;
  }

  /** The bookkeeping every endpoint record keeps: each counted group is
      either a first arrival or one (positive) latency sample, and the
      latency total is the sum of the samples. */
  ghost predicate Balanced(st: EndpointStats)
  {
    && st.firstReceived + |st.latencies| == st.totalReceived
    && st.totalLatency == Sum(st.latencies)
    && forall i :: 0 <= i < |st.latencies| ==> st.latencies[i] > 0
  }

  /** The endpoints that delivered an entry of the list. */
  function Endpoints(list: seq<BlockData>): (r: set<string>)
    ensures forall i :: 0 <= i < |list| ==> list[i].endpoint in r
    ensures forall e :: e in r ==> exists i :: 0 <= i < |list| && list[i].endpoint == e
  {
    if list == [] then {} else Endpoints(list[..|list| - 1]) + {list[|list| - 1].endpoint}
  }

  ghost predicate DistinctEndpoints(list: seq<BlockData>)
  {
    forall i, j :: 0 <= i < j < |list| ==> list[i].endpoint != list[j].endpoint
  }

  ghost predicate EndpointsIn(list: seq<BlockData>, names: set<string>)
  {
    forall i :: 0 <= i < |list| ==> list[i].endpoint in names
  }

  /** The completion test of a slot group in formal mode: as many entries as
      active endpoints, and every active endpoint among them. */
  predicate Complete(active: set<string>, list: seq<BlockData>)
  {
    |list| == |active| && active <= Endpoints(list)
  }

  /** Distinctness of a list extended by one entry. */
  lemma DistinctSnoc(p: seq<BlockData>, x: BlockData)
    ensures DistinctEndpoints(p + [x])
      <==> DistinctEndpoints(p) && forall i :: 0 <= i < |p| ==> p[i].endpoint != x.endpoint
  {
    var list := p + [x];
    assert forall i :: 0 <= i < |p| ==> list[i] == p[i];
    assert list[|p|] == x;
  }

  lemma {:induction false} EndpointsCardinality(list: seq<BlockData>)
    ensures |Endpoints(list)| <= |list|
    ensures |Endpoints(list)| == |list| <==> DistinctEndpoints(list)
  {
    if list != [] {
      var p, x := list[..|list| - 1], list[|list| - 1];
      assert list == p + [x];
      EndpointsCardinality(p);
      DistinctSnoc(p, x);
      assert Endpoints(list) == Endpoints(p) + {x.endpoint};
      if x.endpoint in Endpoints(p) {
        var k :| 0 <= k < |p| && p[k].endpoint == x.endpoint;
        assert !DistinctEndpoints(list);
      } else {
        assert |Endpoints(list)| == |Endpoints(p)| + 1;
        assert forall i :: 0 <= i < |p| ==> p[i].endpoint != x.endpoint;
      }
    }
  }

  lemma {:induction false} SubsetOfNoLargerIsEqual(a: set<string>, b: set<string>)
    requires a <= b && |b| <= |a|
    ensures a == b
    decreases |a|
  {
    if a != {} {
      var y :| y in a;
      SubsetOfNoLargerIsEqual(a - {y}, b - {y});
      assert a == (a - {y}) + {y} && b == (b - {y}) + {y};
    }
  }

  /** A complete group holds exactly one entry per active endpoint and no
      entry from any other endpoint; and conversely. */
  lemma CompleteIsExact(active: set<string>, list: seq<BlockData>)
    ensures Complete(active, list) <==> Endpoints(list) == active && DistinctEndpoints(list)
  {
    EndpointsCardinality(list);
    if Complete(active, list) {
      SubsetOfNoLargerIsEqual(active, Endpoints(list));
    }
  }

  /** The earliest arrival time of a nonempty group. */
  function Earliest(list: seq<BlockData>): (t: int)
    requires |list| > 0
    ensures forall i :: 0 <= i < |list| ==> t <= list[i].timestamp
    ensures exists i :: 0 <= i < |list| && list[i].timestamp == t
  {
    if |list| == 1 then list[0].timestamp
    else
      var rest := Earliest(list[1..]);
      if list[0].timestamp <= rest then list[0].timestamp else rest
  }

  /** Credits one entry whose relative latency is `latency`. */
  function Credit(st: EndpointStats, latency: int): EndpointStats
  {
    if latency > 0 then
      st.(latencies := st.latencies + [latency], totalLatency := st.totalLatency + latency)
    else
      st.(firstReceived := st.firstReceived + 1)
  }

  /** Credits every entry of the list, first to last. */
  function CreditAll(stats: map<string, EndpointStats>, list: seq<BlockData>, earliest: int)
    : (r: map<string, EndpointStats>)
    requires EndpointsIn(list, stats.Keys)
    ensures r.Keys == stats.Keys
  {
    if list == [] then stats
    else
      var prev := CreditAll(stats, list[..|list| - 1], earliest);
      var bd := list[|list| - 1];
      prev[bd.endpoint := Credit(prev[bd.endpoint], bd.timestamp - earliest)]
  }

  /** The record with one more group counted. */
  function Counted(st: EndpointStats): EndpointStats
  {
    st.(totalReceived := st.totalReceived + 1)
  }

  /** Counts the group once for each active endpoint that has an entry in it. */
  function CountReceived(stats: map<string, EndpointStats>, active: set<string>, list: seq<BlockData>)
    : (r: map<string, EndpointStats>)
    ensures r.Keys == stats.Keys
  {
    map e | e in stats ::
      if e in active && e in Endpoints(list) then Counted(stats[e]) else stats[e]
  }

  /** Aggregating a group: count it, then credit every entry against the
      earliest arrival. */
  function Aggregate(stats: map<string, EndpointStats>, active: set<string>, list: seq<BlockData>)
    : (r: map<string, EndpointStats>)
    requires |list| > 0 && EndpointsIn(list, stats.Keys)
    ensures r.Keys == stats.Keys
  {
    CreditAll(CountReceived(stats, active, list), list, Earliest(list))
  }

  /** What one counted group does to an endpoint record: one more group
      counted and exactly one of a first arrival or a positive latency
      sample; the flags stay. */
  ghost predicate CreditedOnce(before: EndpointStats, after: EndpointStats)
  {
    var n := |before.latencies|;
    && after.totalReceived == before.totalReceived + 1
    && after.isAvailable == before.isAvailable
    && after.hasReceivedData == before.hasReceivedData
    && (|| (&& after.firstReceived == before.firstReceived + 1
            && after.latencies == before.latencies
            && after.totalLatency == before.totalLatency)
        || (&& after.firstReceived == before.firstReceived
            && |after.latencies| == n + 1
            && after.latencies[..n] == before.latencies
            && after.latencies[n] > 0
            && after.totalLatency == before.totalLatency + after.latencies[n]))
  }

  lemma CreditCountedGroup(st: EndpointStats, latency: int)
    ensures CreditedOnce(st, Credit(Counted(st), latency))
    ensures Balanced(st) ==> Balanced(Credit(Counted(st), latency))
  {
    if latency > 0 {
      SumAppend(st.latencies, latency);
      assert (st.latencies + [latency])[..|st.latencies|] == st.latencies;
    }
  }

  /** Crediting a list leaves the records of endpoints outside it alone. */
  lemma {:induction false} CreditAllOthers(stats: map<string, EndpointStats>, list: seq<BlockData>, earliest: int)
    requires EndpointsIn(list, stats.Keys)
    ensures forall e :: e in stats && e !in Endpoints(list) ==> CreditAll(stats, list, earliest)[e] == stats[e]
  {
    if list != [] {
      var p, x := list[..|list| - 1], list[|list| - 1];
      assert EndpointsIn(p, stats.Keys) by {
        assert forall i :: 0 <= i < |p| ==> p[i] == list[i];
      }
      CreditAllOthers(stats, p, earliest);
      assert Endpoints(list) == Endpoints(p) + {x.endpoint};
    }
  }

  /** On a list with one entry per endpoint, the entry at `k` is credited to
      its endpoint's record, and nothing else touches that record. */
  lemma {:induction false} CreditAllAt(stats: map<string, EndpointStats>, list: seq<BlockData>, earliest: int, k: int)
    requires EndpointsIn(list, stats.Keys) && DistinctEndpoints(list) && 0 <= k < |list|
    ensures CreditAll(stats, list, earliest)[list[k].endpoint]
      == Credit(stats[list[k].endpoint], list[k].timestamp - earliest)
  {
    var p, x := list[..|list| - 1], list[|list| - 1];
    assert list == p + [x];
    DistinctSnoc(p, x);
    assert EndpointsIn(p, stats.Keys) by {
      assert forall i :: 0 <= i < |p| ==> p[i] == list[i];
    }
    var prev := CreditAll(stats, p, earliest);
    var r := CreditAll(stats, list, earliest);
    assert r == prev[x.endpoint := Credit(prev[x.endpoint], x.timestamp - earliest)];
    if k < |p| {
      var e := p[k].endpoint;
      CreditAllAt(stats, p, earliest, k);
      assert list[k] == p[k] && e != x.endpoint;
      assert r[e] == prev[e];
    } else {
      CreditAllOthers(stats, p, earliest);
      assert x.endpoint !in Endpoints(p);
      assert prev[x.endpoint] == stats[x.endpoint];
      assert list[k] == x;
    }
  }

  /** On a list with one entry per endpoint, every endpoint of the list is
      credited exactly once, with its own entry, and no other record moves. */
  lemma CreditAllDistinct(stats: map<string, EndpointStats>, list: seq<BlockData>, earliest: int)
    requires EndpointsIn(list, stats.Keys) && DistinctEndpoints(list)
    ensures forall e :: e in stats && e !in Endpoints(list) ==> CreditAll(stats, list, earliest)[e] == stats[e]
    ensures forall k :: 0 <= k < |list| ==>
      CreditAll(stats, list, earliest)[list[k].endpoint]
        == Credit(stats[list[k].endpoint], list[k].timestamp - earliest)
  {
    CreditAllOthers(stats, list, earliest);
    forall k | 0 <= k < |list|
      ensures CreditAll(stats, list, earliest)[list[k].endpoint]
        == Credit(stats[list[k].endpoint], list[k].timestamp - earliest)
    {
      CreditAllAt(stats, list, earliest, k);
    }
  }

  /** The record of `bd`'s endpoint in `after` is its record in `before`,
      counted once and credited with `bd`'s latency relative to `earliest`. */
  ghost predicate CountedAndCredited(
    before: map<string, EndpointStats>, after: map<string, EndpointStats>, bd: BlockData, earliest: int)
  {
    && bd.endpoint in before && bd.endpoint in after
    && after[bd.endpoint] == Credit(Counted(before[bd.endpoint]), bd.timestamp - earliest)
  }

  /** Aggregating a complete group: endpoints outside the active set are
      untouched, every latency is non-negative, and each active endpoint is
      counted once and credited with its own entry. */
  lemma AggregateComplete(stats: map<string, EndpointStats>, active: set<string>, list: seq<BlockData>)
    requires Complete(active, list) && |list| > 0 && active <= stats.Keys
    ensures EndpointsIn(list, stats.Keys)
    ensures forall e :: e in stats && e !in active ==> Aggregate(stats, active, list)[e] == stats[e]
    ensures forall k :: 0 <= k < |list| ==> list[k].timestamp - Earliest(list) >= 0
    ensures forall k :: 0 <= k < |list| ==> CountedAndCredited(stats, Aggregate(stats, active, list), list[k], Earliest(list))
  {
    CompleteIsExact(active, list);
    var c := CountReceived(stats, active, list);
    var t := Earliest(list);
    assert EndpointsIn(list, c.Keys);
    CreditAllDistinct(c, list, t);
    var r := CreditAll(c, list, t);
    assert r == Aggregate(stats, active, list);
    forall e | e in stats && e !in active
      ensures r[e] == stats[e]
    {
      assert c[e] == stats[e];
    }
    forall k | 0 <= k < |list|
      ensures list[k].timestamp - t >= 0
      ensures CountedAndCredited(stats, r, list[k], t)
    {
      var e := list[k].endpoint;
      assert e in active;
      assert c[e] == Counted(stats[e]);
    }
  }

  /** Every active endpoint of a complete group is credited once, and the
      bookkeeping of every record survives. */
  lemma AggregateCreditsEachOnce(stats: map<string, EndpointStats>, active: set<string>, list: seq<BlockData>)
    requires Complete(active, list) && |list| > 0 && active <= stats.Keys
    requires forall e :: e in stats ==> Balanced(stats[e])
    ensures EndpointsIn(list, stats.Keys)
    ensures forall e :: e in active ==> CreditedOnce(stats[e], Aggregate(stats, active, list)[e])
    ensures forall e :: e in stats ==> Balanced(Aggregate(stats, active, list)[e])
  {
    AggregateComplete(stats, active, list);
    CompleteIsExact(active, list);
    var r := Aggregate(stats, active, list);
    forall e | e in stats
      ensures e in active ==> CreditedOnce(stats[e], r[e])
      ensures Balanced(r[e])
    {
      if e in active {
        var k :| 0 <= k < |list| && list[k].endpoint == e;
        CreditCountedGroup(stats[e], list[k].timestamp - Earliest(list));
      }
    }
  }

  /** Some active endpoint of a complete group is credited with a first
      arrival: the one holding the earliest entry. */
  lemma AggregateHasFirstArrival(stats: map<string, EndpointStats>, active: set<string>, list: seq<BlockData>)
    requires Complete(active, list) && |list| > 0 && active <= stats.Keys
    ensures EndpointsIn(list, stats.Keys)
    ensures exists e ::
      e in active && Aggregate(stats, active, list)[e].firstReceived == stats[e].firstReceived + 1
  {
    AggregateComplete(stats, active, list);
    CompleteIsExact(active, list);
    var k :| 0 <= k < |list| && list[k].timestamp == Earliest(list);
    assert list[k].endpoint in active;
  }
}
