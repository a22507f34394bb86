// The end-of-test report: a pure reduction of the final endpoint records into
// one summary per configured endpoint and a comparison of the endpoints that
// collected data, ranked by their first-arrival rate.

module Reporting {
  import opened Aggregation

  function MinOf(s: seq<int>): (m: int)
    requires |s| > 0
    ensures forall i :: 0 <= i < |s| ==> m <= s[i]
    ensures exists i :: 0 <= i < |s| && s[i] == m
  {
    if |s| == 1 then s[0]
    else
      var rest := MinOf(s[..|s| - 1]);
      if s[|s| - 1] < rest then s[|s| - 1] else rest
  }

  function MaxOf(s: seq<int>): (m: int)
    requires |s| > 0
    ensures forall i :: 0 <= i < |s| ==> s[i] <= m
    ensures exists i :: 0 <= i < |s| && s[i] == m
  {
    if |s| == 1 then s[0]
    else
      var rest := MaxOf(s[..|s| - 1]);
      if s[|s| - 1] > rest then s[|s| - 1] else rest
  }

  /** Mean latency over the groups in which the endpoint was not first; 0
      without samples. */
  function AverageLatency(st: EndpointStats): real
  {
    if |st.latencies| > 0 then (st.totalLatency as real) / (|st.latencies| as real) else 0.0
  }

  function MinLatency(st: EndpointStats): int
  {
    if |st.latencies| > 0 then MinOf(st.latencies) else 0
  }

  function MaxLatency(st: EndpointStats): int
  {
    if |st.latencies| > 0 then MaxOf(st.latencies) else 0
  }

  /** Fraction of counted groups in which the endpoint arrived first. */
  function FirstRate(st: EndpointStats): real
  {
    if st.totalReceived > 0 then (st.firstReceived as real) / (st.totalReceived as real) else 0.0
  }

  /** Latency total spread over every counted group, first arrivals included. */
  function AverageOverall(st: EndpointStats): real
  {
    if st.totalReceived > 0 then (st.totalLatency as real) / (st.totalReceived as real) else 0.0
  }

  lemma {:induction false} SumBounds(s: seq<int>, lo: int, hi: int)
    requires forall i :: 0 <= i < |s| ==> lo <= s[i] <= hi
    ensures |s| * lo <= Sum(s) <= |s| * hi
  {
    if s != [] {
      var p := s[..|s| - 1];
      SumBounds(p, lo, hi);
      assert |s| * lo == |p| * lo + lo && |s| * hi == |p| * hi + hi;
    }
  }

  lemma MeanBounds(n: int, lo: int, hi: int, total: int)
    requires n > 0 && n * lo <= total <= n * hi
    ensures lo as real <= (total as real) / (n as real) <= hi as real
  {
    var nr, q := n as real, (total as real) / (n as real);
    assert (n * lo) as real == nr * (lo as real);
    assert (n * hi) as real == nr * (hi as real);
    assert q * nr == total as real;
  }

  /** The reported mean lies between the reported minimum and maximum, all
      of them positive, for any record that keeps its bookkeeping. */
  lemma AverageWithinRange(st: EndpointStats)
    requires Balanced(st) && |st.latencies| > 0
    ensures 0 < MinLatency(st) <= MaxLatency(st)
    ensures MinLatency(st) as real <= AverageLatency(st) <= MaxLatency(st) as real
  {
    var s := st.latencies;
    var n, lo, hi := |s|, MinOf(s), MaxOf(s);
    SumBounds(s, lo, hi);
    var total := st.totalLatency;
    assert n * lo <= total <= n * hi;
    MeanBounds(n, lo, hi, total);
    assert AverageLatency(st) == (total as real) / (n as real);
  }

  /** A balanced record's first-arrival rate is a fraction in [0, 1]. */
  lemma FirstRateIsFraction(st: EndpointStats)
    requires Balanced(st)
    ensures 0.0 <= FirstRate(st) <= 1.0
    ensures st.totalReceived > 0 && |st.latencies| == 0 ==> FirstRate(st) == 1.0
  {
    if st.totalReceived > 0 {
      MeanBounds(st.totalReceived, 0, 1, st.firstReceived);
      if |st.latencies| == 0 {
        var t := st.totalReceived as real;
        assert st.firstReceived as real == t;
        assert t / t == 1.0;
      }
    }
  }

  /** Per-endpoint summary: no data when no group was counted. */
  datatype Summary =
    | NoData(name: string)
    | Summary(name: string, totalReceived: nat, firstReceived: nat, firstRate: real,
              averageLatency: real, minLatency: int, maxLatency: int, samples: nat)

  function Summarize(name: string, st: EndpointStats): (r: Summary)
  {
    if st.totalReceived > 0 then
      Summary(name, st.totalReceived, st.firstReceived, FirstRate(st),
              AverageLatency(st), MinLatency(st), MaxLatency(st), |st.latencies|)
    else NoData(name)
  }

  /** One candidate of the comparison: an endpoint with its record and the
      key the ranking sorts by, its first-arrival rate. */
  datatype Candidate = Candidate(name: string, stats: EndpointStats, rate: real)

  function CandidateOf(name: string, st: EndpointStats): Candidate
  {
    Candidate(name, st, FirstRate(st))
  }

  ghost predicate Known(endpoints: seq<string>, stats: map<string, EndpointStats>)
  {
    forall i :: 0 <= i < |endpoints| ==> endpoints[i] in stats
  }

  /** The number of configured endpoints (positions, in order) that counted
      at least one group. */
  function DataCount(endpoints: seq<string>, stats: map<string, EndpointStats>): nat
    requires Known(endpoints, stats)
  {
    if endpoints == [] then 0
    else
      var last := endpoints[|endpoints| - 1];
      DataCount(endpoints[..|endpoints| - 1], stats) + if stats[last].totalReceived > 0 then 1 else 0
  }

  lemma {:induction false} DataCountZero(endpoints: seq<string>, stats: map<string, EndpointStats>)
    requires Known(endpoints, stats)
    ensures DataCount(endpoints, stats) == 0 <==>
      forall i :: 0 <= i < |endpoints| ==> stats[endpoints[i]].totalReceived == 0
  {
    if endpoints != [] {
      var p := endpoints[..|endpoints| - 1];
      assert forall i :: 0 <= i < |p| ==> p[i] == endpoints[i];
      DataCountZero(p, stats);
    }
  }

  /** The endpoints that counted at least one group, in configuration order. */
  function WithData(endpoints: seq<string>, stats: map<string, EndpointStats>): (r: seq<Candidate>)
    requires Known(endpoints, stats)
    ensures |r| == DataCount(endpoints, stats)
    ensures forall k :: 0 <= k < |r| ==>
      r[k].stats.totalReceived > 0 && r[k].name in stats && r[k] == CandidateOf(r[k].name, stats[r[k].name])
      && r[k].name in endpoints
    ensures forall i :: 0 <= i < |endpoints| && stats[endpoints[i]].totalReceived > 0 ==>
      CandidateOf(endpoints[i], stats[endpoints[i]]) in r
  {
    if endpoints == [] then []
    else
      var last := endpoints[|endpoints| - 1];
      var p := endpoints[..|endpoints| - 1];
      assert forall i :: 0 <= i < |p| ==> p[i] == endpoints[i];
      WithData(p, stats) + if stats[last].totalReceived > 0 then [CandidateOf(last, stats[last])] else []
  }

  ghost predicate SortedByRate(cs: seq<Candidate>)
  {
    forall i, j :: 0 <= i < j < |cs| ==> cs[i].rate >= cs[j].rate
  }

  /** Inserts `c` after every candidate whose rate is at least its own. */
  function InsertByRate(c: Candidate, sorted: seq<Candidate>): seq<Candidate>
  {
    if sorted == [] then [c]
    else if sorted[0].rate >= c.rate then [sorted[0]] + InsertByRate(c, sorted[1..])
    else [c] + sorted
  }

  /** Every inserted element is `c` or comes from the list. */
  lemma {:induction false} InsertByRateElements(c: Candidate, sorted: seq<Candidate>)
    ensures |InsertByRate(c, sorted)| == |sorted| + 1
    ensures forall k :: 0 <= k < |InsertByRate(c, sorted)| ==>
      InsertByRate(c, sorted)[k] == c || InsertByRate(c, sorted)[k] in sorted
  {
    if sorted != [] && sorted[0].rate >= c.rate {
      InsertByRateElements(c, sorted[1..]);
      var r := InsertByRate(c, sorted[1..]);
      forall k | 0 <= k < |r| && r[k] != c ensures r[k] in sorted {
        var m :| 0 <= m < |sorted| - 1 && sorted[1..][m] == r[k];
        assert sorted[m + 1] == r[k];
      }
    }
  }

  /** Insertion into a list sorted by descending rate keeps it sorted. */
  lemma {:induction false} InsertByRateSorted(c: Candidate, sorted: seq<Candidate>)
    requires SortedByRate(sorted)
    ensures SortedByRate(InsertByRate(c, sorted))
  {
    if sorted != [] && sorted[0].rate >= c.rate {
      var rest := sorted[1..];
      assert SortedByRate(rest) by {
        forall i, j | 0 <= i < j < |rest| ensures rest[i].rate >= rest[j].rate {
          assert rest[i] == sorted[i + 1] && rest[j] == sorted[j + 1];
        }
      }
      InsertByRateSorted(c, rest);
      InsertByRateElements(c, rest);
      var r := InsertByRate(c, rest);
      forall k | 0 <= k < |r| ensures sorted[0].rate >= r[k].rate {
        if r[k] != c {
          var m :| 0 <= m < |rest| && rest[m] == r[k];
          assert sorted[m + 1] == r[k];
        }
      }
      var out := [sorted[0]] + r;
      forall i, j | 0 <= i < j < |out| ensures out[i].rate >= out[j].rate {
        if i > 0 {
          assert out[i] == r[i - 1] && out[j] == r[j - 1];
        } else {
          assert out[j] == r[j - 1];
        }
      }
    }
  }

  /** Insertion adds exactly `c`. */
  lemma {:induction false} InsertByRateMultiset(c: Candidate, sorted: seq<Candidate>)
    ensures multiset(InsertByRate(c, sorted)) == multiset(sorted) + multiset{c}
  {
    if sorted != [] && sorted[0].rate >= c.rate {
      InsertByRateMultiset(c, sorted[1..]);
      assert sorted == [sorted[0]] + sorted[1..];
    }
  }

  /** Stable sort by descending first-arrival rate. */
  function SortByRate(cs: seq<Candidate>): (r: seq<Candidate>)
    ensures SortedByRate(r)
    ensures multiset(r) == multiset(cs)
    ensures |r| == |cs|
  {
    if cs == [] then []
    else
      var p := cs[..|cs| - 1];
      assert cs == p + [cs[|cs| - 1]];
      var s := SortByRate(p);
      InsertByRateSorted(cs[|cs| - 1], s);
      InsertByRateMultiset(cs[|cs| - 1], s);
      InsertByRate(cs[|cs| - 1], s)
  }

  /** One line of the ranked comparison. */
  datatype RankedRow = RankedRow(name: string, firstRate: real, averageWhenSlower: real, averageOverall: real)

  function Row(c: Candidate): RankedRow
  {
    RankedRow(c.name, c.rate, AverageLatency(c.stats), AverageOverall(c.stats))
  }

  datatype Comparison =
    | Ranking(rows: seq<RankedRow>)
    | SingleEndpoint(name: string)
    | NoComparableData

  function Rows(cs: seq<Candidate>): (rows: seq<RankedRow>)
    ensures |rows| == |cs|
    ensures forall k :: 0 <= k < |cs| ==> rows[k] == Row(cs[k])
  {
    if cs == [] then [] else [Row(cs[0])] + Rows(cs[1..])
  }

  /** The comparison over the endpoints with data: a ranking when there are
      two or more, a notice naming the one endpoint, or a no-data notice. */
  function Compare(endpoints: seq<string>, stats: map<string, EndpointStats>): Comparison
    requires Known(endpoints, stats)
  {
    var sorted := SortByRate(WithData(endpoints, stats));
    if |sorted| >= 2 then Ranking(Rows(sorted))
    else if |sorted| == 1 then SingleEndpoint(sorted[0].name)
    else NoComparableData
  }

  /** Which of the three outcomes the comparison gives, and that a ranking
      lists exactly the endpoints with data, by descending first-arrival
      rate. */
  lemma CompareOutcome(endpoints: seq<string>, stats: map<string, EndpointStats>)
    requires Known(endpoints, stats)
    ensures var r := Compare(endpoints, stats);
      && (r.Ranking? <==> DataCount(endpoints, stats) >= 2)
      && (r.SingleEndpoint? <==> DataCount(endpoints, stats) == 1)
      && (r.NoComparableData? <==> forall i :: 0 <= i < |endpoints| ==> stats[endpoints[i]].totalReceived == 0)
      && (r.SingleEndpoint? ==> r.name in endpoints && r.name in stats && stats[r.name].totalReceived > 0)
  {
    DataCountZero(endpoints, stats);
    var data := WithData(endpoints, stats);
    var sorted := SortByRate(data);
    if |sorted| == 1 {
      assert sorted[0] in multiset(data);
    }
  }

  /** Ranking rows come out in descending rate and hold a row for every
      candidate and nothing else. */
  lemma {:induction false} RankedRows(data: seq<Candidate>)
    ensures var rows := Rows(SortByRate(data));
      && |rows| == |data|
      && (forall i, j :: 0 <= i < j < |rows| ==> rows[i].firstRate >= rows[j].firstRate)
      && (forall k :: 0 <= k < |rows| ==> exists c :: c in data && rows[k] == Row(c))
      && (forall c :: c in data ==> Row(c) in rows)
  {
    var sorted := SortByRate(data);
    var rows := Rows(sorted);
    forall k | 0 <= k < |rows| ensures exists c :: c in data && rows[k] == Row(c) {
      assert sorted[k] in multiset(data);
    }
    forall c | c in data ensures Row(c) in rows {
      assert c in multiset(sorted);
      var k :| 0 <= k < |sorted| && sorted[k] == c;
      assert rows[k] == Row(c);
    }
  }

  /** A ranking has one row per endpoint with data, by descending
      first-arrival rate. */
  lemma RankingIsSorted(endpoints: seq<string>, stats: map<string, EndpointStats>)
    requires Known(endpoints, stats) && Compare(endpoints, stats).Ranking?
    ensures var rows := Compare(endpoints, stats).rows;
      && |rows| == DataCount(endpoints, stats)
      && (forall i, j :: 0 <= i < j < |rows| ==> rows[i].firstRate >= rows[j].firstRate)
  {
    var data := WithData(endpoints, stats);
    RankedRows(data);
    assert Compare(endpoints, stats).rows == Rows(SortByRate(data));
  }

  /** A ranking names only configured endpoints, and every configured
      endpoint with data has its row in it. */
  lemma RankingIsComplete(endpoints: seq<string>, stats: map<string, EndpointStats>)
    requires Known(endpoints, stats) && Compare(endpoints, stats).Ranking?
    ensures var rows := Compare(endpoints, stats).rows;
      && (forall k :: 0 <= k < |rows| ==> rows[k].name in endpoints)
      && (forall i :: 0 <= i < |endpoints| && stats[endpoints[i]].totalReceived > 0 ==>
            Row(CandidateOf(endpoints[i], stats[endpoints[i]])) in rows)
  {
    var data := WithData(endpoints, stats);
    var sorted := SortByRate(data);
    var rows := Rows(sorted);
    assert Compare(endpoints, stats).rows == rows;
    forall k | 0 <= k < |rows| ensures rows[k].name in endpoints {
      assert sorted[k] in multiset(data);
      assert rows[k].name == sorted[k].name;
    }
    forall i | 0 <= i < |endpoints| && stats[endpoints[i]].totalReceived > 0
      ensures Row(CandidateOf(endpoints[i], stats[endpoints[i]])) in rows
    {
      var c := CandidateOf(endpoints[i], stats[endpoints[i]]);
      assert c in multiset(sorted);
      var k :| 0 <= k < |sorted| && sorted[k] == c;
      assert rows[k] == Row(c);
    }
  }

  datatype Report = Report(summaries: seq<Summary>, comparison: Comparison)

  /** The whole report: one summary per configured endpoint, in order, and
      the comparison. */
  function ReportOf(endpoints: seq<string>, stats: map<string, EndpointStats>): (r: Report)
    requires Known(endpoints, stats)
    ensures |r.summaries| == |endpoints|
    ensures forall i :: 0 <= i < |endpoints| ==>
      && r.summaries[i].name == endpoints[i]
      && (r.summaries[i].NoData? <==> stats[endpoints[i]].totalReceived == 0)
  {
    Report(seq(|endpoints|, i requires 0 <= i < |endpoints| => Summarize(endpoints[i], stats[endpoints[i]])),
           Compare(endpoints, stats))
  }
}
