/** The HTTP load probe: nearest-rank percentiles over exact numbers, and the verdict drawn from them. */
module LoadProbe {
  import opened Wrappers
  import opened Sorting

  // ---- counting ----

  /** How many values are at or below v. */
  function Within(values: seq<real>, v: real): (n: nat)
    ensures n <= |values|
  {
    if values == [] then 0 else (if values[0] <= v then 1 else 0) + Within(values[1..], v)
  }

  lemma {:induction false} WithinAppend(a: seq<real>, b: seq<real>, v: real)
    ensures Within(a + b, v) == Within(a, v) + Within(b, v)
  {
    if a == [] {
      assert a + b == b;
    } else {
      WithinAppend(a[1..], b, v);
      assert (a + b)[1..] == a[1..] + b;
    }
  }

  lemma {:induction false} Removed(b: seq<real>, i: nat, v: real)
    requires i < |b|
    ensures multiset(b[..i] + b[i + 1..]) == multiset(b) - multiset{b[i]}
    ensures Within(b, v) == Within(b[..i] + b[i + 1..], v) + if b[i] <= v then 1 else 0
  {
    var after := [b[i]] + b[i + 1..];
    assert b == b[..i] + after;
    assert after[1..] == b[i + 1..];
    WithinAppend(b[..i], after, v);
    WithinAppend(b[..i], b[i + 1..], v);
    assert multiset(b) == multiset(b[..i]) + multiset(after) == multiset(b[..i] + b[i + 1..]) + multiset{b[i]};
  }

  lemma {:induction false} Find(b: seq<real>, x: real) returns (i: nat)
    requires x in multiset(b)
    ensures i < |b| && b[i] == x
  {
    i :| i < |b| && b[i] == x;
  }

  /** Counting does not depend on the order of the values. */
  lemma {:induction false} WithinSame(a: seq<real>, b: seq<real>, v: real)
    requires multiset(a) == multiset(b)
    ensures Within(a, v) == Within(b, v)
  {
    if a == [] {
      assert |multiset(b)| == 0;
    } else {
      var i := Find(b, a[0]);
      Removed(a, 0, v);
      Removed(b, i, v);
      WithinSame(a[..0] + a[1..], b[..i] + b[i + 1..], v);
    }
  }

  /** In ascending order the k-th value is at most v exactly when k values are. */
  lemma {:induction false} RankWithin(s: seq<real>, k: nat, v: real)
    requires Ascending(s, Latency) && 0 < k <= |s|
    ensures s[k - 1] <= v <==> Within(s, v) >= k
  {
    if s[0] <= v && k > 1 {
      RankWithin(s[1..], k - 1, v);
    } else if s[0] > v {
      NoneWithin(s, v);
    }
  }

  lemma {:induction false} NoneWithin(s: seq<real>, v: real)
    requires forall i :: 0 <= i < |s| ==> v < s[i]
    ensures Within(s, v) == 0
  {
    if s != [] {
      NoneWithin(s[1..], v);
    }
  }

  // ---- percentiles ----

  function Latency(x: real): real {
    x
  }

  /** math.ceil */
  function Ceil(x: real): (n: int)
    ensures x <= n as real < x + 1.0
  {
    -((-x).Floor)
  }

  /** The nearest rank for a share of the values, counted in values: max(0, ceil(share) - 1). */
  function Rank(share: real): nat {
    if Ceil(share) - 1 < 0 then 0 else Ceil(share) - 1
  }

  function Percentile(values: seq<real>, fraction: real): Outcome<real> {
    if values == [] || !(0.0 < fraction <= 1.0) then Failed
    else
      ShareInRange(fraction, |values|);
      Ok(AtRank(values, Share(fraction, |values|)))
  }

  function Share(fraction: real, n: nat): real {
    fraction * n as real
  }

  lemma {:induction false} ShareInRange(fraction: real, n: nat)
    requires 0.0 < fraction <= 1.0 && n > 0
    ensures 0.0 < Share(fraction, n) <= n as real
  {
  }

  function AtRank(values: seq<real>, share: real): real
    requires 0.0 < share <= |values| as real
  {
    SortedSorts(values, Latency);
    Sorted(values, Latency)[Rank(share)]
  }

  lemma {:induction false} AtRankAtMostIff(values: seq<real>, share: real, v: real)
    requires 0.0 < share <= |values| as real
    ensures AtRank(values, share) <= v <==> Within(values, v) as real >= share
    ensures AtRank(values, share) in values
  {
    var k := Rank(share) + 1;
    SortedSorts(values, Latency);
    RankWithin(Sorted(values, Latency), k, v);
    WithinSame(values, Sorted(values, Latency), v);
    assert Sorted(values, Latency)[k - 1] in multiset(Sorted(values, Latency));
  }

  /** At least the given fraction of the values is at or below v. */
  predicate Covers(values: seq<real>, fraction: real, v: real) {
    Within(values, v) as real >= Share(fraction, |values|)
  }

  lemma {:induction false} CoversPercent(values: seq<real>, v: real)
    ensures Covers(values, 0.95, v) <==> 100 * Within(values, v) >= 95 * |values|
  {
  }

  /** A percentile is at most v exactly when v covers the fraction. */
  lemma {:induction false} AtMostIff(values: seq<real>, fraction: real, v: real)
    requires Percentile(values, fraction).Ok?
    ensures Percentile(values, fraction).value <= v <==> Covers(values, fraction, v)
    ensures Percentile(values, fraction).value in values
  {
    ShareInRange(fraction, |values|);
    AtRankAtMostIff(values, Share(fraction, |values|), v);
  }

  /** The percentile is the least sample that covers the fraction; an error means no samples or no fraction. */
  lemma {:induction false} NearestRank(values: seq<real>, fraction: real, v: real)
    ensures Percentile(values, fraction).Ok? <==> values != [] && 0.0 < fraction <= 1.0
    ensures Percentile(values, fraction) == Ok(v) <==>
              && values != [] && 0.0 < fraction <= 1.0
              && v in values && Covers(values, fraction, v)
              && forall u :: u in values && Covers(values, fraction, u) ==> v <= u
  {
    if Percentile(values, fraction).Ok? {
      forall u ensures Percentile(values, fraction).value <= u <==> Covers(values, fraction, u) {
        AtMostIff(values, fraction, u);
      }
      AtMostIff(values, fraction, Percentile(values, fraction).value);
    }
  }

  /** The order in which the samples arrived does not matter. */
  lemma {:induction false} OrderIndependent(a: seq<real>, b: seq<real>, fraction: real)
    requires multiset(a) == multiset(b)
    ensures Percentile(a, fraction) == Percentile(b, fraction)
  {
    assert |multiset(a)| == |a| && |multiset(b)| == |b|;
    if Percentile(a, fraction).Ok? {
      var p, q := Percentile(a, fraction).value, Percentile(b, fraction).value;
      AtMostIff(a, fraction, p);
      AtMostIff(a, fraction, q);
      AtMostIff(b, fraction, p);
      AtMostIff(b, fraction, q);
      WithinSame(a, b, p);
      WithinSame(a, b, q);
    }
  }

  lemma {:induction false} ShareGrows(f: real, g: real, n: nat)
    requires f <= g
    ensures Share(f, n) <= Share(g, n)
  {
  }

  lemma {:induction false} Monotone(values: seq<real>, f: real, g: real)
    requires values != [] && 0.0 < f <= g <= 1.0
    ensures Percentile(values, f).value <= Percentile(values, g).value
  {
    var q := Percentile(values, g).value;
    AtMostIff(values, g, q);
    ShareGrows(f, g, |values|);
    AtMostIff(values, f, q);
  }

  // ---- the summary of a probe ----

  datatype Sample = Sample(latency: real, error: Option<string>)

  datatype Summary = Summary(
    passed: bool,
    requests: nat,
    failures: nat,
    errorCounts: map<string, nat>,
    p50: Option<real>,
    p95: Option<real>,
    p99: Option<real>)

  function Latencies(samples: seq<Sample>): (r: seq<real>)
    ensures |r| == |samples|
  {
    seq(|samples|, i requires 0 <= i < |samples| => samples[i].latency)
  }

  /** The errors of the failed samples, in order. */
  function Errors(samples: seq<Sample>): seq<string> {
    if samples == [] then []
    else (match samples[0].error case None => [] case Some(e) => [e]) + Errors(samples[1..])
  }

  function PercentileIfAny(values: seq<real>, fraction: real): Option<real> {
    match Percentile(values, fraction) case Ok(v) => Some(v) case Failed => None
  }

  ghost function Total(counts: map<string, nat>): nat
    decreases |counts|
  {
    if counts == map[] then 0
    else
      var e :| e in counts;
      counts[e] + Total(counts - {e})
  }

  lemma {:induction false} TotalWithout(counts: map<string, nat>, e: string)
    requires e in counts
    ensures Total(counts) == counts[e] + Total(counts - {e})
    decreases |counts|
  {
    var d :| d in counts && Total(counts) == counts[d] + Total(counts - {d});
    if d != e {
      TotalWithout(counts - {d}, e);
      assert counts - {d} - {e} == counts - {e} - {d};
      TotalWithout(counts - {e}, d);
    }
  }

  lemma {:induction false} TotalBump(counts: map<string, nat>, e: string)
    ensures Total(counts[e := (if e in counts then counts[e] else 0) + 1]) == Total(counts) + 1
  {
    var next := counts[e := (if e in counts then counts[e] else 0) + 1];
    TotalWithout(next, e);
    assert next - {e} == counts - {e};
    if e in counts {
      TotalWithout(counts, e);
    } else {
      assert counts - {e} == counts;
    }
  }

  /** Exactly the errors that occurred, each with the number of its occurrences. */
  ghost predicate Tallied(counts: map<string, nat>, errors: seq<string>) {
    && (forall e :: e in counts <==> e in errors)
    && (forall e :: e in counts ==> counts[e] == multiset(errors)[e] > 0)
    && Total(counts) == |errors|
  }

  lemma {:induction false} TallyOne(counts: map<string, nat>, errors: seq<string>, e: string)
    requires Tallied(counts, errors)
    ensures Tallied(counts[e := (if e in counts then counts[e] else 0) + 1], errors + [e])
  {
    TotalBump(counts, e);
    assert multiset(errors + [e]) == multiset(errors) + multiset{e};
    assert forall d :: d in errors <==> d in multiset(errors);
  }

  lemma {:induction false} NoErrors(samples: seq<Sample>)
    ensures Errors(samples) == [] <==> forall i :: 0 <= i < |samples| ==> samples[i].error.None?
    ensures |Errors(samples)| <= |samples|
  {
    if samples != [] {
      NoErrors(samples[1..]);
      if Errors(samples) != [] && samples[0].error.None? {
        var i :| 0 <= i < |samples[1..]| && samples[1..][i].error.Some?;
        assert samples[i + 1].error.Some?;
      }
    }
  }

  method CountErrors(failures: seq<string>) returns (errorCounts: map<string, nat>)
    ensures Tallied(errorCounts, failures)
  {
    errorCounts := map[];
    for i := 0 to |failures|
      invariant Tallied(errorCounts, failures[..i])
    {
      var e := failures[i];
      TallyOne(errorCounts, failures[..i], e);
      assert failures[..i + 1] == failures[..i] + [e];
      errorCounts := errorCounts[e := (if e in errorCounts then errorCounts[e] else 0) + 1];
    }
    assert failures[..|failures|] == failures;
  }

  // ---- counting by position ----

  /** The samples answered within v. */
  function Fast(samples: seq<Sample>, v: real): set<nat> {
    set i: nat | i < |samples| && samples[i].latency <= v
  }

  function FailedAt(samples: seq<Sample>): set<nat> {
    set i: nat | i < |samples| && samples[i].error.Some?
  }

  function FailedWith(samples: seq<Sample>, e: string): set<nat> {
    set i: nat | i < |samples| && samples[i].error == Some(e)
  }

  lemma {:induction false} LatenciesSplit(samples: seq<Sample>, n: nat)
    requires |samples| == n + 1
    ensures Latencies(samples) == Latencies(samples[..n]) + [samples[n].latency]
  {
  }

  lemma {:induction false} FastCounts(samples: seq<Sample>, v: real)
    ensures Within(Latencies(samples), v) == |Fast(samples, v)|
  {
    if samples != [] {
      var n := |samples| - 1;
      FastCounts(samples[..n], v);
      LatenciesSplit(samples, n);
      WithinAppend(Latencies(samples[..n]), [samples[n].latency], v);
      assert Fast(samples, v) == Fast(samples[..n], v) + if samples[n].latency <= v then {n} else {};
    } else {
      assert Fast(samples, v) == {};
    }
  }

  lemma {:induction false} ErrorsAppend(a: seq<Sample>, b: seq<Sample>)
    ensures Errors(a + b) == Errors(a) + Errors(b)
  {
    if a == [] {
      assert a + b == b;
    } else {
      ErrorsAppend(a[1..], b);
      assert (a + b)[1..] == a[1..] + b;
    }
  }

  lemma {:induction false} ErrorsLast(samples: seq<Sample>, n: nat)
    requires |samples| == n + 1
    ensures Errors(samples) == Errors(samples[..n]) + match samples[n].error case None => [] case Some(e) => [e]
  {
    ErrorsAppend(samples[..n], [samples[n]]);
    assert samples == samples[..n] + [samples[n]];
    assert [samples[n]][1..] == [];
  }

  lemma {:induction false} FailuresCount(samples: seq<Sample>)
    ensures |Errors(samples)| == |FailedAt(samples)|
  {
    if samples == [] {
      assert FailedAt(samples) == {};
    } else {
      var n := |samples| - 1;
      FailuresCount(samples[..n]);
      ErrorsLast(samples, n);
      assert FailedAt(samples) == FailedAt(samples[..n]) + if samples[n].error.Some? then {n} else {};
    }
  }

  lemma {:induction false} ErrorCounts(samples: seq<Sample>, e: string)
    ensures multiset(Errors(samples))[e] == |FailedWith(samples, e)|
  {
    if samples == [] {
      assert FailedWith(samples, e) == {};
    } else {
      var n := |samples| - 1;
      ErrorCounts(samples[..n], e);
      ErrorsLast(samples, n);
      FailedWithLast(samples, n, e);
    }
  }

  lemma {:induction false} FailedWithLast(samples: seq<Sample>, n: nat, e: string)
    requires |samples| == n + 1
    ensures |FailedWith(samples, e)| == |FailedWith(samples[..n], e)| + if samples[n].error == Some(e) then 1 else 0
  {
    assert FailedWith(samples, e) == FailedWith(samples[..n], e) + if samples[n].error == Some(e) then {n} else {};
  }

  lemma {:induction false} TallyMeans(samples: seq<Sample>, counts: map<string, nat>)
    requires Tallied(counts, Errors(samples))
    ensures |Errors(samples)| == |FailedAt(samples)| == Total(counts)
    ensures forall e ::
      && (e in counts <==> FailedWith(samples, e) != {})
      && (e in counts ==> counts[e] == |FailedWith(samples, e)|)
  {
    FailuresCount(samples);
    forall e
      ensures e in counts <==> FailedWith(samples, e) != {}
      ensures e in counts ==> counts[e] == |FailedWith(samples, e)|
    {
      ErrorCounts(samples, e);
      assert e in Errors(samples) <==> multiset(Errors(samples))[e] > 0;
    }
  }

  /** `summarize`: it passes exactly when there are samples, none failed and 95 in 100 are fast enough. */
  method Summarize(samples: seq<Sample>, maximumP95: real) returns (r: Summary)
    ensures r.passed <==>
              && samples != []
              && (forall i :: 0 <= i < |samples| ==> samples[i].error.None?)
              && 100 * |Fast(samples, maximumP95)| >= 95 * |samples|
    ensures r.requests == |samples| && r.failures == |FailedAt(samples)| == Total(r.errorCounts)
    ensures forall e ::
      && (e in r.errorCounts <==> FailedWith(samples, e) != {})
      && (e in r.errorCounts ==> r.errorCounts[e] == |FailedWith(samples, e)|)
    ensures Tallied(r.errorCounts, Errors(samples))
    ensures r.p50 == PercentileIfAny(Latencies(samples), 0.5)
    ensures r.p95 == PercentileIfAny(Latencies(samples), 0.95)
    ensures r.p99 == PercentileIfAny(Latencies(samples), 0.99)
  {
    var latencies := Latencies(samples);
    var failures := Errors(samples);
    var p50, p95, p99 := None, None, None;
    if latencies != [] {
      p50 := Some(Percentile(latencies, 0.5).value);
      p95 := Some(Percentile(latencies, 0.95).value);
      p99 := Some(Percentile(latencies, 0.99).value);
      AtMostIff(latencies, 0.95, maximumP95);
      CoversPercent(latencies, maximumP95);
    }
    NoErrors(samples);
    var passed := samples != [] && failures == [] && p95.Some? && p95.value <= maximumP95;
    var errorCounts := CountErrors(failures);
    FastCounts(samples, maximumP95);
    TallyMeans(samples, errorCounts);
    r := Summary(passed, |samples|, |failures|, errorCounts, p50, p95, p99);
  }
}
