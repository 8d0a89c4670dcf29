/**
 * The aggregation (`calculate_results` in tool/crawler.py): for every site in
 * the results dict, the mean and the maximum of each duration vector, and for
 * the `unit` vector the identified pairs with the mean time and the pair with
 * the largest time. The dict is updated in place; an exception (a site whose
 * result is None, an empty vector) is swallowed by `catching` and ends the
 * whole loop, so the sites after it get no aggregates.
 */
module Aggregation {
  import opened Outcomes
  import opened Measurement
  import opened Site

  /** Python's `sum`, adding from left to right. */
  function Sum(v: seq<real>): real
  {
    if v == [] then 0.0 else Sum(v[..|v| - 1]) + v[|v| - 1]
  }

  /** `sum(v) / len(v)`. */
  function Mean(v: seq<real>): real
    requires |v| > 0
  {
    Sum(v) / (|v| as real)
  }

  /** Python's `max` of a non-empty list: one of its entries, and none is larger. */
  function Max(v: seq<real>): (m: real)
    requires |v| > 0
    ensures exists i :: 0 <= i < |v| && v[i] == m
    ensures forall i :: 0 <= i < |v| ==> v[i] <= m
  {
    if |v| == 1 then v[0]
    else
      var last := |v| - 1;
      var m := Max(v[..last]);
      assert forall i :: 0 <= i < last ==> v[..last][i] == v[i];
      if v[last] > m then v[last] else m
  }

  /** A sum of entries that are all at most `c` is at most `len * c`. */
  lemma {:induction false} SumAtMost(v: seq<real>, c: real)
    requires forall i :: 0 <= i < |v| ==> v[i] <= c
    ensures Sum(v) <= (|v| as real) * c
  {
    if v != [] {
      var last := |v| - 1;
      assert forall i :: 0 <= i < last ==> v[..last][i] == v[i];
      SumAtMost(v[..last], c);
      assert (last as real) * c + c == (|v| as real) * c;
    }
  }

  /** A sum of entries that are all `c` is `len * c`. */
  lemma {:induction false} SumOfConstant(v: seq<real>, c: real)
    requires forall i :: 0 <= i < |v| ==> v[i] == c
    ensures Sum(v) == (|v| as real) * c
  {
    if v != [] {
      var last := |v| - 1;
      assert forall i :: 0 <= i < last ==> v[..last][i] == v[i];
      SumOfConstant(v[..last], c);
      assert (last as real) * c + c == (|v| as real) * c;
    }
  }

  lemma DivideAtMost(s: real, n: real, c: real)
    requires n > 0.0 && s <= n * c
    ensures s / n <= c
  {
    var q := s / n;
    assert q * n == s;
    if q > c {
      assert q * n > c * n;
    }
  }

  /** The mean of a non-empty vector is at most its maximum. */
  lemma MeanAtMostMax(v: seq<real>)
    requires |v| > 0
    ensures Mean(v) <= Max(v)
  {
    var s, n, c := Sum(v), |v| as real, Max(v);
    assert s <= n * c by { SumAtMost(v, c); }
    assert s / n <= c by { DivideAtMost(s, n, c); }
    assert Mean(v) == s / n;
  }

  /**
   * A vector made only of the sentinel has the sentinel as its mean; this is
   * also what Python 2's integer division gives when every entry is the
   * integer 100.
   */
  lemma AllSentinelMean(v: seq<real>)
    requires |v| > 0 && forall i :: 0 <= i < |v| ==> v[i] == Sentinel
    ensures Mean(v) == Sentinel
  {
    SumOfConstant(v, Sentinel);
  }

  /** The times of the unit pairs, in order. */
  function Times(units: seq<Unit>): (ts: seq<real>)
    ensures |ts| == |units| && forall i :: 0 <= i < |units| ==> ts[i] == units[i].elapsed
  {
    seq(|units|, i requires 0 <= i < |units| => units[i].elapsed)
  }

  /**
   * `filter(lambda x: x[0], units)`: the pairs with a truthy id, each as
   * often as it occurs in `units`, and no other.
   */
  function Identified(units: seq<Unit>): seq<Unit>
  {
    if units == [] then []
    else
      var init, last := units[..|units| - 1], units[|units| - 1];
      Identified(init) + (if Truthy(last.id) then [last] else [])
  }

  /** The filter keeps each pair with a truthy id as often as it occurs, and no other pair. */
  lemma {:induction false} IdentifiedCounts(units: seq<Unit>)
    ensures forall u :: multiset(Identified(units))[u] == if Truthy(u.id) then multiset(units)[u] else 0
  {
    if units != [] {
      var init, last := units[..|units| - 1], units[|units| - 1];
      assert units == init + [last];
      IdentifiedCounts(init);
    }
  }

  /** `filter` keeps a single pair exactly when its id is truthy. */
  lemma IdentifiedSingleton(u: Unit)
    ensures Identified([u]) == if Truthy(u.id) then [u] else []
  {
    assert [u][..0] == [];
  }

  /** Appending one pair to the input appends it to the output exactly when its id is truthy. */
  lemma IdentifiedSnoc(s: seq<Unit>, u: Unit)
    ensures Identified(s + [u]) == Identified(s) + (if Truthy(u.id) then [u] else [])
  {
    var t := s + [u];
    assert t[..|t| - 1] == s && t[|t| - 1] == u;
  }

  /**
   * `filter` works pair by pair, in order: filtering a concatenation is
   * concatenating the filtered parts. With `IdentifiedSingleton`, this
   * determines the filtered list, order and repetitions included.
   */
  lemma {:induction false} IdentifiedAppend(a: seq<Unit>, b: seq<Unit>)
    ensures Identified(a + b) == Identified(a) + Identified(b)
  {
    if b == [] {
      assert a + b == a;
    } else {
      var init, last := b[..|b| - 1], b[|b| - 1];
      var kept := if Truthy(last.id) then [last] else [];
      assert b == init + [last];
      assert a + b == (a + init) + [last];
      IdentifiedSnoc(a + init, last);
      IdentifiedSnoc(init, last);
      IdentifiedAppend(a, init);
    }
  }

  /**
   * Python's `max(units, key=lambda unit: unit[1])`: the position of the
   * first pair whose time is the largest.
   */
  function MaxByTime(units: seq<Unit>): (k: nat)
    requires |units| > 0
    ensures k < |units|
    ensures forall j :: 0 <= j < |units| ==> units[j].elapsed <= units[k].elapsed
    ensures forall j :: 0 <= j < k ==> units[j].elapsed < units[k].elapsed
  {
    if |units| == 1 then 0
    else
      var last := |units| - 1;
      var k := MaxByTime(units[..last]);
      assert units[..last][k] == units[k];
      assert forall j :: 0 <= j < last ==> units[..last][j] == units[j];
      if units[last].elapsed > units[k].elapsed then last else k
  }

  /** `average_unit`: the identified pairs (None when there are none) and the mean time. */
  datatype UnitAverage = UnitAverage(identified: Option<seq<Unit>>, elapsed: real)

  /** The aggregates `calculate_results` adds to a site's dict. */
  datatype Stats = Stats(
    averageWithTag: real, averageWithoutTag: real, maxWithTag: real, maxWithoutTag: real,
    averagePreload: real, averageLayer: real, average990: real, averageUnit: UnitAverage,
    maxPreload: real, maxLayer: real, max990: real, maxUnit: Unit)

  /** A site with a vector that `sum(...)/len(...)` or `max` cannot handle. */
  predicate HasEmptyVector(m: SiteMeasures)
  {
    |m.withTag| == 0 || |m.withoutTag| == 0 || |m.preload| == 0 || |m.layer| == 0
    || |m.at990| == 0 || |m.unit| == 0
  }

  /** The aggregates of one site, or None when a vector is empty (ZeroDivisionError, ValueError). */
  function SiteStats(m: SiteMeasures): Option<Stats>
  {
    if HasEmptyVector(m) then None else Some(StatsOf(m))
  }

  /** The aggregates of a site whose vectors are all non-empty. */
  function StatsOf(m: SiteMeasures): Stats
    requires !HasEmptyVector(m)
  {
    var identified := Identified(m.unit);
    Stats(
      Mean(m.withTag), Mean(m.withoutTag), Max(m.withTag), Max(m.withoutTag),
      Mean(m.preload), Mean(m.layer), Mean(m.at990),
      UnitAverage(if identified == [] then None else Some(identified), Mean(Times(m.unit))),
      Max(m.preload), Max(m.layer), Max(m.at990), m.unit[MaxByTime(m.unit)])
  }

  /** Every average a site gets is at most the matching maximum. */
  lemma SiteAveragesAtMostMaxima(m: SiteMeasures)
    requires SiteStats(m).Some?
    ensures var st := SiteStats(m).value;
      st.averageWithTag <= st.maxWithTag && st.averageWithoutTag <= st.maxWithoutTag
      && st.averagePreload <= st.maxPreload && st.averageLayer <= st.maxLayer
      && st.average990 <= st.max990
  {
    MeanAtMostMax(m.withTag);
    MeanAtMostMax(m.withoutTag);
    MeanAtMostMax(m.preload);
    MeanAtMostMax(m.layer);
    MeanAtMostMax(m.at990);
  }

  /**
   * `max_unit` is the first pair with the largest time, and that time is at
   * least the mean time of `average_unit`.
   */
  lemma UnitMaximumBounds(m: SiteMeasures)
    requires SiteStats(m).Some?
    ensures var st := SiteStats(m).value;
      st.averageUnit.elapsed <= st.maxUnit.elapsed
    ensures var st := SiteStats(m).value;
      exists k :: 0 <= k < |m.unit| && st.maxUnit == m.unit[k]
        && (forall j :: 0 <= j < |m.unit| ==> m.unit[j].elapsed <= m.unit[k].elapsed)
        && (forall j :: 0 <= j < k ==> m.unit[j].elapsed < m.unit[k].elapsed)
  {
    UnitMeanAtMostMax(m.unit);
  }

  /** The mean time of non-empty unit pairs is at most the time of the pair `max` picks. */
  lemma UnitMeanAtMostMax(units: seq<Unit>)
    requires |units| > 0
    ensures Mean(Times(units)) <= units[MaxByTime(units)].elapsed
  {
    var ts := Times(units);
    var c := units[MaxByTime(units)].elapsed;
    var s, n := Sum(ts), |ts| as real;
    assert s <= n * c by { SumAtMost(ts, c); }
    assert s / n <= c by { DivideAtMost(s, n, c); }
    assert Mean(ts) == s / n;
  }

  /**
   * The first component of `average_unit` is None exactly when no pair has a
   * truthy id, and otherwise holds exactly the pairs that do: it is the
   * filtered list, in order and with repetitions (`IdentifiedAppend`).
   */
  lemma IdentifiedUnits(m: SiteMeasures)
    requires SiteStats(m).Some?
    ensures var st := SiteStats(m).value;
      st.averageUnit.identified == if Identified(m.unit) == [] then None else Some(Identified(m.unit))
    ensures var st := SiteStats(m).value;
      st.averageUnit.identified.None? <==> forall u :: u in m.unit ==> !Truthy(u.id)
    ensures var st := SiteStats(m).value;
      st.averageUnit.identified.Some? ==>
        forall u :: u in st.averageUnit.identified.value <==> u in m.unit && Truthy(u.id)
  {
    var identified := Identified(m.unit);
    IdentifiedCounts(m.unit);
    forall u
      ensures u in identified <==> u in m.unit && Truthy(u.id)
    {
      assert multiset(identified)[u] == if Truthy(u.id) then multiset(m.unit)[u] else 0;
    }
  }

  /**
   * Every site measured over the same positive number of repetitions can be
   * aggregated, and one measured over none cannot: the configured count is
   * the stored one minus 5, so a stored count of 5 or less stops the
   * aggregation at that site.
   */
  lemma AggregatableExactly(m: SiteMeasures, scansNumber: int)
    requires m.HasLength(Iterations(scansNumber))
    ensures SiteStats(m).Some? <==> scansNumber >= 1
  {
  }

  /** A site that can be aggregated. */
  predicate Aggregatable(site: Option<SiteMeasures>)
  {
    site.Some? && !HasEmptyVector(site.value)
  }

  /**
   * The aggregates after the loop over `order` starting from `acc`: each site
   * in turn, until one whose result is None or cannot be aggregated.
   */
  function Aggregated(order: seq<string>, sites: map<string, Option<SiteMeasures>>, acc: map<string, Stats>)
    : map<string, Stats>
    requires forall s :: s in order ==> s in sites
  {
    if order == [] || !Aggregatable(sites[order[0]]) then acc
    else Aggregated(order[1..], sites, acc[order[0] := StatsOf(sites[order[0]].value)])
  }

  /** The loop writes only the entries of the sites it visits. */
  lemma {:induction false} AggregationKeepsOtherEntries(
    order: seq<string>, sites: map<string, Option<SiteMeasures>>, acc: map<string, Stats>, s: string)
    requires forall s :: s in order ==> s in sites
    requires s !in order
    ensures var r := Aggregated(order, sites, acc);
      (s in r <==> s in acc) && (s in acc ==> r[s] == acc[s])
  {
    if order != [] && Aggregatable(sites[order[0]]) {
      assert forall t :: t in order[1..] ==> t in order;
      AggregationKeepsOtherEntries(order[1..], sites, acc[order[0] := StatsOf(sites[order[0]].value)], s);
    }
  }

  /** One turn of the loop over a site that can be aggregated. */
  lemma AggregatedStep(order: seq<string>, sites: map<string, Option<SiteMeasures>>, acc: map<string, Stats>)
    requires forall s :: s in order ==> s in sites
    requires order != [] && Aggregatable(sites[order[0]])
    ensures forall s :: s in order[1..] ==> s in sites
    ensures Aggregated(order, sites, acc)
      == Aggregated(order[1..], sites, acc[order[0] := StatsOf(sites[order[0]].value)])
  {
    assert forall s :: s in order[1..] ==> s in order;
  }

  /**
   * When every site can be aggregated, every site gets its own aggregates
   * (and, by `AggregationKeepsOtherEntries`, nothing else changes).
   */
  lemma {:induction false} AllSitesAggregated(
    order: seq<string>, sites: map<string, Option<SiteMeasures>>, acc: map<string, Stats>)
    requires forall s :: s in order ==> s in sites
    requires forall s :: s in order ==> sites[s].Some? && !HasEmptyVector(sites[s].value)
    ensures var r := Aggregated(order, sites, acc);
      forall s :: s in order ==> s in r && r[s] == StatsOf(sites[s].value)
  {
    if order != [] {
      var s0, rest := order[0], order[1..];
      var acc' := acc[s0 := StatsOf(sites[s0].value)];
      AggregatedStep(order, sites, acc);
      assert forall s :: s in rest ==> sites[s].Some? && !HasEmptyVector(sites[s].value) by {
        assert forall s :: s in rest ==> s in order;
      }
      AllSitesAggregated(rest, sites, acc');
      if s0 !in rest {
        AggregationKeepsOtherEntries(rest, sites, acc', s0);
      }
      assert forall s :: s in order ==> s == s0 || s in rest;
    }
  }

  /**
   * A site that cannot be aggregated ends the loop: the result is what the
   * sites before it produced, and no later site gets aggregates.
   */
  lemma {:induction false} FailureStopsAggregation(
    order: seq<string>, sites: map<string, Option<SiteMeasures>>, acc: map<string, Stats>, k: nat)
    requires forall s :: s in order ==> s in sites
    requires k < |order| && !Aggregatable(sites[order[k]])
    ensures Aggregated(order, sites, acc) == Aggregated(order[..k], sites, acc)
  {
    if k > 0 && Aggregatable(sites[order[0]]) {
      var acc' := acc[order[0] := StatsOf(sites[order[0]].value)];
      var prefix := order[..k];
      assert prefix[0] == order[0] && prefix[1..] == order[1..][..k - 1];
      assert forall s :: s in prefix ==> s in order;
      AggregatedStep(order, sites, acc);
      AggregatedStep(prefix, sites, acc);
      FailureStopsAggregation(order[1..], sites, acc', k - 1);
    }
  }

  /** The results dict of a whole run, updated in place by the aggregation. */
  class Report {
    /** The dict's iteration order. */
    var order: seq<string>
    /** Each site's measurements, or None when measuring it failed. */
    var sites: map<string, Option<SiteMeasures>>
    /** The aggregates added to each site's dict so far. */
    var stats: map<string, Stats>

    ghost predicate Valid()
      reads this
    {
      (forall s :: s in sites <==> s in order)
      && (forall i, j :: 0 <= i < j < |order| ==> order[i] != order[j])
    }

    constructor (order: seq<string>, sites: map<string, Option<SiteMeasures>>)
      requires forall s :: s in sites <==> s in order
      requires forall i, j :: 0 <= i < j < |order| ==> order[i] != order[j]
      ensures Valid()
      ensures this.order == order && this.sites == sites && stats == map[]
    {
      this.order := order;
      this.sites := sites;
      stats := map[];
    }

    /** `calculate_results`: aggregate the sites in order until one fails. */
    method CalculateResults()
      requires Valid()
      modifies this`stats
      ensures Valid()
      ensures stats == Aggregated(order, sites, old(stats))
    {
      var order, sites := this.order, this.sites;
      var i := 0;
      while i < |order|
        invariant 0 <= i <= |order|
        invariant forall s :: s in order[i..] ==> s in sites
        invariant Aggregated(order, sites, old(stats)) == Aggregated(order[i..], sites, stats)
      {
        var site := sites[order[i]];
        if !Aggregatable(site) {
          // `None[...]` raises TypeError, an empty vector ZeroDivisionError
          // or ValueError; `catching` swallows it and the loop ends
          return;
        }
        assert order[i..][1..] == order[i + 1..];
        stats := stats[order[i] := StatsOf(site.value)];
        i := i + 1;
      }
    }
  }
}
