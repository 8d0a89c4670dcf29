/**
 * The pass with the ad tag (`test_load_time_with_tag` in tool/crawler.py):
 * every repetition loads the page, injects the tag script and then waits, in
 * order, for the tag's own script element, for the 990 pixel and, whatever
 * happened before, for the terminal 985/983 pixel. Each repetition appends one
 * value to each of the five vectors `preload`, `990`, `with_tag`, `layer` and
 * `unit`.
 *
 * The browser is replaced by an `Observation` per repetition: how each step
 * ended, what `parse_qs` made of the terminal pixel's whole `src` URL, and the
 * readings of the clock taken along the way.
 */
module Measurement {
  import opened Outcomes

  /**
   * What `parse_qs` returns for the pixel's whole `src` URL: each key with the
   * list of its values. The URL is not split first, so the first key carries
   * the URL prefix up to `?`.
   */
  type Query = map<string, seq<string>>

  /** The identifier stored in place of a unit id when the unit was not shown because of caps. */
  const CapsMarker: string := "Failed on caps"

  /** The `ai` code of the terminal pixel that signals caps. */
  const CapsCode: string := "983"

  /**
   * The readings of `time.time()` in one repetition, in program order:
   * before navigation, after injection, when the tag script was seen, when the
   * layer wait started, and the three readings after the 990 pixel was seen,
   * then the one after the terminal pixel was seen.
   */
  datatype Readings = Readings(
    pageStart: real, tagStart: real, tagFound: real, layerStart: real,
    pageEnd: real, end990: real, layerEnd: real, unitEnd: real)

  /** A clock that never runs backwards. */
  ghost predicate Monotone(c: Readings)
  {
    c.pageStart <= c.tagStart <= c.tagFound <= c.layerStart <= c.pageEnd
    <= c.end990 <= c.layerEnd <= c.unitEnd
  }

  /** What looking up the terminal pixel element gave. */
  datatype PixelLookup =
    | PixelFound(query: Query)   // the element, with `parse_qs` of its `src`
    | PixelMissing              // NoSuchElementException
    | PixelFailed               // any other exception

  /** Everything the browser and the clock decide in one repetition. */
  datatype Observation = Observation(
    pageLoad: StepOutcome,      // delete cookies, navigate, inject the tag script
    tagWait: StepOutcome,       // wait for the tag's own script element
    pixel990Wait: StepOutcome,  // wait for the 990 pixel
    unitWait: StepOutcome,      // wait for the 985 / 983 pixel
    pixel: PixelLookup,         // find that pixel and parse its `src`
    clock: Readings)

  /**
   * The Python value left in `unit_id`: None, a string (a uid or the caps
   * marker), or the parsed query dict itself when a key lookup on it failed.
   */
  datatype UnitId = NoUnit | Id(text: string) | QueryDict(params: Query)

  /** Python truthiness of a unit id. */
  predicate Truthy(id: UnitId)
  {
    match id
    case NoUnit => false
    case Id(s) => |s| > 0
    case QueryDict(q) => |q| > 0
  }

  /** One entry of the `unit` vector: the pair `(unit_id, end_loading_unit)`. */
  datatype Unit = Unit(id: UnitId, elapsed: real)

  /** The four durations one repetition measures, before the unit pixel. */
  datatype Milestones = Milestones(preload: real, at990: real, withTag: real, layer: real)

  /** What one repetition appends: one value to each of the five vectors. */
  datatype Row = Row(preload: real, at990: real, withTag: real, layer: real, unit: Unit)

  /** The row appended when an exception escapes the repetition. */
  const SentinelRow: Row := Row(Sentinel, Sentinel, Sentinel, Sentinel, Unit(NoUnit, 0.0))

  /** A wait whose failure the crawler catches by type. */
  predicate Missed(s: StepOutcome)
  {
    s == TimedOut || s == NotFound
  }

  /**
   * The inner `try` with its two handlers: the four durations, or None when
   * an exception the handlers do not catch leaves it. A missed wait applies
   * `x or 100` to all four locals, so a preload measured before the 990 wait
   * failed survives unless it is zero.
   */
  function MilestoneStage(o: Observation): Option<Milestones>
  {
    var c := o.clock;
    match o.tagWait
    case Failed => None
    case TimedOut | NotFound =>
      Some(Milestones(OrSentinel(None), OrSentinel(None), OrSentinel(None), OrSentinel(None)))
    case Completed =>
      var preload := c.tagFound - c.tagStart;
      match o.pixel990Wait
      case Failed => None
      case TimedOut | NotFound =>
        Some(Milestones(OrSentinel(Some(preload)), OrSentinel(None), OrSentinel(None), OrSentinel(None)))
      case Completed =>
        Some(Milestones(preload, c.end990 - c.tagStart, c.pageEnd - c.pageStart, c.layerEnd - c.layerStart))
  }

  /**
   * The `finally` block: the unit pair, or None when an exception its three
   * handlers do not catch leaves it (an empty `ai` list, a `uid` with other
   * than one value, any other driver error). The elapsed time is set as soon
   * as the wait succeeds, so a later lookup failure keeps it.
   */
  function UnitStage(o: Observation): Option<Unit>
  {
    match o.unitWait
    case Failed => None
    case TimedOut | NotFound => Some(Unit(NoUnit, 0.0))
    case Completed =>
      var t := o.clock.unitEnd - o.clock.tagStart;
      match o.pixel
      case PixelFailed => None
      case PixelMissing => Some(Unit(NoUnit, t))
      case PixelFound(q) =>
        if "ai" !in q then Some(Unit(QueryDict(q), t))
        else if |q["ai"]| == 0 then None
        else if q["ai"][0] == CapsCode then Some(Unit(Id(CapsMarker), t))
        else if "uid" !in q then Some(Unit(QueryDict(q), t))
        else if |q["uid"]| != 1 then None
        else Some(Unit(Id(q["uid"][0]), t))
  }

  /** One repetition of the with-tag loop: the row it appends. */
  function Repetition(o: Observation): Row
  {
    if o.pageLoad != Completed then SentinelRow
    else
      match (MilestoneStage(o), UnitStage(o))
      case (Some(m), Some(u)) => Row(m.preload, m.at990, m.withTag, m.layer, u)
      case _ => SentinelRow
  }

  /** A failed navigation or injection (a page-load timeout included) gives the sentinel row. */
  lemma PageLoadFailureGivesSentinelRow(o: Observation)
    requires o.pageLoad != Completed
    ensures Repetition(o) == SentinelRow
  {
  }

  /**
   * An exception other than the handled ones, in either milestone wait or in
   * the terminal pixel step, turns the whole repetition into the sentinel row.
   */
  lemma UncaughtExceptionGivesSentinelRow(o: Observation)
    requires o.tagWait == Failed || (o.tagWait == Completed && o.pixel990Wait == Failed)
             || o.unitWait == Failed || (o.unitWait == Completed && o.pixel == PixelFailed)
    ensures Repetition(o) == SentinelRow
  {
  }

  /**
   * When the tag script never shows up, the four durations are all the
   * sentinel; the unit pair is the one the `finally` block produced, if any.
   */
  lemma TagWaitMissGivesSentinels(o: Observation)
    requires o.pageLoad == Completed && Missed(o.tagWait)
    ensures var r := Repetition(o);
      r.preload == Sentinel && r.at990 == Sentinel && r.withTag == Sentinel && r.layer == Sentinel
    ensures UnitStage(o).Some? ==> Repetition(o).unit == UnitStage(o).value
  {
  }

  /**
   * When the tag script showed up but the 990 pixel did not, the measured
   * preload is kept unless it is zero, and the other three are the sentinel.
   */
  lemma PixelWaitMissKeepsPreload(o: Observation)
    requires o.pageLoad == Completed && o.tagWait == Completed && Missed(o.pixel990Wait)
    requires UnitStage(o).Some?
    ensures var measured := o.clock.tagFound - o.clock.tagStart;
      Repetition(o).preload == (if measured == 0.0 then Sentinel else measured)
    ensures var r := Repetition(o);
      r.at990 == Sentinel && r.withTag == Sentinel && r.layer == Sentinel
    ensures Repetition(o).unit == UnitStage(o).value
  {
  }

  /**
   * When every milestone is reached, no duration is substituted: each is the
   * difference of its two clock readings. On a clock that never runs
   * backwards they are non-negative, the preload is at most the 990 time and
   * the page time, and a measured unit time is at least the 990 time.
   */
  lemma AllMilestonesMeasured(o: Observation)
    requires o.pageLoad == Completed && o.tagWait == Completed && o.pixel990Wait == Completed
    requires UnitStage(o).Some?
    ensures var r, c := Repetition(o), o.clock;
      r.preload == c.tagFound - c.tagStart && r.at990 == c.end990 - c.tagStart
      && r.withTag == c.pageEnd - c.pageStart && r.layer == c.layerEnd - c.layerStart
    ensures var r := Repetition(o);
      Monotone(o.clock) ==>
        0.0 <= r.preload <= r.at990 && r.preload <= r.withTag && 0.0 <= r.layer
        && (o.unitWait == Completed ==> r.at990 <= r.unit.elapsed)
    ensures Repetition(o).unit == UnitStage(o).value
  {
  }

  /**
   * Whenever the page loaded and neither the milestone waits nor the
   * `finally` block raised past their handlers, the appended unit pair is the
   * one the `finally` block produced, whatever the milestones were.
   */
  lemma UnitPairAppended(o: Observation)
    requires o.pageLoad == Completed && MilestoneStage(o).Some? && UnitStage(o).Some?
    ensures Repetition(o).unit == UnitStage(o).value
    ensures var m := MilestoneStage(o).value; var r := Repetition(o);
      r.preload == m.preload && r.at990 == m.at990 && r.withTag == m.withTag && r.layer == m.layer
  {
  }

  /** A missed terminal pixel wait gives the pair (None, 0). */
  lemma UnitWaitMissGivesEmptyPair(o: Observation)
    requires Missed(o.unitWait)
    ensures UnitStage(o) == Some(Unit(NoUnit, 0.0))
  {
  }

  /**
   * A found terminal pixel gives the caps marker when its first `ai` value is
   * the caps code, and otherwise the single `uid` value; in both cases with
   * the time since the tag was injected.
   */
  lemma UnitPixelIdentified(o: Observation, q: Query)
    requires o.unitWait == Completed && o.pixel == PixelFound(q)
    requires "ai" in q && |q["ai"]| > 0
    ensures var t := o.clock.unitEnd - o.clock.tagStart;
      q["ai"][0] == CapsCode ==> UnitStage(o) == Some(Unit(Id(CapsMarker), t))
    ensures var t := o.clock.unitEnd - o.clock.tagStart;
      q["ai"][0] != CapsCode && "uid" in q && |q["uid"]| == 1 ==>
        UnitStage(o) == Some(Unit(Id(q["uid"][0]), t))
  {
  }

  /**
   * A lookup failure after the pixel wait succeeded keeps the measured time:
   * a missing element leaves the id None, a missing key leaves the parsed
   * query dict in `unit_id`.
   */
  lemma UnitLookupFailureKeepsTime(o: Observation)
    requires o.unitWait == Completed && !o.pixel.PixelFailed?
    requires o.pixel.PixelFound? ==>
      var q := o.pixel.query;
      "ai" !in q || (|q["ai"]| > 0 && q["ai"][0] != CapsCode && "uid" !in q)
    ensures UnitStage(o).Some?
    ensures UnitStage(o).value.elapsed == o.clock.unitEnd - o.clock.tagStart
    ensures o.pixel.PixelMissing? ==> UnitStage(o).value.id == NoUnit
    ensures o.pixel.PixelFound? ==> UnitStage(o).value.id == QueryDict(o.pixel.query)
  {
  }

  /** A `uid` with other than exactly one value fails the unpacking and the repetition. */
  lemma AmbiguousUidGivesSentinelRow(o: Observation, q: Query)
    requires o.unitWait == Completed && o.pixel == PixelFound(q)
    requires "ai" in q && |q["ai"]| > 0 && q["ai"][0] != CapsCode
    requires "uid" in q && |q["uid"]| != 1
    ensures Repetition(o) == SentinelRow
  {
  }

  /** On a clock that never runs backwards, every value a repetition appends is non-negative. */
  lemma RowNonNegative(o: Observation)
    requires Monotone(o.clock)
    ensures var r := Repetition(o);
      r.preload >= 0.0 && r.at990 >= 0.0 && r.withTag >= 0.0 && r.layer >= 0.0 && r.unit.elapsed >= 0.0
  {
  }

  /** The `time_measures` dict of the with-tag pass: five vectors. */
  datatype WithTagMeasures = WithTagMeasures(
    preload: seq<real>, at990: seq<real>, withTag: seq<real>, layer: seq<real>, unit: seq<Unit>)
  {
    /** All five vectors have `n` entries. */
    predicate HasLength(n: nat)
    {
      |preload| == n && |at990| == n && |withTag| == n && |layer| == n && |unit| == n
    }

    /** The five vectors after one more repetition. */
    function Append(r: Row): WithTagMeasures
    {
      WithTagMeasures(preload + [r.preload], at990 + [r.at990], withTag + [r.withTag],
                      layer + [r.layer], unit + [r.unit])
    }

    /** The values the `i`-th repetition contributed. */
    function RowAt(i: nat): Row
      requires HasLength(|preload|) && i < |preload|
    {
      Row(preload[i], at990[i], withTag[i], layer[i], unit[i])
    }
  }

  /**
   * The vectors after the repetitions observed in `env`, one row each, in
   * order: every repetition appends exactly one value to each vector.
   */
  function WithTagPass(env: seq<Observation>): (m: WithTagMeasures)
    ensures m.HasLength(|env|)
  {
    if env == [] then WithTagMeasures([], [], [], [], [])
    else WithTagPass(env[..|env| - 1]).Append(Repetition(env[|env| - 1]))
  }

  /** The `i`-th entry of every vector is what the `i`-th repetition produced. */
  lemma {:induction false} WithTagPassAt(env: seq<Observation>, i: nat)
    requires i < |env|
    ensures WithTagPass(env).RowAt(i) == Repetition(env[i])
  {
    var last := |env| - 1;
    if i < last {
      assert env[..last][i] == env[i];
      WithTagPassAt(env[..last], i);
    }
  }

  /**
   * A repetition is isolated from the others: changing what happens in
   * repetition `i` (an exception, say) changes no other repetition's entries.
   */
  lemma RepetitionsIndependent(env: seq<Observation>, env': seq<Observation>, i: nat)
    requires |env| == |env'| && i < |env|
    requires forall j :: 0 <= j < |env| && j != i ==> env[j] == env'[j]
    ensures forall j :: 0 <= j < |env| && j != i ==>
      WithTagPass(env).RowAt(j) == WithTagPass(env').RowAt(j)
  {
    forall j | 0 <= j < |env| && j != i
      ensures WithTagPass(env).RowAt(j) == WithTagPass(env').RowAt(j)
    {
      WithTagPassAt(env, j);
      WithTagPassAt(env', j);
    }
  }

  /**
   * A repetition whose page load raises (a timeout included) contributes 100
   * to the four duration vectors and (None, 0) to `unit`, and the vectors still
   * hold one entry per repetition; `RepetitionsIndependent` says the other
   * entries do not change.
   */
  lemma FailedRepetitionContributesSentinels(env: seq<Observation>, i: nat)
    requires i < |env| && env[i].pageLoad != Completed
    ensures WithTagPass(env).HasLength(|env|)
    ensures WithTagPass(env).RowAt(i) == SentinelRow
  {
    WithTagPassAt(env, i);
  }

  /**
   * The repetition loop: `scansNumber` times, build the row of one repetition
   * and append each of its values to its vector.
   */
  method RunWithTag(scansNumber: int, env: seq<Observation>) returns (m: WithTagMeasures)
    requires |env| == Iterations(scansNumber)
    ensures m == WithTagPass(env)
    ensures m.HasLength(Iterations(scansNumber))
  {
    var preload, at990, withTag, layer, unit := [], [], [], [], [];
    var i := 0;
    while i < Iterations(scansNumber)
      invariant 0 <= i <= |env|
      invariant WithTagMeasures(preload, at990, withTag, layer, unit) == WithTagPass(env[..i])
    {
      var row := Repetition(env[i]);
      preload := preload + [row.preload];
      at990 := at990 + [row.at990];
      withTag := withTag + [row.withTag];
      layer := layer + [row.layer];
      unit := unit + [row.unit];
      assert env[..i + 1][..i] == env[..i];
      i := i + 1;
    }
    assert env[..i] == env;
    m := WithTagMeasures(preload, at990, withTag, layer, unit);
  }
}
