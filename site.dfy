/**
 * One website's measurements (`test_load_time` in tool/crawler.py): the pass
 * with the tag, then the pass without it, merged into one dict of seven
 * entries. When the pass without the tag failed (its result is None), the
 * lookup into it raises and `catching` makes the site's result None.
 */
module Site {
  import opened Outcomes
  import opened Measurement
  import opened Position
  import opened WithoutTag

  /** The per-site dict that the aggregation later reads. */
  datatype SiteMeasures = SiteMeasures(
    preload: seq<real>, withoutTag: seq<real>, at990: seq<real>, withTag: seq<real>,
    position: Placement, layer: seq<real>, unit: seq<Unit>)
  {
    /** Every vector has `n` entries. */
    predicate HasLength(n: nat)
    {
      |preload| == n && |withoutTag| == n && |at990| == n && |withTag| == n
      && |layer| == n && |unit| == n
    }
  }

  /** The merge of the two passes' results. */
  function Merge(w: WithTagMeasures, wo: Option<WithoutTagMeasures>): Option<SiteMeasures>
  {
    match wo
    case None => None
    case Some(v) => Some(SiteMeasures(w.preload, v.withoutTag, w.at990, w.withTag, v.position, w.layer, w.unit))
  }

  /**
   * Both passes over the same number of repetitions, merged: the site has a
   * result exactly when the pass without the tag has one, and then every
   * vector holds one entry per repetition, each the one its pass recorded.
   */
  method TestLoadTime(scansNumber: int, withEnv: seq<Observation>, withoutEnv: seq<Navigation>, doc: Document)
    returns (r: Option<SiteMeasures>)
    requires |withEnv| == Iterations(scansNumber) && |withoutEnv| == Iterations(scansNumber)
    ensures r.Some? <==> WithoutTagPass(withoutEnv, doc).Some?
    ensures r.Some? ==> r.value.HasLength(Iterations(scansNumber))
    ensures r.Some? ==>
      var w, v := WithTagPass(withEnv), WithoutTagPass(withoutEnv, doc).value;
      r.value.preload == w.preload && r.value.at990 == w.at990 && r.value.withTag == w.withTag
      && r.value.layer == w.layer && r.value.unit == w.unit
      && r.value.withoutTag == v.withoutTag && r.value.position == v.position
  {
    var withTag := RunWithTag(scansNumber, withEnv);
    var withoutTag := RunWithoutTag(scansNumber, withoutEnv, doc);
    r := Merge(withTag, withoutTag);
  }
}
