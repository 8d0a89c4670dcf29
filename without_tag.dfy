/**
 * The pass without the ad tag (`test_load_time_without_tag` in
 * tool/crawler.py): every repetition navigates to the page and records the
 * elapsed time, a navigation timeout included; then the last loaded document
 * is classified once. Any other exception leaves the method, and the
 * `catching` decorator turns the whole pass into None.
 */
module WithoutTag {
  import opened Outcomes
  import opened Position

  /** One navigation: how it ended and the clock readings around it. */
  datatype Navigation = Navigation(outcome: StepOutcome, start: real, end: real)

  /** The navigation ended normally or by the one exception the loop catches. */
  predicate Survives(n: Navigation)
  {
    n.outcome == Completed || n.outcome == TimedOut
  }

  /** The `time_measures` dict of the pass without the tag. */
  datatype WithoutTagMeasures = WithoutTagMeasures(withoutTag: seq<real>, position: Placement)

  /**
   * The `without_tag` vector of the repetitions in `env`, or None when one of
   * them raised an exception other than a timeout. Each repetition records
   * its elapsed time as it is: a timeout is never replaced by the sentinel.
   */
  function WithoutTagTimes(env: seq<Navigation>): (r: Option<seq<real>>)
    ensures r.Some? <==> forall i :: 0 <= i < |env| ==> Survives(env[i])
    ensures r.Some? ==>
      |r.value| == |env| && forall i :: 0 <= i < |env| ==> r.value[i] == env[i].end - env[i].start
  {
    if env == [] then Some([])
    else
      var last := env[|env| - 1];
      match WithoutTagTimes(env[..|env| - 1])
      case None => None
      case Some(times) => if Survives(last) then Some(times + [last.end - last.start]) else None
  }

  /** The result of the whole pass: the vector and the classification of `doc`. */
  function WithoutTagPass(env: seq<Navigation>, doc: Document): Option<WithoutTagMeasures>
  {
    match (WithoutTagTimes(env), Classify(doc))
    case (Some(times), Some(position)) => Some(WithoutTagMeasures(times, position))
    case _ => None
  }

  /**
   * On a clock that never runs backwards every recorded time is
   * non-negative, and none is the substituted sentinel: it is the time the
   * navigation took, even when it timed out.
   */
  lemma WithoutTagTimesMeasured(env: seq<Navigation>, doc: Document)
    requires forall i :: 0 <= i < |env| ==> env[i].start <= env[i].end
    requires WithoutTagPass(env, doc).Some?
    ensures var times := WithoutTagPass(env, doc).value.withoutTag;
      |times| == |env| && forall i :: 0 <= i < |env| ==> times[i] == env[i].end - env[i].start >= 0.0
  {
  }

  /**
   * The repetition loop, followed by the classification of the last loaded
   * document.
   */
  method RunWithoutTag(scansNumber: int, env: seq<Navigation>, doc: Document)
    returns (r: Option<WithoutTagMeasures>)
    requires |env| == Iterations(scansNumber)
    ensures r == WithoutTagPass(env, doc)
    ensures r.Some? ==> |r.value.withoutTag| == Iterations(scansNumber)
  {
    var withoutTag := [];
    var i := 0;
    while i < Iterations(scansNumber)
      invariant 0 <= i <= |env|
      invariant WithoutTagTimes(env[..i]) == Some(withoutTag)
    {
      var navigation := env[i];
      if !Survives(navigation) {
        // the exception leaves the method; `catching` returns None
        assert !Survives(env[i]);
        return None;
      }
      withoutTag := withoutTag + [navigation.end - navigation.start];
      assert env[..i + 1][..i] == env[..i];
      i := i + 1;
    }
    assert env[..i] == env;
    var position := Classify(doc);
    if position.None? {
      return None;
    }
    r := Some(WithoutTagMeasures(withoutTag, position.value));
  }
}
