# Page-load measurement engine of the ad-tag crawler, in Dafny

This project models the measurement engine of the `Crawler` class in
`tool/crawler.py`. The crawler loads each configured website a given number of
times with an injected ad tag and the same number of times without it. It
records how long each milestone takes, classifies where a tag whose `src`
mentions `preload` sits in the page, and reduces every timing vector to its mean and maximum.

The browser, the clock and the HTML parser are replaced by inputs:

- Each step of a repetition is a `StepOutcome`: `Completed`, `TimedOut`
  (TimeoutException), `NotFound` (NoSuchElementException) or `Failed` (any other
  exception).
- The terminal pixel lookup gives `parse_qs` of its whole `src` URL. The URL is
  not split first, so the first key carries the URL prefix up to `?`.
- Each call to `time.time()` is a named reading in a `Readings` record.
  `Monotone` states that the clock never runs backwards. It is used only as a
  hypothesis of lemmas.
- The parsed page is a tree of `Node`s with optional `src` attributes. Both
  regular expressions (`preload` and `preload.js`, where `.` matches any
  character except a newline) are modelled exactly as searches over the
  string.

Modules, one per component:

- `Outcomes` (`outcomes.dfy`): shared vocabulary. It defines the sentinel
  `100`, Python's `x or 100`, and the repetition count of `xrange(n)`.
- `Measurement` (`measurement.dfy`): the pass with the tag. A pure function
  `Repetition` builds the row of one repetition. `WithTagPass` is its
  specification over a whole run. The method `RunWithTag` is the loop that
  appends to the five vectors.
- `Position` (`position.dfy`): the tag-position classifier.
- `WithoutTag` (`without_tag.dfy`): the pass without the tag. `WithoutTagTimes`
  specifies it, and the method `RunWithoutTag` is its loop.
- `Site` (`site.dfy`): `test_load_time`, which merges the results of the two
  passes.
- `Aggregation` (`aggregation.dfy`): `calculate_results`. Each site's
  aggregates are a function (`SiteStats`). The in-place loop over the results
  dict is the method `Report.CalculateResults`.

Behaviour of the code that the model reproduces:

- When the 990 pixel wait fails, `preload` keeps its measured value unless
  that value is exactly zero, because `end_loading_tag or 100` is applied to
  it (tool/crawler.py:239-248).
- The caps marker is the string `Failed on caps` (tool/crawler.py:259-261).
- A key lookup that fails after the terminal pixel was parsed leaves the
  parsed query dict in `unit_id`, and the measured time is kept
  (tool/crawler.py:256-270).
- A `uid` with more than one value, or an empty `ai` list, raises an
  exception that the inner handlers do not catch, so that repetition appends
  the all-sentinel row (tool/crawler.py:259-263, 277-283).
- A page-load timeout in `driver.get` in the pass with the tag happens
  outside the inner `try`, so it also appends the all-sentinel row
  (tool/crawler.py:208, 277-283).
- The first component of `average_unit` is the filtered list of pairs with a
  truthy id, or None when that list is empty (tool/crawler.py:164).
- An empty vector makes `sum(...)/len(...)` or `max` raise. The `catching`
  decorator swallows the exception, which ends `calculate_results` for that
  site and for every site after it (tool/crawler.py:154-171). The configured
  repetition count is the stored count minus 5 (tool/crawler.py:368), so a
  stored count of 5 or less leads there.
- In the pass without the tag, an exception other than a navigation timeout
  makes the whole pass None (tool/crawler.py:298-310), and the lookup into
  that None makes the site's result None too (tool/crawler.py:349-355). A
  missing `<head>` in the parsed page does the same, and so does a missing
  `<body>` when the head has no match (tool/crawler.py:315-320).

## Model

| member | source | states |
|---|---|---|
| `Outcomes.OrSentinel` | tool/crawler.py:239-248 | Python's `x or 100` on a duration that may be None. It has no contract of its own; `PixelWaitMissKeepsPreload` and `TagWaitMissGivesSentinels` state its effect on the row |
| `Outcomes.Iterations` | tool/crawler.py:201 | the number of passes of `xrange(scans_number)`. It has no contract of its own; `RunWithTag`, `RunWithoutTag` and `AggregatableExactly` state what a negative or zero count gives |
| `Measurement.MilestoneStage` | tool/crawler.py:221-248 | the inner `try` and its two handlers. It has no contract of its own; its cases are stated by `TagWaitMissGivesSentinels`, `PixelWaitMissKeepsPreload`, `AllMilestonesMeasured` and `UncaughtExceptionGivesSentinelRow` |
| `Measurement.UnitStage` | tool/crawler.py:249-270 | the `finally` block with its three handlers. It has no contract of its own; its cases are stated by `UnitWaitMissGivesEmptyPair`, `UnitPixelIdentified`, `UnitLookupFailureKeepsTime`, `AmbiguousUidGivesSentinelRow` and `UncaughtExceptionGivesSentinelRow` |
| `Measurement.Repetition` | tool/crawler.py:203-283 | the row one repetition appends. It has no contract of its own; its cases are the lemmas from `PageLoadFailureGivesSentinelRow` to `RowNonNegative` below |
| `Measurement.PageLoadFailureGivesSentinelRow` | tool/crawler.py:205-283 | a failure while clearing cookies, navigating (a page-load timeout included) or injecting the tag gives the row 100, 100, 100, 100, (None, 0) |
| `Measurement.UncaughtExceptionGivesSentinelRow` | tool/crawler.py:221-283 | an exception other than the handled ones, in either milestone wait, the terminal pixel wait or its lookup, gives the all-sentinel row |
| `Measurement.TagWaitMissGivesSentinels` | tool/crawler.py:221-248 | when the tag script wait times out or finds nothing, `preload`, `990`, `with_tag` and `layer` are all 100, and the unit pair is the one the terminal pixel step produced whenever that step did not raise |
| `Measurement.PixelWaitMissKeepsPreload` | tool/crawler.py:227-248 | when the tag script is seen but the 990 pixel wait fails, `preload` keeps its measured value unless that value is 0, the other three become 100, and the unit pair is the one the terminal pixel step produced |
| `Measurement.AllMilestonesMeasured` | tool/crawler.py:207-256 | when every milestone is reached, no value is substituted: each is the difference of its clock readings. On a monotone clock they are non-negative, `preload` is at most `990` and `with_tag`, and a measured unit time is at least `990`. The unit pair is the one the terminal pixel step produced |
| `Measurement.UnitPairAppended` | tool/crawler.py:221-276 | whenever the page loaded and neither the milestone waits nor the terminal pixel step raised past their handlers, the row holds the milestone durations and the unit pair of the terminal pixel step (so, for example, a pixel with `ai=983` appends `Failed on caps`) |
| `Measurement.UnitWaitMissGivesEmptyPair` | tool/crawler.py:250-268 | a missed terminal pixel wait gives the pair (None, 0) |
| `Measurement.UnitPixelIdentified` | tool/crawler.py:253-264 | a found pixel whose first `ai` value is `983` gives (`Failed on caps`, t). Otherwise a single `uid` value gives (that uid, t). Here t is the time since the tag was injected |
| `Measurement.UnitLookupFailureKeepsTime` | tool/crawler.py:256-270 | after the pixel wait succeeded, a missing element (id None) or a missing key (id the parsed dict) keeps the measured time |
| `Measurement.AmbiguousUidGivesSentinelRow` | tool/crawler.py:259-283 | a `uid` with other than exactly one value fails the unpacking, and the repetition becomes the all-sentinel row |
| `Measurement.RowNonNegative` | tool/crawler.py:207-283 | on a monotone clock every value a repetition appends is non-negative |
| `Measurement.WithTagPass` | tool/crawler.py:201-283 | after the loop each of the five vectors has exactly one entry per repetition |
| `Measurement.WithTagPassAt` | tool/crawler.py:272-283 | entry i of every vector is what repetition i produced |
| `Measurement.RepetitionsIndependent` | tool/crawler.py:201-283 | changing what happens in one repetition changes no other repetition's entries |
| `Measurement.FailedRepetitionContributesSentinels` | tool/crawler.py:205-283 | a repetition whose page load raises anything, a timeout or a missing element included, contributes 100 to the four duration vectors and (None, 0) to `unit`, and the vector lengths are unchanged |
| `Measurement.RunWithTag` | tool/crawler.py:193-285 | the loop appends `Repetition` of each observation, in order, giving exactly `scans_number` entries per vector (none when the count is negative) |
| `Position.Search` | tool/crawler.py:318 | `re.search` with a pattern of literals and `.`. It has no contract of its own; `PreloadJsMatchesPreload` relates the two patterns |
| `Position.FindAll` | tool/crawler.py:318 | `find_all(src=...)`: the matching tags among the nodes and their descendants, in document order. It has no contract of its own; `FirstMatchIsFirst`, `HeadMatchRejected` and `AcceptedExactly` use it as the reference |
| `Position.MatchesIn` | tool/crawler.py:318 | the matches contributed by one node: itself, then its descendants. It is defined together with `FindAll` |
| `Position.FirstMatch` | tool/crawler.py:318-320 | `find` followed by `index`: no match, a direct child at an index, or a nested match where `index` raises ValueError. It has no contract of its own; `FirstMatchIsFirst`, `FirstMatchAt` and `NestedAtIsNested` tie it to `FindAll` |
| `Position.FirstMatchIsFirst` | tool/crawler.py:318-320 | `find` followed by `index` agrees with the document-order list of matches. There is no match iff that list is empty. A direct child at i matches with nothing matching before it. The first match is nested iff some content that does not match itself holds a match with nothing matching before it |
| `Position.NestedAtIsNested` | tool/crawler.py:318-320 | a first match inside a body content that does not match itself, with nothing matching before that content, is the case where `index` does not find the element |
| `Position.FirstMatchAt` | tool/crawler.py:318-320 | a matching direct child with no match before it is the one `find` returns and `index` locates |
| `Position.PreloadJsMatchesPreload` | tool/crawler.py:318 | every `src` that `preload.js` matches is also matched by `preload` |
| `Position.Classify` | tool/crawler.py:315-327 | the result is None (AttributeError) iff the head is missing, or the head has no match and the body is missing. A classification that is present is `True` or is rejected with exactly one of the two reasons `Tag is located in <head>` and `Tag is located in one of <body></body> children.` |
| `Position.HeadMatchRejected` | tool/crawler.py:318-322 | any tag whose `src` matches `preload`, anywhere in the head, gives the head reason |
| `Position.EarlyBodyScriptRejected` | tool/crawler.py:318-324 | with no head match, a first `preload.js` match that is body content i gives the head reason when i / len(body) < 0.7, and `True` otherwise |
| `Position.NestedBodyScriptRejected` | tool/crawler.py:317-327 | with no head match, a first `preload.js` match inside body content i that does not match itself, with nothing matching before content i (so `index` raises ValueError), gives the children reason |
| `Position.AcceptedExactly` | tool/crawler.py:317-327 | the page is accepted iff it has a head with no tag whose `src` matches `preload`, and a body whose first tag whose `src` matches `preload.js` is absent or is a body content in the last 30% |
| `WithoutTag.WithoutTagPass` | tool/crawler.py:295-330 | the result of the pass without the tag: the times and the classification, or None. It has no contract of its own; `RunWithoutTag` is proved equal to it and `WithoutTagTimesMeasured` states its times |
| `WithoutTag.WithoutTagTimes` | tool/crawler.py:298-310 | the pass survives iff every navigation completed or timed out. Then it has one entry per repetition, each the elapsed time as measured, including timeouts, with no sentinel |
| `WithoutTag.WithoutTagTimesMeasured` | tool/crawler.py:302-310 | on a forward-running clock every recorded time is non-negative and is exactly the navigation's elapsed time |
| `WithoutTag.RunWithoutTag` | tool/crawler.py:295-330 | the loop records the times, stops with None on an uncaught exception, then classifies the last document once |
| `Site.Merge` | tool/crawler.py:349-355 | the seven-entry dict built from the two passes, or None when the pass without the tag has no result. It has no contract of its own; `TestLoadTime` states its fields |
| `Site.TestLoadTime` | tool/crawler.py:346-358 | a site has a result iff the pass without the tag has one. Then all six vectors have one entry per repetition and each is the one its pass recorded |
| `Aggregation.Sum` | tool/crawler.py:155 | Python's `sum`, adding from left to right. It has no contract of its own; `SumAtMost` and `SumOfConstant` bound it |
| `Aggregation.Mean` | tool/crawler.py:155-166 | `sum(v)/len(v)` of a non-empty vector. It has no contract of its own; `MeanAtMostMax`, `UnitMeanAtMostMax` and `AllSentinelMean` state its properties |
| `Aggregation.Times` | tool/crawler.py:165 | `[x[1] for x in unit]`: one time per pair, in order |
| `Aggregation.Identified` | tool/crawler.py:164 | `filter(lambda x: x[0], unit)`. It has no contract of its own; `IdentifiedCounts`, `IdentifiedSingleton`, `IdentifiedSnoc` and `IdentifiedAppend` fix the list it returns |
| `Aggregation.SiteStats` | tool/crawler.py:155-171 | the aggregates of one site, or None when a vector is empty. It has no contract of its own; `AggregatableExactly`, `SiteAveragesAtMostMaxima`, `UnitMaximumBounds` and `IdentifiedUnits` state its properties |
| `Aggregation.StatsOf` | tool/crawler.py:155-171 | the twelve aggregates of a site whose vectors are all non-empty. It has no contract of its own; the lemmas named for `SiteStats` state its fields |
| `Aggregation.Aggregated` | tool/crawler.py:154-171 | the aggregates after the loop over the results dict, stopping at the first site that raises. It has no contract of its own; `AllSitesAggregated`, `AggregationKeepsOtherEntries` and `FailureStopsAggregation` state its properties, and `Report.CalculateResults` is proved equal to it |
| `Aggregation.Max` | tool/crawler.py:158-170 | `max` of a non-empty vector is one of its entries and no entry is larger |
| `Aggregation.MeanAtMostMax` | tool/crawler.py:155-170 | `sum(v)/len(v)` is at most `max(v)` for a non-empty vector |
| `Aggregation.AllSentinelMean` | tool/crawler.py:155-163 | a vector made only of the sentinel has mean 100 |
| `Aggregation.IdentifiedCounts` | tool/crawler.py:164 | the filter keeps exactly the pairs with a truthy id, each as often as it occurs |
| `Aggregation.IdentifiedSingleton` | tool/crawler.py:164 | a single pair is kept iff its id is truthy |
| `Aggregation.IdentifiedSnoc` | tool/crawler.py:164 | appending a pair to the input appends it to the filtered list iff its id is truthy |
| `Aggregation.IdentifiedAppend` | tool/crawler.py:164 | filtering a concatenation concatenates the filtered parts, so the filter keeps the input order. Together with the single-pair case this fixes the list, order and repetitions included |
| `Aggregation.MaxByTime` | tool/crawler.py:171 | `max(..., key=time)` picks a pair with the largest time, and no earlier pair has that time |
| `Aggregation.UnitMeanAtMostMax` | tool/crawler.py:164-171 | the mean unit time is at most the time of the pair `max` picks |
| `Aggregation.SiteAveragesAtMostMaxima` | tool/crawler.py:155-170 | every average a site gets is at most the matching maximum |
| `Aggregation.UnitMaximumBounds` | tool/crawler.py:164-171 | `max_unit` is the first pair with the largest time, and that time is at least the mean time in `average_unit` |
| `Aggregation.IdentifiedUnits` | tool/crawler.py:164 | `average_unit`'s first component is the filtered list itself, in order and with repetitions, or None when that list is empty. It is None iff no pair has a truthy id, and otherwise holds exactly the pairs that do |
| `Aggregation.AggregatableExactly` | tool/crawler.py:155-171 | a site whose vectors all hold one entry per repetition can be aggregated iff the configured count is at least 1 |
| `Aggregation.AggregationKeepsOtherEntries` | tool/crawler.py:154-171 | the loop writes aggregates only for the sites it visits |
| `Aggregation.AllSitesAggregated` | tool/crawler.py:154-171 | when every site can be aggregated, every site gets its own aggregates |
| `Aggregation.FailureStopsAggregation` | tool/crawler.py:146-171 | a site with result None or an empty vector ends the loop, so no later site gets aggregates |
| `Aggregation.Report.constructor` | tool/crawler.py:114-116 | the results dict holds each configured site's result, in its iteration order, with no aggregates yet |
| `Aggregation.Report.CalculateResults` | tool/crawler.py:146-171 | the in-place loop adds exactly the aggregates `Aggregated` describes and changes nothing else |

## Left out

- Browser and proxy setup (`prepare`) and `driver.quit` are left out because they are browser I/O. Each wait, navigation and lookup is an outcome value instead. The model's pass with the tag therefore always has a result. A failure outside its loop, which `catching` would turn into None, is not modelled.
- Wall-clock time is left out. Each `time.time()` call is a named reading. The readings a repetition does not reach are present in the record but unused.
- The BeautifulSoup parse and general regular expressions are left out. The page is given as a tree. Only the two literal-with-`.` patterns the crawler uses are modelled.
- `parse_qs` is left out. The found pixel carries its parsed query dict.
- Floating point is left out: durations and the ratio `i / float(len(body))` are exact reals. Python 2 integer division only arises when every entry is an integer. That can only be all 100s, or unit times that are all 0, and those means are exact either way (`AllSentinelMean`).
- `Aggregation.SiteStats` is all-or-nothing per site. When only a later vector is empty, the source has already added the keys computed before the failing line. The model adds none for that site.
- The iteration order of the results dict (arbitrary in Python 2) is an input, `Report.order`.
- `process` (the loop that calls `test_load_time` for each site) is left out. `Report`'s constructor takes its outcome. `store`, `create_name`, `generate_template` and `send_mail` are left out as file, template and mail I/O.
- `get_configurations`, `initialize`, `get_thresholds`, the module-level configuration and the logging are left out as database, configuration and logging I/O. The repetition count is a parameter, and a negative count means no repetitions.
- `catching` in tool/utils.py is left out as a function. Its effect is modelled as a None result or an early end of the loop it wraps.
- The tag lookup name (`is_layer_active` chooses between two identical placeholders) is left out. It is hidden in the outcome of the tag-script wait.
