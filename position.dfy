/**
 * The tag-position classifier of the pass without the tag: where a tag (of
 * any kind) whose `src` mentions `preload` sits in the last loaded document. The parsed
 * document is a tree of nodes; a tag's `src` attribute is searched with the
 * two regular expressions of the crawler, `preload` and `preload.js` (whose
 * `.` matches any character but a newline).
 */
module Position {
  import opened Outcomes

  /** A node of the parsed document: a text node or a tag with its contents. */
  datatype Node = Text | Tag(src: Option<string>, children: seq<Node>)

  /**
   * The parsed document: the contents of its `<head>` and of its `<body>`,
   * either of which may be absent from the page source.
   */
  datatype Document = Document(head: Option<seq<Node>>, body: Option<seq<Node>>)

  /** The outcome of the classification: `True`, or `(False, reason)`. */
  datatype Placement = Accepted | Rejected(reason: string)

  const HeadReason: string := "Tag is located in <head>"
  const ChildrenReason: string := "Tag is located in one of <body></body> children."

  /** A character of a regular expression made of literals and `.`. */
  datatype PatternChar = Lit(c: char) | AnyButNewline

  function Literal(s: string): seq<PatternChar>
  {
    seq(|s|, i requires 0 <= i < |s| => Lit(s[i]))
  }

  /** The regular expression `preload`. */
  const PreloadPattern: seq<PatternChar> := Literal("preload")

  /** The regular expression `preload.js`. */
  const PreloadJsPattern: seq<PatternChar> := Literal("preload") + [AnyButNewline] + Literal("js")

  predicate CharMatches(p: PatternChar, c: char)
  {
    match p
    case Lit(d) => c == d
    case AnyButNewline => c != '\n'
  }

  /** The pattern matches `s` at offset `k`. */
  predicate MatchesAt(s: string, p: seq<PatternChar>, k: nat)
    requires k + |p| <= |s|
  {
    forall j :: 0 <= j < |p| ==> CharMatches(p[j], s[k + j])
  }

  /** `re.search(p, s)` succeeds. */
  predicate Search(s: string, p: seq<PatternChar>)
  {
    exists k: nat :: k + |p| <= |s| && MatchesAt(s, p, k)
  }

  /** A tag whose `src` attribute exists and matches `p`. */
  predicate SrcMatches(n: Node, p: seq<PatternChar>)
  {
    n.Tag? && n.src.Some? && Search(n.src.value, p)
  }

  /**
   * Every tag among `nodes` and their descendants whose `src` matches `p`, in
   * document order (`find_all`).
   */
  function FindAll(nodes: seq<Node>, p: seq<PatternChar>): seq<Node>
    decreases nodes
  {
    if nodes == [] then [] else MatchesIn(nodes[0], p) + FindAll(nodes[1..], p)
  }

  /** The matches `FindAll` collects from one node: the node itself, then its descendants. */
  function MatchesIn(n: Node, p: seq<PatternChar>): seq<Node>
    decreases n
  {
    (if SrcMatches(n, p) then [n] else []) + (if n.Tag? then FindAll(n.children, p) else [])
  }

  /**
   * Nothing matches among the first `i` contents of `body`, and the first
   * match lies strictly inside content `i`.
   */
  predicate NestedAt(body: seq<Node>, p: seq<PatternChar>, i: nat)
  {
    i < |body| && FindAll(body[..i], p) == [] && !SrcMatches(body[i], p)
    && body[i].Tag? && FindAll(body[i].children, p) != []
  }

  /** Where the first match of `find` lies relative to the body's contents. */
  datatype Location = NoMatch | DirectChild(index: nat) | Nested

  /**
   * `body.find(src=p)` followed by `body.index(...)`: the first match in
   * document order is either one of the body's own contents, at some index,
   * or a descendant of one of them, which `index` does not find.
   */
  function FirstMatch(body: seq<Node>, p: seq<PatternChar>): Location
  {
    if body == [] then NoMatch
    else if SrcMatches(body[0], p) then DirectChild(0)
    else if body[0].Tag? && FindAll(body[0].children, p) != [] then Nested
    else
      match FirstMatch(body[1..], p)
      case DirectChild(i) => DirectChild(i + 1)
      case other => other
  }

  /**
   * `FirstMatch` agrees with the document-order list of all matches: there is
   * no match exactly when that list is empty; a direct child at `i` matches
   * with nothing matching before it; a nested first match lies inside some
   * content `i` that does not match itself, with nothing matching before it.
   */
  lemma {:induction false} FirstMatchIsFirst(body: seq<Node>, p: seq<PatternChar>)
    ensures FirstMatch(body, p) == NoMatch <==> FindAll(body, p) == []
    ensures FirstMatch(body, p).DirectChild? ==>
      var i := FirstMatch(body, p).index;
      i < |body| && SrcMatches(body[i], p) && FindAll(body[..i], p) == []
    ensures FirstMatch(body, p).Nested? <==> exists i: nat :: NestedAt(body, p, i)
  {
    if i: nat :| NestedAt(body, p, i) {
      NestedAtIsNested(body, p, i);
    }
    if body == [] {
    } else {
      if SrcMatches(body[0], p) {
        assert body[..0] == [];
      } else if body[0].Tag? && FindAll(body[0].children, p) != [] {
        assert body[..0] == [];
        assert NestedAt(body, p, 0);
      } else {
        var rest := body[1..];
        FirstMatchIsFirst(rest, p);
        match FirstMatch(rest, p)
        case NoMatch =>
        case DirectChild(i) =>
          PrefixAfterSilentHead(body, p, i);
        case Nested =>
          var i: nat :| NestedAt(rest, p, i);
          PrefixAfterSilentHead(body, p, i);
          assert NestedAt(body, p, i + 1);
      }
    }
  }

  /**
   * If nothing matches before content `i` and the first match lies strictly
   * inside content `i`, `FirstMatch` reports a nested match.
   */
  lemma {:induction false} NestedAtIsNested(body: seq<Node>, p: seq<PatternChar>, i: nat)
    requires NestedAt(body, p, i)
    ensures FirstMatch(body, p) == Nested
  {
    if i > 0 {
      var rest, pre := body[1..], body[..i];
      assert pre[0] == body[0] && pre[1..] == rest[..i - 1];
      assert FindAll(pre, p) == MatchesIn(body[0], p) + FindAll(rest[..i - 1], p);
      assert body[i] == rest[i - 1];
      NestedAtIsNested(rest, p, i - 1);
    }
  }

  /** Prepending a content with no match does not add a match to a prefix. */
  lemma PrefixAfterSilentHead(body: seq<Node>, p: seq<PatternChar>, i: nat)
    requires i < |body| - 1 && MatchesIn(body[0], p) == []
    ensures FindAll(body[..i + 1], p) == FindAll(body[1..][..i], p)
    ensures body[i + 1] == body[1..][i]
  {
    var pre := body[..i + 1];
    assert pre[0] == body[0];
    assert pre[1..] == body[1..][..i];
  }

  /** Every match of `preload.js` is a match of `preload`. */
  lemma PreloadJsMatchesPreload(s: string)
    requires Search(s, PreloadJsPattern)
    ensures Search(s, PreloadPattern)
  {
    var k: nat :| k + |PreloadJsPattern| <= |s| && MatchesAt(s, PreloadJsPattern, k);
    forall j | 0 <= j < |PreloadPattern|
      ensures CharMatches(PreloadPattern[j], s[k + j])
    {
      assert PreloadJsPattern[j] == PreloadPattern[j];
    }
    assert MatchesAt(s, PreloadPattern, k);
  }

  /**
   * The classification of the last loaded document, or None when it raises
   * an exception other than ValueError (a missing head or body: the attribute
   * lookup on None), which ends the whole pass. In order: a `preload` match
   * anywhere in the head; a first `preload.js` match in the body that is a
   * direct child within the first 70% of the body's contents (reported with
   * the head reason); a first match nested deeper (ValueError); otherwise
   * accepted. `i / float(len) < 0.7` is compared exactly as `10 i < 7 len`.
   */
  function Classify(doc: Document): (r: Option<Placement>)
    ensures r.None? <==>
      doc.head.None? || (FindAll(doc.head.value, PreloadPattern) == [] && doc.body.None?)
    ensures r.Some? && r.value.Rejected? ==>
      r.value.reason == HeadReason || r.value.reason == ChildrenReason
  {
    match doc.head
    case None => None
    case Some(head) =>
      if FindAll(head, PreloadPattern) != [] then Some(Rejected(HeadReason))
      else
        match doc.body
        case None => None
        case Some(body) =>
          match FirstMatch(body, PreloadJsPattern)
          case NoMatch => Some(Accepted)
          case DirectChild(i) =>
            if 10 * i < 7 * |body| then Some(Rejected(HeadReason)) else Some(Accepted)
          case Nested => Some(Rejected(ChildrenReason))
  }

  /** A tag whose `src` matches `preload`, anywhere in the head, is reported as misplaced in the head. */
  lemma HeadMatchRejected(doc: Document)
    requires doc.head.Some? && FindAll(doc.head.value, PreloadPattern) != []
    ensures Classify(doc) == Some(Rejected(HeadReason))
  {
  }

  /**
   * With no `preload` in the head, a body whose first tag with a `preload.js` `src` is
   * one of its own contents at position `i` is rejected, with the head
   * reason, exactly when `i / len(body) < 0.7`; otherwise it is accepted.
   */
  lemma EarlyBodyScriptRejected(doc: Document, i: nat)
    requires doc.head.Some? && FindAll(doc.head.value, PreloadPattern) == []
    requires doc.body.Some? && i < |doc.body.value| && SrcMatches(doc.body.value[i], PreloadJsPattern)
    requires FindAll(doc.body.value[..i], PreloadJsPattern) == []
    ensures (i as real) / (|doc.body.value| as real) < 0.7 ==> Classify(doc) == Some(Rejected(HeadReason))
    ensures (i as real) / (|doc.body.value| as real) >= 0.7 ==> Classify(doc) == Some(Accepted)
  {
    var body := doc.body.value;
    FirstMatchAt(body, PreloadJsPattern, i);
    RatioBelowSeventyPercent(i, |body|);
  }

  /** `i / float(n) < 0.7`, read over the reals, is `10 i < 7 n`. */
  lemma RatioBelowSeventyPercent(i: nat, n: nat)
    requires n > 0
    ensures (i as real) / (n as real) < 0.7 <==> 10 * i < 7 * n
  {
    var x, y := i as real, n as real;
    QuotientTimesDivisor(x, y);
    QuotientBelow(x, y, x / y, 0.7);
    assert 10 * i < 7 * n <==> x < 0.7 * y;
  }

  /** A quotient `q` of `x` by a positive `y` is below `c` exactly when `x` is below `c * y`. */
  lemma QuotientBelow(x: real, y: real, q: real, c: real)
    requires y > 0.0 && q * y == x
    ensures q < c <==> x < c * y
  {
    if q < c {
      MultiplyBelow(q, c, y);
    } else {
      MultiplyBelow(c, q, y);
    }
  }

  lemma QuotientTimesDivisor(x: real, y: real)
    requires y > 0.0
    ensures (x / y) * y == x
  {
  }

  lemma MultiplyBelow(a: real, b: real, y: real)
    requires y > 0.0
    ensures a < b ==> a * y < b * y
    ensures a <= b ==> a * y <= b * y
  {
  }

  /**
   * If nothing matches before content `i` and content `i` matches itself,
   * `FirstMatch` finds it there.
   */
  lemma {:induction false} FirstMatchAt(body: seq<Node>, p: seq<PatternChar>, i: nat)
    requires i < |body| && SrcMatches(body[i], p) && FindAll(body[..i], p) == []
    ensures FirstMatch(body, p) == DirectChild(i)
  {
    if i > 0 {
      var rest := body[1..];
      assert body[..i][1..] == rest[..i - 1];
      assert body[..i][0] == body[0];
      assert FindAll(body[..i], p) == [] ==> FindAll(rest[..i - 1], p) == [];
      FirstMatchAt(rest, p, i - 1);
    }
  }

  /**
   * A first `preload.js` match in the body that lies inside one of the body's
   * contents rather than being one of them is reported as misplaced in a body
   * child.
   */
  lemma NestedBodyScriptRejected(doc: Document, i: nat)
    requires doc.head.Some? && FindAll(doc.head.value, PreloadPattern) == []
    requires doc.body.Some? && NestedAt(doc.body.value, PreloadJsPattern, i)
    ensures Classify(doc) == Some(Rejected(ChildrenReason))
  {
    NestedAtIsNested(doc.body.value, PreloadJsPattern, i);
  }

  /**
   * The document is accepted exactly when it has a head with no tag whose
   * `src` matches `preload` and a body with either no tag whose `src` matches
   * `preload.js` at all, or whose
   * first one is one of the body's contents in the last 30% of them.
   */
  lemma AcceptedExactly(doc: Document)
    ensures Classify(doc) == Some(Accepted) <==>
      doc.head.Some? && FindAll(doc.head.value, PreloadPattern) == [] && doc.body.Some?
      && (FindAll(doc.body.value, PreloadJsPattern) == []
          || exists i: nat :: i < |doc.body.value| && 10 * i >= 7 * |doc.body.value|
               && SrcMatches(doc.body.value[i], PreloadJsPattern)
               && FindAll(doc.body.value[..i], PreloadJsPattern) == [])
  {
    if doc.head.Some? && FindAll(doc.head.value, PreloadPattern) == [] && doc.body.Some? {
      var body := doc.body.value;
      FirstMatchIsFirst(body, PreloadJsPattern);
      if i: nat :| i < |body| && 10 * i >= 7 * |body| && SrcMatches(body[i], PreloadJsPattern)
                  && FindAll(body[..i], PreloadJsPattern) == [] {
        FirstMatchAt(body, PreloadJsPattern, i);
      }
    }
  }
}
