/** The heading-structure check (`_check_heading_structure`). A page without
    headings gets one `no_headings` finding. Otherwise it gets `missing_h1`
    when no `h1` exists and, independently, one `heading_skip` for every
    pair of consecutive headings where the level rises by more than one. */
module Headings {
  import opened Wrappers
  import opened Seqs
  import opened Text
  import opened Document
  import opened Findings

  const HeadingTags: set<string> := {"h1", "h2", "h3", "h4", "h5", "h6"}

  predicate IsHeading(e: Element) {
    e.tag in HeadingTags
  }

  type Heading = e: Element | IsHeading(e) witness Element("h1", map[], "", "")

  /** `int(h.name[1])`. */
  function Level(h: Heading): (n: nat)
    ensures 1 <= n <= 6
    ensures n == 1 <==> h.tag == "h1"
  {
    (h.tag[1] as int) - ('0' as int)
  }

  /** The decimal digit an f-string prints for a level. */
  function LevelName(n: nat): string
    requires 1 <= n <= 6
  {
    [(n + '0' as int) as char]
  }

  /** `[int(h.name[1]) for h in headings]`. */
  function Levels(hs: seq<Heading>): (lv: seq<nat>)
    ensures |lv| == |hs|
    ensures forall i :: 0 <= i < |hs| ==> lv[i] == Level(hs[i])
  {
    seq(|hs|, i requires 0 <= i < |hs| => Level(hs[i]))
  }

  const NoHeadingsFinding := Finding(NoHeadings, "page", "Page has no heading structure",
                                     "Add proper heading structure starting with H1")

  const MissingH1Finding := Finding(MissingH1, "page", "Page missing H1 heading",
                                    "Add an H1 heading as the main title of the page")

  /** The finding for heading `h` following a heading of level `from`. */
  function SkipFinding(from: nat, h: Heading): Finding
    requires 1 <= from <= 6
  {
    Finding(HeadingSkip, Snippet(h.markup),
            "Heading level skipped from H" + LevelName(from) + " to H" + LevelName(Level(h)),
            "Maintain proper heading hierarchy without skipping levels")
  }

  /** What the check reports for heading `h` following heading `prev`. */
  function PairSkip(prev: Heading, h: Heading): seq<Finding> {
    if Level(h) > Level(prev) + 1 then [SkipFinding(Level(prev), h)] else []
  }

  /** The `heading_skip` findings for the consecutive pairs of `hs`. */
  function SkipFindings(hs: seq<Heading>): (r: seq<Finding>)
    ensures forall i :: 0 <= i < |r| ==> r[i].kind == HeadingSkip
  {
    if |hs| < 2 then []
    else
      var init := hs[..|hs| - 1];
      SkipFindings(init) + PairSkip(hs[|hs| - 2], hs[|hs| - 1])
  }

  /** The last pair of a sequence of at least two headings is reported
      after the pairs of its prefix. */
  lemma {:induction false} SkipSnoc(hs: seq<Heading>)
    requires |hs| >= 2
    ensures SkipFindings(hs) == SkipFindings(hs[..|hs| - 1]) + PairSkip(hs[|hs| - 2], hs[|hs| - 1])
  {
  }

  /** One more step of the walk over consecutive pairs, appending to
      `before`. */
  lemma {:induction false} SkipStep(before: seq<Finding>, hs: seq<Heading>, i: nat)
    requires 1 <= i < |hs|
    ensures before + SkipFindings(hs[..i + 1]) == before + SkipFindings(hs[..i]) + PairSkip(hs[i - 1], hs[i])
  {
    var prefix := hs[..i + 1];
    assert prefix[..|prefix| - 1] == hs[..i];
    assert prefix[|prefix| - 2] == hs[i - 1] && prefix[|prefix| - 1] == hs[i];
    SkipSnoc(prefix);
    assert before + (SkipFindings(hs[..i]) + PairSkip(hs[i - 1], hs[i])) ==
           before + SkipFindings(hs[..i]) + PairSkip(hs[i - 1], hs[i]);
  }

  lemma SkipAll(hs: seq<Heading>)
    ensures SkipFindings(hs[..|hs|]) == SkipFindings(hs)
  {
    assert hs[..|hs|] == hs;
  }

  /** The finding is about the page's heading structure. */
  predicate IsHeadingKind(f: Finding) {
    f.kind == NoHeadings || f.kind == MissingH1 || f.kind == HeadingSkip
  }

  /** The findings the check appends, in order. */
  function HeadingFindings(doc: seq<Element>): (r: seq<Finding>)
    ensures forall i :: 0 <= i < |r| ==> IsHeadingKind(r[i])
  {
    var headings := FindAll(doc, HeadingTags);
    if headings == [] then [NoHeadingsFinding]
    else
      assert forall e :: e in headings ==> IsHeading(e);
      H1Findings(doc) + SkipFindings(headings)
  }

  /** `missing_h1` unless the document has an `h1` somewhere. */
  function H1Findings(doc: seq<Element>): seq<Finding> {
    if Find(doc, HasTag({"h1"})).Some? then [] else [MissingH1Finding]
  }

  // An independent count of the skips, over the list of levels front to back.

  /** How many consecutive pairs of `lv` rise by more than one. */
  function Rises(lv: seq<nat>): nat {
    if |lv| < 2 then 0
    else (if lv[1] > lv[0] + 1 then 1 else 0) + Rises(lv[1..])
  }

  lemma {:induction false} RisesSnoc(lv: seq<nat>, x: nat)
    requires lv != []
    ensures Rises(lv + [x]) == Rises(lv) + (if x > lv[|lv| - 1] + 1 then 1 else 0)
  {
    if |lv| >= 2 {
      assert (lv + [x])[1..] == lv[1..] + [x];
      RisesSnoc(lv[1..], x);
    }
  }

  lemma {:induction false} LevelsSnoc(hs: seq<Heading>)
    requires hs != []
    ensures Levels(hs) == Levels(hs[..|hs| - 1]) + [Level(hs[|hs| - 1])]
  {
    var init := hs[..|hs| - 1];
    assert |Levels(hs)| == |Levels(init) + [Level(hs[|hs| - 1])]|;
    forall i | 0 <= i < |hs| ensures Levels(hs)[i] == (Levels(init) + [Level(hs[|hs| - 1])])[i] {
      if i < |init| {
        assert init[i] == hs[i];
      }
    }
  }

  /** One `heading_skip` per rising pair. */
  lemma {:induction false} SkipCount(hs: seq<Heading>)
    ensures |SkipFindings(hs)| == Rises(Levels(hs))
  {
    if |hs| >= 2 {
      var init := hs[..|hs| - 1];
      SkipCount(init);
      SkipSnoc(hs);
      LevelsSnoc(hs);
      var lv := Levels(init);
      assert lv[|lv| - 1] == Level(hs[|hs| - 2]) by {
        assert init[|init| - 1] == hs[|hs| - 2];
      }
      RisesSnoc(lv, Level(hs[|hs| - 1]));
    }
  }

  /** Heading `i` is more than one level deeper than heading `i - 1`. */
  predicate RisesAt(hs: seq<Heading>, i: int) {
    1 <= i < |hs| && Level(hs[i]) > Level(hs[i - 1]) + 1
  }

  /** What each skip finding is: every finding names a heading that is more
      than one level deeper than the heading before it, reports that heading's
      snippet and the two levels; and every such heading is reported. */
  lemma {:induction false} SkipContents(hs: seq<Heading>)
    ensures forall f :: f in SkipFindings(hs) ==>
              exists i :: RisesAt(hs, i) && f == SkipFinding(Level(hs[i - 1]), hs[i])
    ensures forall i :: RisesAt(hs, i) ==> SkipFinding(Level(hs[i - 1]), hs[i]) in SkipFindings(hs)
  {
    SkipSound(hs);
    SkipComplete(hs);
  }

  lemma {:induction false} SkipSound(hs: seq<Heading>)
    ensures forall f :: f in SkipFindings(hs) ==>
              exists i :: RisesAt(hs, i) && f == SkipFinding(Level(hs[i - 1]), hs[i])
  {
    if |hs| >= 2 {
      var init, last := hs[..|hs| - 1], |hs| - 1;
      SkipSound(init);
      SkipSnoc(hs);
      forall f | f in SkipFindings(hs)
        ensures exists i :: RisesAt(hs, i) && f == SkipFinding(Level(hs[i - 1]), hs[i])
      {
        if f in SkipFindings(init) {
          var i :| RisesAt(init, i) && f == SkipFinding(Level(init[i - 1]), init[i]);
          assert init[i] == hs[i] && init[i - 1] == hs[i - 1];
          assert RisesAt(hs, i);
        } else {
          assert RisesAt(hs, last);
        }
      }
    }
  }

  lemma {:induction false} SkipComplete(hs: seq<Heading>)
    ensures forall i :: RisesAt(hs, i) ==> SkipFinding(Level(hs[i - 1]), hs[i]) in SkipFindings(hs)
  {
    if |hs| >= 2 {
      var init, last := hs[..|hs| - 1], |hs| - 1;
      SkipComplete(init);
      SkipSnoc(hs);
      forall i | RisesAt(hs, i) ensures SkipFinding(Level(hs[i - 1]), hs[i]) in SkipFindings(hs) {
        if i < last {
          assert init[i] == hs[i] && init[i - 1] == hs[i - 1];
          assert RisesAt(init, i);
        }
      }
    }
  }

  // An independent statement of the whole skip list: the consecutive pairs,
  // those that rise by more than one, and one finding for each.

  /** The consecutive pairs `(hs[i - 1], hs[i])` of `hs`, in order. */
  function Pairs(hs: seq<Heading>): (ps: seq<(Heading, Heading)>)
    ensures |ps| == if |hs| < 2 then 0 else |hs| - 1
    ensures forall i :: 0 <= i < |ps| ==> ps[i] == (hs[i], hs[i + 1])
  {
    if |hs| < 2 then []
    else seq(|hs| - 1, i requires 0 <= i < |hs| - 1 => (hs[i], hs[i + 1]))
  }

  /** The later heading of the pair is more than one level deeper. */
  predicate Rising(pair: (Heading, Heading)) {
    Level(pair.1) > Level(pair.0) + 1
  }

  /** The finding for a rising pair. */
  function PairFinding(pair: (Heading, Heading)): Finding {
    SkipFinding(Level(pair.0), pair.1)
  }

  /** The skip list is one finding per rising pair, in the order of the
      pairs, and nothing else. */
  lemma {:induction false} SkipExact(hs: seq<Heading>)
    ensures SkipFindings(hs) == Map(Filter(Pairs(hs), Rising), PairFinding)
  {
    if |hs| >= 2 {
      var init := hs[..|hs| - 1];
      var last := (hs[|hs| - 2], hs[|hs| - 1]);
      SkipExact(init);
      SkipSnoc(hs);
      PairsSnoc(hs);
      FilterSnoc(Pairs(init), last, Rising);
      MapSnoc(Filter(Pairs(init), Rising), last, PairFinding);
      assert PairSkip(last.0, last.1) == if Rising(last) then [PairFinding(last)] else [];
    }
  }

  lemma {:induction false} PairsSnoc(hs: seq<Heading>)
    requires |hs| >= 2
    ensures Pairs(hs) == Pairs(hs[..|hs| - 1]) + [(hs[|hs| - 2], hs[|hs| - 1])]
  {
    var init := hs[..|hs| - 1];
    assert forall i :: 0 <= i < |Pairs(init)| ==> Pairs(init)[i] == (hs[i], hs[i + 1]);
  }

  /** No heading is more than one level deeper than the heading before it. */
  predicate Gradual(hs: seq<Heading>) {
    forall i :: 1 <= i < |hs| ==> Level(hs[i]) <= Level(hs[i - 1]) + 1
  }

  lemma {:induction false} GradualSnoc(hs: seq<Heading>)
    requires |hs| >= 2
    ensures Gradual(hs) <==>
              Gradual(hs[..|hs| - 1]) && Level(hs[|hs| - 1]) <= Level(hs[|hs| - 2]) + 1
  {
    var init := hs[..|hs| - 1];
    if Gradual(init) && Level(hs[|hs| - 1]) <= Level(hs[|hs| - 2]) + 1 {
      forall i | 1 <= i < |hs| ensures Level(hs[i]) <= Level(hs[i - 1]) + 1 {
        if i < |hs| - 1 {
          assert init[i] == hs[i] && init[i - 1] == hs[i - 1];
        }
      }
    }
    if Gradual(hs) {
      forall i | 1 <= i < |init| ensures Level(init[i]) <= Level(init[i - 1]) + 1 {
        assert init[i] == hs[i] && init[i - 1] == hs[i - 1];
      }
    }
  }

  /** No skip is reported exactly when no heading is more than one level
      deeper than the heading before it. */
  lemma {:induction false} NoSkipIffGradual(hs: seq<Heading>)
    ensures SkipFindings(hs) == [] <==> Gradual(hs)
  {
    if |hs| >= 2 {
      NoSkipIffGradual(hs[..|hs| - 1]);
      SkipSnoc(hs);
      GradualSnoc(hs);
    }
  }

  /** Counts by kind of an optional `missing_h1` followed by skips. */
  lemma HeadAndSkipCounts(hasH1: bool, skips: seq<Finding>)
    requires forall i :: 0 <= i < |skips| ==> skips[i].kind == HeadingSkip
    ensures var fs := (if hasH1 then [] else [MissingH1Finding]) + skips;
            && CountKind(fs, NoHeadings) == 0
            && CountKind(fs, MissingH1) == (if hasH1 then 0 else 1)
            && CountKind(fs, HeadingSkip) == |skips|
  {
    var head := if hasH1 then [] else [MissingH1Finding];
    CountKindAppend(head, skips, NoHeadings);
    CountKindAppend(head, skips, MissingH1);
    CountKindAppend(head, skips, HeadingSkip);
    CountKindNone(skips, NoHeadings);
    CountKindNone(skips, MissingH1);
    CountKindAll(skips, HeadingSkip);
    assert CountKind([MissingH1Finding], MissingH1) == 1;
  }

  /** The three branches of the check, by kind. */
  lemma {:induction false} HeadingKinds(doc: seq<Element>)
    ensures (forall e :: e in doc ==> !IsHeading(e)) ==> HeadingFindings(doc) == [NoHeadingsFinding]
    ensures (exists e :: e in doc && IsHeading(e)) ==>
              && CountKind(HeadingFindings(doc), NoHeadings) == 0
              && CountKind(HeadingFindings(doc), MissingH1) ==
                   (if exists e :: e in doc && e.tag == "h1" then 0 else 1)
              && CountKind(HeadingFindings(doc), HeadingSkip) == Rises(Levels(FindAll(doc, HeadingTags)))
  {
    var headings := FindAll(doc, HeadingTags);
    if exists e :: e in doc && IsHeading(e) {
      var e :| e in doc && IsHeading(e);
      assert e in headings;
      var h1 := Find(doc, HasTag({"h1"}));
      assert h1.Some? <==> exists e :: e in doc && e.tag == "h1" by {
        if exists e :: e in doc && e.tag == "h1" {
          var x :| x in doc && x.tag == "h1";
          assert HasTag({"h1"})(x);
        }
      }
      SkipCount(headings);
      HeadAndSkipCounts(h1.Some?, SkipFindings(headings));
    } else {
      FilterNone(doc, HasTag(HeadingTags));
    }
  }

  /** Headings H1 then H3 give exactly one skip, from H1 to H3. */
  lemma SkipExample()
    ensures var h1 := Element("h1", map[], "Title", "<h1>Title</h1>");
            var h3 := Element("h3", map[], "Part", "<h3>Part</h3>");
            HeadingFindings([h1, h3]) == [SkipFinding(1, h3)]
  {
    var h1 := Element("h1", map[], "Title", "<h1>Title</h1>");
    var h3 := Element("h3", map[], "Part", "<h3>Part</h3>");
    TwoHeadings(h1, h3);
    assert SkipFindings([h1, h3]) == [SkipFinding(1, h3)];
  }

  lemma TwoHeadings(a: Heading, b: Heading)
    ensures FindAll([a, b], HeadingTags) == [a, b]
  {
    FilterSnoc([], a, HasTag(HeadingTags));
    FilterSnoc([a], b, HasTag(HeadingTags));
    assert [a] + [b] == [a, b];
  }

  /** A lone H2 gives `missing_h1` and no skip. */
  lemma MissingH1Example()
    ensures var h2 := Element("h2", map[], "Part", "<h2>Part</h2>");
            HeadingFindings([h2]) == [MissingH1Finding]
  {
    var h2 := Element("h2", map[], "Part", "<h2>Part</h2>");
    assert FindAll([h2], HeadingTags) == [h2] by {
      FilterSnoc([], h2, HasTag(HeadingTags));
      assert [] + [h2] == [h2];
    }
    assert H1Findings([h2]) == [MissingH1Finding] by {
      assert !HasTag({"h1"})(h2);
    }
    assert SkipFindings([h2]) == [];
  }
}
