/** The colour-contrast check (`_check_color_contrast`). It computes no
    contrast ratio: a text-bearing element is reported when its inline
    `style` string merely contains both words `color` and `background`. */
module Contrast {
  import opened Wrappers
  import opened Seqs
  import opened Text
  import opened Document
  import opened Findings

  const TextTags: set<string> := {"p", "span", "div", "a", "h1", "h2", "h3", "h4", "h5", "h6"}

  /** `element.get('style', '')`. */
  function Style(e: Element): string {
    e.Get("style").GetOr("")
  }

  predicate StyleMentionsColours(e: Element) {
    Contains(Style(e), "color") && Contains(Style(e), "background")
  }

  function ContrastFinding(e: Element): Finding {
    Finding(ColorContrast, Snippet(e.markup), "Potential color contrast issue",
            "Ensure text color contrasts well with background (ratio of at least 4.5:1)")
  }

  function ContrastIssue(e: Element): Option<Finding> {
    if StyleMentionsColours(e) then Some(ContrastFinding(e)) else None
  }

  function ContrastFindings(doc: seq<Element>): (r: seq<Finding>)
    ensures forall i :: 0 <= i < |r| ==> r[i].kind == ColorContrast
  {
    CollectAllSatisfy(FindAll(doc, TextTags), ContrastIssue, OfKind(ColorContrast));
    Collect(FindAll(doc, TextTags), ContrastIssue)
  }

  predicate IsFlaggedForContrast(e: Element) {
    e.tag in TextTags && StyleMentionsColours(e)
  }

  /** One `color_contrast` finding per text element whose style contains
      both substrings, in document order, and nothing else. */
  lemma {:induction false} ContrastExact(doc: seq<Element>)
    ensures ContrastFindings(doc) == Map(Filter(doc, IsFlaggedForContrast), ContrastFinding)
  {
    FilterFilter(doc, HasTag(TextTags), StyleMentionsColours, IsFlaggedForContrast);
    CollectIsMapOfFilter(FindAll(doc, TextTags), ContrastIssue, StyleMentionsColours, ContrastFinding);
  }

  /** The heuristic's edges: an element without a `style` is never
      reported, and neither is one whose style lacks either word; a style of
      only `background-color` contains both words and is reported. */
  lemma {:induction false} ContrastHeuristicEdges(e: Element)
    ensures e.Get("style") == None ==> ContrastIssue(e) == None
    ensures !Contains(Style(e), "background") ==> ContrastIssue(e) == None
    ensures Style(e) == "background-color: #fff" ==> ContrastIssue(e) == Some(ContrastFinding(e))
  {
    if Style(e) == "background-color: #fff" {
      assert OccursAt(Style(e), "color", 11);
      assert OccursAt(Style(e), "background", 0);
    }
  }
}
