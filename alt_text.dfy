/** The alt-text check (`_check_alt_text`): every `img` whose `alt`
    attribute is missing or empty is reported. */
module AltText {
  import opened Wrappers
  import opened Seqs
  import opened Text
  import opened Document
  import opened Findings

  const ImageTags: set<string> := {"img"}

  /** `not img.get('alt')`: an empty `alt` counts as missing. */
  predicate LacksAlt(img: Element) {
    !Truthy(img.Get("alt"))
  }

  function MissingAltFinding(img: Element): Finding {
    Finding(MissingAltText, Snippet(img.markup), "Image missing alt text",
            "Add alt=\"[descriptive text]\" to the image tag")
  }

  /** What the check reports for one image. */
  function AltTextIssue(img: Element): Option<Finding> {
    if LacksAlt(img) then Some(MissingAltFinding(img)) else None
  }

  /** The findings the check appends, in order. */
  function AltTextFindings(doc: seq<Element>): (r: seq<Finding>)
    ensures forall i :: 0 <= i < |r| ==> r[i].kind == MissingAltText
  {
    CollectAllSatisfy(FindAll(doc, ImageTags), AltTextIssue, OfKind(MissingAltText));
    Collect(FindAll(doc, ImageTags), AltTextIssue)
  }

  predicate IsImageLackingAlt(e: Element) {
    e.tag in ImageTags && LacksAlt(e)
  }

  /** Exactly one `missing_alt_text` finding per image whose `alt` is absent
      or empty, in document order, and nothing for any other element. */
  lemma {:induction false} AltTextExact(doc: seq<Element>)
    ensures AltTextFindings(doc) == Map(Filter(doc, IsImageLackingAlt), MissingAltFinding)
  {
    FilterFilter(doc, HasTag(ImageTags), LacksAlt, IsImageLackingAlt);
    CollectIsMapOfFilter(FindAll(doc, ImageTags), AltTextIssue, LacksAlt, MissingAltFinding);
  }
}
