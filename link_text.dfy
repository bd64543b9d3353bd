/** The link-text check (`_check_link_text`): a link whose trimmed text is
    empty is reported as `empty_link`; one whose trimmed, lower-cased text is
    a stock phrase such as "click here" as `non_descriptive_link`. */
module LinkText {
  import opened Wrappers
  import opened Seqs
  import opened Text
  import opened Document
  import opened Findings

  const LinkTags: set<string> := {"a"}
  const StockPhrases: seq<string> := ["click here", "here", "link", "more", "read more"]

  /** `text in ['click here', 'here', 'link', 'more', 'read more']`. */
  predicate IsStockPhrase(text: string) {
    text in StockPhrases
  }

  /** `link.get_text().strip()`. */
  function LinkText(link: Element): string {
    Strip(link.text)
  }

  function EmptyLinkFinding(link: Element): Finding {
    Finding(EmptyLink, Snippet(link.markup), "Link has no text", "Add descriptive text to the link")
  }

  function StockPhraseFinding(link: Element): Finding {
    Finding(NonDescriptiveLink, Snippet(link.markup),
            "Non-descriptive link text: \"" + LinkText(link) + "\"",
            "Replace with text that describes where the link goes")
  }

  /** What the check reports for one link. */
  function LinkIssue(link: Element): Option<Finding> {
    var text := LinkText(link);
    if text == "" then Some(EmptyLinkFinding(link))
    else if IsStockPhrase(Lower(text)) then Some(StockPhraseFinding(link))
    else None
  }

  /** The finding is about a link's text. */
  predicate IsLinkKind(f: Finding) {
    f.kind == EmptyLink || f.kind == NonDescriptiveLink
  }

  function LinkFindings(doc: seq<Element>): (r: seq<Finding>)
    ensures forall i :: 0 <= i < |r| ==> IsLinkKind(r[i])
  {
    CollectAllSatisfy(FindAll(doc, LinkTags), LinkIssue, IsLinkKind);
    Collect(FindAll(doc, LinkTags), LinkIssue)
  }

  /** A link's text is blank when it holds nothing but whitespace. */
  predicate Blank(link: Element) {
    forall k :: 0 <= k < |link.text| ==> IsSpace(link.text[k])
  }

  /** The two kinds are exclusive: a blank link is `empty_link` and only
      that; a link with visible text is `non_descriptive_link` exactly when
      its trimmed text, lower-cased, is a stock phrase; nothing else is
      reported. */
  lemma {:induction false} LinkIssueKinds(link: Element)
    ensures Blank(link) <==> LinkIssue(link) == Some(EmptyLinkFinding(link))
    ensures !Blank(link) && Lower(LinkText(link)) in StockPhrases <==>
              LinkIssue(link) == Some(StockPhraseFinding(link))
    ensures LinkIssue(link).Some? <==> Blank(link) || Lower(LinkText(link)) in StockPhrases
  {
    StripEmptyIffAllSpace(link.text);
    assert Lower("") == "";
  }

  predicate IsFlaggedLink(e: Element) {
    e.tag in LinkTags && (Blank(e) || Lower(LinkText(e)) in StockPhrases)
  }

  function LinkFinding(link: Element): Finding {
    if Blank(link) then EmptyLinkFinding(link) else StockPhraseFinding(link)
  }

  /** One finding per flagged link, of the right kind, in document order. */
  lemma {:induction false} LinkExact(doc: seq<Element>)
    ensures LinkFindings(doc) == Map(Filter(doc, IsFlaggedLink), LinkFinding)
  {
    var flagged := (e: Element) => Blank(e) || Lower(LinkText(e)) in StockPhrases;
    forall e: Element ensures LinkIssue(e) == if flagged(e) then Some(LinkFinding(e)) else None {
      LinkIssueKinds(e);
    }
    FilterFilter(doc, HasTag(LinkTags), flagged, IsFlaggedLink);
    CollectIsMapOfFilter(FindAll(doc, LinkTags), LinkIssue, flagged, LinkFinding);
  }

  /** `<a href="#"></a>` is an empty link. */
  lemma EmptyLinkExample()
    ensures var a := Element("a", map["href" := "#"], "", "<a href=\"#\"></a>");
            LinkIssue(a) == Some(EmptyLinkFinding(a))
  {
  }

  lemma StripClickHere()
    ensures Strip(" Click Here ") == "Click Here"
  {
    StripStartClickHere();
    StripEndClickHere();
  }

  lemma StripStartClickHere()
    ensures StripStart(" Click Here ") == "Click Here "
  {
    var text := " Click Here ";
    assert text[1..] == "Click Here ";
    assert !IsSpace(text[1]);
  }

  lemma StripEndClickHere()
    ensures StripEnd("Click Here ") == "Click Here"
  {
    var text := "Click Here ";
    assert text[..10] == "Click Here";
    assert !IsSpace(text[9]);
  }

  lemma LowerClickHere()
    ensures Lower("Click Here") in StockPhrases
  {
    assert Lower("Click Here") == "click here";
  }

  /** " Click Here " matches "click here" whatever its case and spacing. */
  lemma ClickHereExample()
    ensures var a := Element("a", map[], " Click Here ", "<a> Click Here </a>");
            LinkIssue(a) == Some(StockPhraseFinding(a))
  {
    StripClickHere();
    LowerClickHere();
  }

  lemma StripPricing()
    ensures Strip("View pricing plans") == "View pricing plans"
  {
    var text := "View pricing plans";
    assert !IsSpace(text[0]) && !IsSpace(text[|text| - 1]);
  }

  lemma LowerPricing()
    ensures Lower("View pricing plans") !in StockPhrases
  {
    assert |Lower("View pricing plans")| == 18;
  }

  /** "View pricing plans" says where the link goes and is not reported. */
  lemma DescriptiveLinkExample()
    ensures LinkIssue(Element("a", map[], "View pricing plans", "<a>View pricing plans</a>")) == None
  {
    StripPricing();
    LowerPricing();
  }
}
