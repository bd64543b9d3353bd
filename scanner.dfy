/** The scanner object. A scan fetches one page, parses it into a document,
    runs the five checks in order, each appending to the shared issue list,
    and derives the score from how many issues there are. */
module Scanner {
  import opened Wrappers
  import opened Seqs
  import opened Text
  import opened Document
  import opened Findings
  import opened AltText
  import opened Contrast
  import opened FormLabels
  import opened Headings
  import opened LinkText
  import opened Engine

  /** What fetching and parsing the page gave: the parsed document, or the
      message of the exception that stopped it (a network error, a timeout,
      an HTTP error status). */
  datatype FetchOutcome = Fetched(doc: seq<Element>) | FetchFailed(message: string)

  /** The dictionary `scan` returns. The error form carries an empty issue
      list and a score of 0. */
  datatype ScanReport =
    | Report(url: string, issues: seq<Finding>, score: nat)
    | ErrorReport(url: string, error: string)
  {
    function Issues(): seq<Finding> {
      if Report? then issues else []
    }

    function Score(): nat {
      if Report? then score else 0
    }
  }

  /** The report of a scan by a scanner whose issue list already holds
      `prior` (empty for a fresh scanner). */
  function ScanResult(url: string, prior: seq<Finding>, fetched: FetchOutcome): (r: ScanReport)
    ensures r.url == url
    ensures r.ErrorReport? <==> fetched.FetchFailed?
    ensures r.ErrorReport? ==> r.Issues() == [] && r.Score() == 0 && r.error == fetched.message
    ensures r.Report? ==> r.Score() == Score(|r.Issues()|) && r.Score() <= FullScore
  {
    match fetched
    case FetchFailed(message) => ErrorReport(url, message)
    case Fetched(doc) =>
      var issues := prior + AllFindings(doc);
      Report(url, issues, Score(|issues|))
  }

  /** A fresh scanner's report lists the findings grouped by check in the
      order the checks run, one `missing_alt_text` per image without a usable
      `alt`, and a score that is `100 - 5 * n` floored at 0. */
  lemma {:induction false} FreshScanReport(url: string, doc: seq<Element>)
    ensures var r := ScanResult(url, [], Fetched(doc));
            && r.Report?
            && r.url == url
            && r.issues == AllFindings(doc)
            && InCheckOrder(r.issues)
            && CountKind(r.issues, MissingAltText) == |Filter(doc, IsImageLackingAlt)|
            && r.score <= FullScore
            && (r.score == 0 <==> |r.issues| >= 20)
            && (r.score > 0 ==> r.score == FullScore - PenaltyPerIssue * |r.issues|)
  {
    var all := AllFindings(doc);
    assert [] + all == all;
    MissingAltCount(doc);
  }

  /** A second scan on the same object keeps the first scan's issues and
      appends the new ones after them. */
  lemma {:induction false} RescanAccumulates(url: string, prior: seq<Finding>, doc: seq<Element>)
    ensures var r := ScanResult(url, prior, Fetched(doc));
            && |r.issues| == |prior| + |AllFindings(doc)|
            && r.issues[..|prior|] == prior
            && r.issues[|prior|..] == AllFindings(doc)
  {
    var r := ScanResult(url, prior, Fetched(doc));
    assert r.issues == prior + AllFindings(doc);
  }

  /** Regrouping the five check groups after the issues already present;
      stated over plain sequences, as `Seqs.AppendAssoc` is. */
  lemma AppendFive(s: seq<Finding>, a: seq<Finding>, b: seq<Finding>, c: seq<Finding>,
                   d: seq<Finding>, e: seq<Finding>)
    ensures s + a + b + c + d + e == s + (a + b + c + d + e)
  {
  }

  /** The report of a successful fetch: the prior issues followed by all
      findings, and the score of the whole list. */
  lemma FetchedReport(url: string, prior: seq<Finding>, doc: seq<Element>, issues: seq<Finding>)
    requires issues == prior + AllFindings(doc)
    ensures ScanResult(url, prior, Fetched(doc)) == Report(url, issues, Score(|issues|))
  {
  }

  class AccessibilityScanner {
    var url: string
    var issues: seq<Finding>
    var score: nat
    /** The parsed page, once a fetch has succeeded. */
    var soup: Option<seq<Element>>

    constructor(url: string)
      ensures this.url == url && issues == [] && score == FullScore && soup == None
    {
      this.url := url;
      issues := [];
      score := FullScore;
      soup := None;
    }

    /** Fetch `fetched` stands for the page at `url`; on success run the
        checks and set the score, on failure report the error and change
        nothing. */
    method Scan(fetched: FetchOutcome) returns (result: ScanReport)
      modifies this
      ensures result == ScanResult(old(url), old(issues), fetched)
      ensures url == old(url)
      ensures fetched.FetchFailed? ==> issues == old(issues) && score == old(score) && soup == old(soup)
      ensures fetched.Fetched? ==>
                && soup == Some(fetched.doc)
                && issues == old(issues) + AllFindings(fetched.doc)
                && score == Score(|issues|)
                && result == Report(url, issues, score)
    {
      match fetched
      case FetchFailed(message) =>
        result := ErrorReport(url, message);
      case Fetched(doc) =>
        soup := Some(doc);
        ghost var start := issues;
        RunChecks();
        score := Score(|issues|);
        result := Report(url, issues, score);
        FetchedReport(url, start, doc, issues);
    }

    /** The five checks in their fixed order, each appending to `issues`. */
    method RunChecks()
      requires soup.Some?
      modifies this`issues
      ensures issues == old(issues) + AllFindings(soup.value)
    {
      var doc := soup.value;
      CheckAltText();
      CheckColorContrast();
      CheckFormLabels();
      CheckHeadingStructure();
      CheckLinkText();
      AppendFive(old(issues), AltTextFindings(doc), ContrastFindings(doc), LabelFindings(doc),
                 HeadingFindings(doc), LinkFindings(doc));
    }

    method CheckAltText()
      requires soup.Some?
      modifies this`issues
      ensures issues == old(issues) + AltTextFindings(soup.value)
    {
      var images := FindAll(soup.value, ImageTags);
      ghost var before := issues;
      for i := 0 to |images|
        invariant issues == before + Collect(images[..i], AltTextIssue)
      {
        var img := images[i];
        if !Truthy(img.Get("alt")) {
          CollectStepSome(before, images, i, AltTextIssue, MissingAltFinding(img));
          issues := issues + [MissingAltFinding(img)];
        } else {
          CollectStepNone(before, images, i, AltTextIssue);
        }
      }
      CollectAll(images, AltTextIssue);
    }

    method CheckColorContrast()
      requires soup.Some?
      modifies this`issues
      ensures issues == old(issues) + ContrastFindings(soup.value)
    {
      var elements := FindAll(soup.value, TextTags);
      ghost var before := issues;
      for i := 0 to |elements|
        invariant issues == before + Collect(elements[..i], ContrastIssue)
      {
        var element := elements[i];
        var style := element.Get("style").GetOr("");
        if Contains(style, "color") && Contains(style, "background") {
          CollectStepSome(before, elements, i, ContrastIssue, ContrastFinding(element));
          issues := issues + [ContrastFinding(element)];
        } else {
          CollectStepNone(before, elements, i, ContrastIssue);
        }
      }
      CollectAll(elements, ContrastIssue);
    }

    method CheckFormLabels()
      requires soup.Some?
      modifies this`issues
      ensures issues == old(issues) + LabelFindings(soup.value)
    {
      var doc := soup.value;
      var inputs := FindAll(doc, ControlTags);
      ghost var before := issues;
      for i := 0 to |inputs|
        invariant issues == before + Collect(inputs[..i], LabelIssueIn(doc))
      {
        var control := inputs[i];
        var inputId := control.Get("id");
        if Truthy(inputId) {
          var labelFound := Find(doc, LabelFor(inputId.value));
          if labelFound.None? {
            CollectStepSome(before, inputs, i, LabelIssueIn(doc), UnmatchedIdFinding(control, inputId.value));
            issues := issues + [UnmatchedIdFinding(control, inputId.value)];
          } else {
            CollectStepNone(before, inputs, i, LabelIssueIn(doc));
          }
        } else if !IsExemptType(control.Get("type")) {
          CollectStepSome(before, inputs, i, LabelIssueIn(doc), NoIdFinding(control));
          issues := issues + [NoIdFinding(control)];
        } else {
          CollectStepNone(before, inputs, i, LabelIssueIn(doc));
        }
      }
      CollectAll(inputs, LabelIssueIn(doc));
    }

    method CheckHeadingStructure()
      requires soup.Some?
      modifies this`issues
      ensures issues == old(issues) + HeadingFindings(soup.value)
    {
      var doc := soup.value;
      var headings := FindAll(doc, HeadingTags);
      if headings == [] {
        assert HeadingFindings(doc) == [NoHeadingsFinding];
        issues := issues + [NoHeadingsFinding];
      } else {
        if Find(doc, HasTag({"h1"})).None? {
          issues := issues + [MissingH1Finding];
        }
        assert issues == old(issues) + H1Findings(doc);
        assert forall e :: e in headings ==> IsHeading(e);
        assert HeadingFindings(doc) == H1Findings(doc) + SkipFindings(headings);
        AppendHeadingSkips(headings);
        AppendAssoc(old(issues), H1Findings(doc), SkipFindings(headings));
      }
    }

    /** The hierarchy loop: compare each heading's level with the level of
        the heading before it. */
    method AppendHeadingSkips(headings: seq<Heading>)
      requires headings != []
      modifies this`issues
      ensures issues == old(issues) + SkipFindings(headings)
    {
      var levels := Levels(headings);
      ghost var before := issues;
      for i := 1 to |levels|
        invariant issues == before + SkipFindings(headings[..i])
      {
        SkipStep(before, headings, i);
        if levels[i] > levels[i - 1] + 1 {
          issues := issues + [SkipFinding(levels[i - 1], headings[i])];
        } else {
          assert issues + [] == issues;
        }
      }
      SkipAll(headings);
    }

    method CheckLinkText()
      requires soup.Some?
      modifies this`issues
      ensures issues == old(issues) + LinkFindings(soup.value)
    {
      var links := FindAll(soup.value, LinkTags);
      ghost var before := issues;
      for i := 0 to |links|
        invariant issues == before + Collect(links[..i], LinkIssue)
      {
        CollectStep(before, links, i, LinkIssue);
        CheckLink(links[i]);
      }
      CollectAll(links, LinkIssue);
    }

    /** The body of the link loop: one link's finding, if any, is appended. */
    method CheckLink(link: Element)
      modifies this`issues
      ensures issues == old(issues) + LinkIssue(link).ToSeq()
    {
      var linkText := Strip(link.text);
      if linkText == "" {
        issues := issues + [EmptyLinkFinding(link)];
      } else if IsStockPhrase(Lower(linkText)) {
        issues := issues + [StockPhraseFinding(link)];
      }
    }
  }
}
