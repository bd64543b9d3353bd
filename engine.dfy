/** The rule engine as a whole: the five checks run in a fixed order over
    the same document, their findings are concatenated, and the score is
    derived from how many there are. */
module Engine {
  import opened Seqs
  import opened Document
  import opened Findings
  import opened AltText
  import opened Contrast
  import opened FormLabels
  import opened Headings
  import opened LinkText

  /** Every finding of a scan, check by check. The checks only append, so
      the alt-text findings come first, then the contrast, label, heading and
      link findings, each group whole. */
  function AllFindings(doc: seq<Element>): (r: seq<Finding>)
    ensures InCheckOrder(r)
  {
    AltTextFromCheck(AltTextFindings(doc));
    ContrastFromCheck(ContrastFindings(doc));
    LabelsFromCheck(LabelFindings(doc));
    HeadingsFromCheck(HeadingFindings(doc));
    LinksFromCheck(LinkFindings(doc));
    FiveGroupsInOrder(AltTextFindings(doc), ContrastFindings(doc), LabelFindings(doc),
                      HeadingFindings(doc), LinkFindings(doc));
    AltTextFindings(doc) + ContrastFindings(doc) + LabelFindings(doc) +
    HeadingFindings(doc) + LinkFindings(doc)
  }

  const FullScore := 100
  const PenaltyPerIssue := 5

  /** `max(0, 100 - len(issues) * 5)`. */
  function Score(issueCount: nat): (s: nat)
    ensures s <= FullScore && s % PenaltyPerIssue == 0
    ensures s == 0 <==> issueCount >= FullScore / PenaltyPerIssue
    ensures s > 0 ==> s + PenaltyPerIssue * issueCount == FullScore
  {
    if FullScore - issueCount * PenaltyPerIssue > 0 then FullScore - issueCount * PenaltyPerIssue else 0
  }

  /** More issues never raise the score. */
  lemma {:induction false} ScoreAntitone(m: nat, n: nat)
    requires m <= n
    ensures Score(n) <= Score(m)
  {
  }

  /** The findings come grouped by check, in the order the checks run. */
  predicate InCheckOrder(fs: seq<Finding>) {
    forall i, j :: 0 <= i <= j < |fs| ==> fs[i].kind.Check() <= fs[j].kind.Check()
  }

  predicate FromCheck(fs: seq<Finding>, c: nat) {
    forall i :: 0 <= i < |fs| ==> fs[i].kind.Check() == c
  }

  predicate ChecksAtMost(fs: seq<Finding>, c: nat) {
    forall i :: 0 <= i < |fs| ==> fs[i].kind.Check() <= c
  }

  lemma {:induction false} AppendCheck(a: seq<Finding>, b: seq<Finding>, c: nat)
    requires InCheckOrder(a) && ChecksAtMost(a, c) && FromCheck(b, c)
    ensures InCheckOrder(a + b) && ChecksAtMost(a + b, c)
  {
    forall i, j | 0 <= i <= j < |a + b| ensures (a + b)[i].kind.Check() <= (a + b)[j].kind.Check() {
      if j >= |a| {
        assert (a + b)[j] == b[j - |a|];
        if i >= |a| {
          assert (a + b)[i] == b[i - |a|];
        }
      }
    }
  }

  lemma {:induction false} FiveGroupsInOrder(a: seq<Finding>, b: seq<Finding>, c: seq<Finding>,
                                             d: seq<Finding>, e: seq<Finding>)
    requires FromCheck(a, 0) && FromCheck(b, 1) && FromCheck(c, 2) && FromCheck(d, 3) && FromCheck(e, 4)
    ensures InCheckOrder(a + b + c + d + e)
  {
    AppendCheck(a, b, 1);
    AppendCheck(a + b, c, 2);
    AppendCheck(a + b + c, d, 3);
    AppendCheck(a + b + c + d, e, 4);
  }

  lemma AltTextFromCheck(fs: seq<Finding>)
    requires forall i :: 0 <= i < |fs| ==> fs[i].kind == MissingAltText
    ensures FromCheck(fs, 0)
  {
  }

  lemma ContrastFromCheck(fs: seq<Finding>)
    requires forall i :: 0 <= i < |fs| ==> fs[i].kind == ColorContrast
    ensures FromCheck(fs, 1)
  {
  }

  lemma LabelsFromCheck(fs: seq<Finding>)
    requires forall i :: 0 <= i < |fs| ==> fs[i].kind == MissingLabel
    ensures FromCheck(fs, 2)
  {
  }

  lemma HeadingsFromCheck(fs: seq<Finding>)
    requires forall i :: 0 <= i < |fs| ==> IsHeadingKind(fs[i])
    ensures FromCheck(fs, 3)
  {
  }

  lemma LinksFromCheck(fs: seq<Finding>)
    requires forall i :: 0 <= i < |fs| ==> IsLinkKind(fs[i])
    ensures FromCheck(fs, 4)
  {
  }

  lemma {:induction false} AltTextCountAcrossGroups(a: seq<Finding>, b: seq<Finding>, c: seq<Finding>,
                                                    d: seq<Finding>, e: seq<Finding>)
    requires FromCheck(a, 0) && FromCheck(b, 1) && FromCheck(c, 2) && FromCheck(d, 3) && FromCheck(e, 4)
    ensures CountKind(a + b + c + d + e, MissingAltText) == |a|
  {
    var rest := b + c + d + e;
    assert a + b + c + d + e == a + rest;
    CountKindAll(a, MissingAltText);
    AppendCheck(b, c, 2);
    AppendCheck(b + c, d, 3);
    AppendCheck(b + c + d, e, 4);
    CountKindNone(rest, MissingAltText);
    CountKindAppend(a, rest, MissingAltText);
  }

  /** A scan reports exactly as many `missing_alt_text` findings as the
      document has images without a usable `alt`; in particular none when
      every image has one. */
  lemma {:induction false} MissingAltCount(doc: seq<Element>)
    ensures CountKind(AllFindings(doc), MissingAltText) == |Filter(doc, IsImageLackingAlt)|
  {
    AltTextExact(doc);
    AltTextFromCheck(AltTextFindings(doc));
    ContrastFromCheck(ContrastFindings(doc));
    LabelsFromCheck(LabelFindings(doc));
    HeadingsFromCheck(HeadingFindings(doc));
    LinksFromCheck(LinkFindings(doc));
    AltTextCountAcrossGroups(AltTextFindings(doc), ContrastFindings(doc), LabelFindings(doc),
                             HeadingFindings(doc), LinkFindings(doc));
  }
}
