/** What a check reports. */
module Findings {

  /** The closed set of finding kinds; `Name` is the `type` string the
      report carries. */
  datatype Kind =
    | MissingAltText
    | ColorContrast
    | MissingLabel
    | NoHeadings
    | MissingH1
    | HeadingSkip
    | EmptyLink
    | NonDescriptiveLink
  {
    function Name(): string {
      match this
      case MissingAltText => "missing_alt_text"
      case ColorContrast => "color_contrast"
      case MissingLabel => "missing_label"
      case NoHeadings => "no_headings"
      case MissingH1 => "missing_h1"
      case HeadingSkip => "heading_skip"
      case EmptyLink => "empty_link"
      case NonDescriptiveLink => "non_descriptive_link"
    }

    /** Which of the five checks, in the order the scan runs them, reports
        findings of this kind. */
    function Check(): nat {
      match this
      case MissingAltText => 0
      case ColorContrast => 1
      case MissingLabel => 2
      case NoHeadings | MissingH1 | HeadingSkip => 3
      case EmptyLink | NonDescriptiveLink => 4
    }
  }

  /** One reported issue: `{type, element, description, fix}`. */
  datatype Finding = Finding(kind: Kind, element: string, description: string, fix: string)

  /** The finding is of kind `k`. */
  function OfKind(k: Kind): Finding -> bool {
    (f: Finding) => f.kind == k
  }

  /** How many findings of kind `k` a list holds. */
  function CountKind(fs: seq<Finding>, k: Kind): (n: nat)
    ensures n <= |fs|
  {
    if fs == [] then 0
    else CountKind(fs[..|fs| - 1], k) + (if fs[|fs| - 1].kind == k then 1 else 0)
  }

  lemma {:induction false} CountKindAppend(a: seq<Finding>, b: seq<Finding>, k: Kind)
    ensures CountKind(a + b, k) == CountKind(a, k) + CountKind(b, k)
  {
    if b != [] {
      var init := b[..|b| - 1];
      assert (a + b)[..|a + b| - 1] == a + init;
      CountKindAppend(a, init, k);
    } else {
      assert a + b == a;
    }
  }

  /** A list none of whose findings is of kind `k` counts none of them. */
  lemma {:induction false} CountKindNone(fs: seq<Finding>, k: Kind)
    requires forall i :: 0 <= i < |fs| ==> fs[i].kind != k
    ensures CountKind(fs, k) == 0
  {
    if fs != [] {
      CountKindNone(fs[..|fs| - 1], k);
    }
  }

  /** A list all of whose findings are of kind `k` counts all of them. */
  lemma {:induction false} CountKindAll(fs: seq<Finding>, k: Kind)
    requires forall i :: 0 <= i < |fs| ==> fs[i].kind == k
    ensures CountKind(fs, k) == |fs|
  {
    if fs != [] {
      CountKindAll(fs[..|fs| - 1], k);
    }
  }
}
