/** The form-label check (`_check_form_labels`). A control with a non-empty
    `id` needs some `label` whose `for` names that id; a control without one
    is reported unless its `type` is `submit`, `button` or `hidden`. */
module FormLabels {
  import opened Wrappers
  import opened Seqs
  import opened Text
  import opened Document
  import opened Findings

  const ControlTags: set<string> := {"input", "select", "textarea"}
  const ExemptTypes: seq<string> := ["submit", "button", "hidden"]

  /** The search `soup.find('label', attrs={'for': id})` looks for. */
  function LabelFor(id: string): Element -> bool {
    (e: Element) => e.tag == "label" && e.Get("for") == Some(id)
  }

  /** `input_element.get('type') in ['submit', 'button', 'hidden']`; an
      absent `type` is not in the list. */
  predicate IsExemptType(t: Option<string>) {
    t.Some? && t.value in ExemptTypes
  }

  /** The finding for a control with a non-empty id and no label for it. */
  function UnmatchedIdFinding(control: Element, id: string): Finding {
    Finding(MissingLabel, Snippet(control.markup), "Form input missing associated label",
            "Add <label for=\"" + id + "\">Description</label> for this input")
  }

  /** The finding for a control with neither an id nor an exempt type. */
  function NoIdFinding(control: Element): Finding {
    Finding(MissingLabel, Snippet(control.markup), "Form input missing label and id",
            "Add id to input and <label for=\"id\"> or wrap input with <label>")
  }

  /** What the check reports for one control of `doc`. */
  function LabelIssue(doc: seq<Element>, control: Element): Option<Finding> {
    var id := control.Get("id");
    if Truthy(id) then
      if Find(doc, LabelFor(id.value)).Some? then None else Some(UnmatchedIdFinding(control, id.value))
    else if !IsExemptType(control.Get("type")) then Some(NoIdFinding(control))
    else None
  }

  function LabelIssueIn(doc: seq<Element>): Element -> Option<Finding> {
    (control: Element) => LabelIssue(doc, control)
  }

  function LabelFindings(doc: seq<Element>): (r: seq<Finding>)
    ensures forall i :: 0 <= i < |r| ==> r[i].kind == MissingLabel
  {
    CollectAllSatisfy(FindAll(doc, ControlTags), LabelIssueIn(doc), OfKind(MissingLabel));
    Collect(FindAll(doc, ControlTags), LabelIssueIn(doc))
  }

  // An independent statement of when a control is reported, and of what.

  /** Some element of `doc` is a `label` whose `for` is `id`. */
  predicate Labelled(doc: seq<Element>, id: string) {
    exists l :: l in doc && l.tag == "label" && l.Get("for") == Some(id)
  }

  predicate NeedsLabel(doc: seq<Element>, control: Element) {
    var id := control.Get("id");
    if id.Some? && id.value != "" then !Labelled(doc, id.value)
    else control.Get("type") !in {Some("submit"), Some("button"), Some("hidden")}
  }

  function MissingLabelFinding(control: Element): Finding {
    var id := control.Get("id");
    if id.Some? && id.value != "" then UnmatchedIdFinding(control, id.value) else NoIdFinding(control)
  }

  function UnlabelledControlIn(doc: seq<Element>): Element -> bool {
    (e: Element) => e.tag in ControlTags && NeedsLabel(doc, e)
  }

  /** One `missing_label` finding per control that needs a label and has
      none, in document order, at most one per control, and nothing else. */
  lemma {:induction false} LabelExact(doc: seq<Element>)
    ensures LabelFindings(doc) == Map(Filter(doc, UnlabelledControlIn(doc)), MissingLabelFinding)
  {
    var needs := (e: Element) => NeedsLabel(doc, e);
    forall e: Element
      ensures LabelIssueIn(doc)(e) == if needs(e) then Some(MissingLabelFinding(e)) else None
    {
      var id := e.Get("id");
      if Truthy(id) {
        var found := Find(doc, LabelFor(id.value));
        assert found.Some? <==> Labelled(doc, id.value) by {
          if Labelled(doc, id.value) {
            var l :| l in doc && l.tag == "label" && l.Get("for") == Some(id.value);
            assert LabelFor(id.value)(l);
          }
        }
      }
    }
    FilterFilter(doc, HasTag(ControlTags), needs, UnlabelledControlIn(doc));
    CollectIsMapOfFilter(FindAll(doc, ControlTags), LabelIssueIn(doc), needs, MissingLabelFinding);
  }

  /** An `<input id="x">` with no `label for="x"` is reported. */
  lemma UnmatchedIdExample()
    ensures var control := Element("input", map["id" := "x"], "", "<input id=\"x\"/>");
            LabelFindings([control]) == [UnmatchedIdFinding(control, "x")]
  {
    var control := Element("input", map["id" := "x"], "", "<input id=\"x\"/>");
    FilterSnoc([], control, HasTag(ControlTags));
    assert [] + [control] == [control];
  }

  /** A hidden input without an id is not reported. */
  lemma HiddenInputExample()
    ensures LabelFindings([Element("input", map["type" := "hidden"], "", "<input type=\"hidden\"/>")]) == []
  {
    var hidden := Element("input", map["type" := "hidden"], "", "<input type=\"hidden\"/>");
    FilterSnoc([], hidden, HasTag(ControlTags));
    assert [] + [hidden] == [hidden];
  }

  /** A bare `<input>`, with neither id nor type, is reported. */
  lemma BareInputExample()
    ensures var bare := Element("input", map[], "", "<input/>");
            LabelFindings([bare]) == [NoIdFinding(bare)]
  {
    var bare := Element("input", map[], "", "<input/>");
    FilterSnoc([], bare, HasTag(ControlTags));
    assert [] + [bare] == [bare];
  }
}
