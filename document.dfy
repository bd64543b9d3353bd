/** The parsed page as the scanner sees it. The parser is not part of this
    model: a document is the sequence of its elements in document order
    (depth-first, parents before children), and each element carries what the
    parser would report for it. */
module Document {
  import opened Wrappers
  import opened Seqs

  /** One element of the parsed tree.
      `tag`    the lower-case tag name (`img`, `h2`, ...);
      `attrs`  its attributes; a name that is absent from the map is an
               attribute the element does not have;
      `text`   its text content, untrimmed (`get_text()`);
      `markup` its serialised form (`str(element)`). */
  datatype Element = Element(tag: string, attrs: map<string, string>, text: string, markup: string) {

    /** `element.get(name)`. */
    function Get(name: string): Option<string> {
      if name in attrs then Some(attrs[name]) else None
    }
  }

  /** Python truthiness of an attribute lookup: present and non-empty. */
  predicate Truthy(v: Option<string>) {
    v.Some? && v.value != ""
  }

  function HasTag(tags: set<string>): Element -> bool {
    (e: Element) => e.tag in tags
  }

  /** `soup.find_all(tags)`: every element whose tag is one of `tags`, in
      document order. */
  function FindAll(doc: seq<Element>, tags: set<string>): (r: seq<Element>)
    ensures forall e :: e in r <==> e in doc && e.tag in tags
  {
    Filter(doc, HasTag(tags))
  }
}
