# AccessiCheck scanner: a Dafny model of the rule engine

AccessiCheck fetches a web page and runs five heuristic accessibility checks
over its parsed markup:

1. missing alt text,
2. a colour-contrast heuristic,
3. form-control labels,
4. heading structure,
5. link text.

It collects the findings in that order and derives a score from how many
findings there are. This project models the `AccessibilityScanner` class of
`app.py`: its five `_check_*` methods, `scan`, and the snippet truncation
every check applies. It also models the URL normalisation of the `/scan` route.

Modules, one per component:

- `Document`: the parsed page, abstracted as a sequence of elements in document order. Each element has a tag, an attribute map, its raw text and its serialised markup. `find_all` is a filter over that sequence and `find` is a first match.
- `Findings`: the closed set of eight finding kinds and the finding record `{type, element, description, fix}`.
- `Text`: `str.strip()` (with Python's exact whitespace set), the part of `str.lower()` that the link check can observe, the substring test `sub in s`, `startswith` and the 100-character snippet truncation.
- `AltText`, `Contrast`, `FormLabels`, `Headings`, `LinkText`: each check as a function from a document to the findings it appends. Beside each function is an independent statement of which elements get reported and with what, and a lemma proving that the two agree.
- `Engine`: all findings in check order and the score `max(0, 100 - 5 * n)`.
- `Scanner`: the `AccessibilityScanner` class. It has the fields `url`, `issues`, `score` and `soup`. Its `Scan` method runs the five `Check*` methods, which append to `issues` with `for` loops, as the source does. Each method is proved to leave `issues` equal to the old list followed by the check's specification function. A failed fetch is an input (`FetchOutcome`).
- `Route`: the `/scan` handler's URL check and `https://` defaulting.
- `Seqs`, `Wrappers`: the sequence combinators (filter, map, collect, find) and `Option`.

Where the code does something one might not expect, the model follows the code:

- An `img` whose `alt` is present but empty is reported, because `not img.get('alt')` is true for `''` (app.py:60): an empty `alt` counts as missing.
- The snippet is the whole serialised element, children included (`str(img)`), not just its opening tag.
- A failed fetch returns a report with score 0, but the object's own `score` field keeps its previous value. The model's `Scan` leaves `issues`, `score` and `soup` unchanged on failure.
- `scan` does not clear `self.issues`, so a second `scan` on the same object appends a second round of findings and the score drops. It is not idempotent on one object (`Scanner.RescanAccumulates`). The route always builds a fresh scanner, so a request never sees this.
- A control with `id=""` is treated as having no id (app.py:87). A `style` of only `background-color: …` contains both words and is reported (app.py:74).

## Model

| member | source | states |
|---|---|---|
| `Text.Snippet` | app.py:63 | markup of at most 100 characters is kept as it is; longer markup becomes its first 100 characters followed by `...`, exactly 103 characters |
| `Text.StripStart` | app.py:137 | the result is a suffix of the input, everything cut is whitespace, and the result does not start with whitespace |
| `Text.StripEnd` | app.py:137 | the result is a prefix of the input, everything cut is whitespace, and the result does not end with whitespace |
| `Text.StripEmptyIffAllSpace` | app.py:137-138 | a link's stripped text is empty exactly when all of its text is whitespace |
| `Text.Strip` | app.py:137 | the result is the middle of the text, with only whitespace cut from each end, and neither starts nor ends with whitespace |
| `Text.StripIdempotent` | app.py:137 | stripping a stripped text changes nothing |
| `Text.Lower` | app.py:145 | the result has the same length, each capital A-Z becomes its own small letter, KELVIN SIGN becomes `k`, no capital or KELVIN SIGN remains, and every other character is kept as it was |
| `Text.Contains` | app.py:74 | `sub in s` holds exactly when `sub` occurs in `s` at some index |
| `Document.FindAll` | app.py:58 | `find_all` returns exactly the elements of the document whose tag is one of the given tags |
| `AltText.AltTextFindings` | app.py:57-66 | every finding of the alt-text check is `missing_alt_text` |
| `AltText.AltTextExact` | app.py:57-66 | the check reports exactly one finding per `img` whose `alt` is absent or empty, in document order, and nothing for any other element |
| `Contrast.ContrastFindings` | app.py:68-81 | every finding of the contrast check is `color_contrast` |
| `Contrast.ContrastExact` | app.py:71-81 | one finding per `p`, `span`, `div`, `a` or `h1`..`h6` element whose style contains both `color` and `background`, in document order, and nothing else |
| `Contrast.ContrastHeuristicEdges` | app.py:73-74 | a missing style never triggers, nor does a style without `background`; `background-color: #fff` alone triggers |
| `FormLabels.LabelFindings` | app.py:83-102 | every finding of the label check is `missing_label` |
| `FormLabels.LabelExact` | app.py:84-102 | at most one finding per `input`/`select`/`textarea`, in document order. With a non-empty id a control is reported exactly when no `label` anywhere has that `for`. Without one it is reported exactly when its `type` is not `submit`, `button` or `hidden` |
| `FormLabels.UnmatchedIdExample` | app.py:86-95 | `<input id="x">` with no `label for="x"` gives one `missing_label` naming `x` in its fix |
| `FormLabels.HiddenInputExample` | app.py:96 | a hidden input without an id gives no finding |
| `FormLabels.BareInputExample` | app.py:96-102 | an input with neither id nor type gives one `missing_label` |
| `Headings.Level` | app.py:124 | a heading's level `int(h.name[1])` lies in 1..6 and is 1 exactly for `h1` |
| `Headings.SkipFindings` | app.py:125-132 | the hierarchy loop reports only `heading_skip` findings |
| `Headings.HeadingFindings` | app.py:104-132 | the heading check reports only `no_headings`, `missing_h1` and `heading_skip` findings |
| `Headings.SkipCount` | app.py:124-132 | the number of `heading_skip` findings equals the number of adjacent level pairs that rise by more than one |
| `Headings.SkipContents` | app.py:124-132 | every `heading_skip` finding is, for some heading more than one level deeper than the one before it, that heading's snippet with the text "Heading level skipped from H<previous> to H<current>"; and every such heading has its finding |
| `Headings.SkipExact` | app.py:124-132 | the skip list is exactly one finding per consecutive heading pair whose level rises by more than one, in the order of the pairs: the map of the pair's finding over the rising pairs |
| `Headings.NoSkipIffGradual` | app.py:125-126 | no skip is reported exactly when every heading is at most one level deeper than the one before it |
| `Headings.HeadingKinds` | app.py:104-132 | with no headings, exactly one `no_headings` finding. Otherwise no `no_headings`, one `missing_h1` exactly when no `h1` exists, and one `heading_skip` per rising pair |
| `Headings.SkipExample` | app.py:124-132 | headings H1 then H3 give exactly one finding, a skip from H1 to H3 |
| `Headings.MissingH1Example` | app.py:115-121 | a lone H2 gives `missing_h1` and no skip |
| `LinkText.LinkFindings` | app.py:134-151 | the link check reports only `empty_link` and `non_descriptive_link` findings |
| `LinkText.LinkIssueKinds` | app.py:137-151 | a link with only whitespace text gives `empty_link`. Otherwise it gives `non_descriptive_link` exactly when its trimmed, lower-cased text is one of the five stock phrases. The two are exclusive, and no other link is reported |
| `LinkText.LinkExact` | app.py:135-151 | one finding of the right kind per reported link, in document order, and nothing else |
| `LinkText.EmptyLinkExample` | app.py:138-144 | `<a href="#"></a>` is an empty link |
| `LinkText.ClickHereExample` | app.py:145-151 | ` Click Here ` is matched whatever its case and surrounding spaces |
| `LinkText.DescriptiveLinkExample` | app.py:145 | `View pricing plans` is not reported |
| `Engine.Score` | app.py:42 | the score lies in [0, 100], is a multiple of 5, is 0 exactly from 20 issues on, and otherwise is 100 minus 5 per issue |
| `Engine.ScoreAntitone` | app.py:42 | more issues never give a higher score |
| `Engine.AllFindings` | app.py:35-39 | the concatenated findings come grouped by check, in the order alt text, contrast, labels, headings, links |
| `Engine.MissingAltCount` | app.py:35-42 | a scan's `missing_alt_text` count equals the number of images without a usable `alt` |
| `Scanner.FreshScanReport` | app.py:24-48 | a fresh scanner's report holds the URL, all findings in check order, one `missing_alt_text` per image without a usable `alt`, and the score `max(0, 100 - 5n)` |
| `Scanner.ScanResult` | app.py:44-55 | the report carries the scanned URL. It is the error form exactly when the fetch failed, and then has no issues, score 0 and the exception's message; otherwise its score is `max(0, 100 - 5n)` of its issues and lies in [0, 100] |
| `Scanner.RescanAccumulates` | app.py:18 | a second scan on the same object keeps the earlier issues and appends the new findings after them |
| `Scanner.AccessibilityScanner.constructor` | app.py:16-22 | a new scanner has the given URL, no issues, score 100 and no parsed page |
| `Scanner.AccessibilityScanner.Scan` | app.py:24-55 | on success the page is stored, the five checks' findings are appended in order, and the score is recomputed from the final list. On failure the report is the error form and the object is unchanged |
| `Scanner.AccessibilityScanner.RunChecks` | app.py:33-38 | the five checks run in the order alt text, contrast, labels, headings, links, and together append exactly `AllFindings` of the stored page |
| `Scanner.AccessibilityScanner.CheckAltText` | app.py:57-66 | the loop appends exactly the alt-text findings to the issue list |
| `Scanner.AccessibilityScanner.CheckColorContrast` | app.py:68-81 | the loop appends exactly the contrast findings to the issue list |
| `Scanner.AccessibilityScanner.CheckFormLabels` | app.py:83-102 | the loop appends exactly the label findings to the issue list |
| `Scanner.AccessibilityScanner.CheckHeadingStructure` | app.py:104-132 | appends `no_headings`, or an optional `missing_h1` followed by the skip findings of the hierarchy loop |
| `Scanner.AccessibilityScanner.AppendHeadingSkips` | app.py:124-132 | the hierarchy loop appends exactly the skip findings of the heading list: one per adjacent pair whose level rises by more than one |
| `Scanner.AccessibilityScanner.CheckLinkText` | app.py:134-151 | the loop appends exactly the link findings to the issue list |
| `Scanner.AccessibilityScanner.CheckLink` | app.py:136-151 | one link's body of the loop appends `empty_link` when its stripped text is empty, else `non_descriptive_link` when the lower-cased stripped text is a stock phrase, else nothing |
| `Route.NormalizeUrl` | app.py:163-165 | the result starts with `http://` or `https://`. A URL that already does is kept. Any other URL gets `https://` in front of it, unchanged |
| `Route.NormalizeIdempotent` | app.py:163-165 | normalising twice is normalising once |
| `Route.HandleScan` | app.py:157-170 | a missing or empty form URL is refused with `URL is required`; otherwise the answer is a fresh scanner's report for the normalised URL |
| `Route.ScannedReportShape` | app.py:159-170 | the endpoint scans exactly the normalised URL, and its score lies in [0, 100], 0 with no issues when the fetch fails |

## Left out

- The HTTP fetch (`requests.get` with its header and 10-second timeout, `raise_for_status`) is network I/O. It is a `FetchOutcome` parameter: a parsed document, or the message of the exception that stopped the scan.
- HTML parsing by BeautifulSoup, `str(element)` and `get_text()` belong to a foreign library. The parser's output is given as the element sequence in document order, with each element's tag, attributes, text and markup.
- `scan` returns the scanner's own `issues` list, not a copy (app.py:46), so a report from an earlier scan shares its list with the scanner: a second `scan` on the same object makes the earlier report's issues grow while its score stays as it was. The model's reports hold a value sequence, so this aliasing is not captured. The route builds a fresh scanner for every request, so no response observes it.
- Exceptions raised inside a check are not modelled. Every check only reads already-parsed data, so none can arise.
- `Text.Lower` maps only A-Z and KELVIN SIGN (U+212A) to lower case. Those are the only characters whose Python lower case is a single ASCII letter, so membership of the lowered text in the all-ASCII stock-phrase list is exact. The lowered text itself is never reported.
- Flask plumbing is web I/O with no logic to model: `render_template` for `/`, `jsonify`, and the `__main__` server setup.
- The unused imports and fields (PIL, webcolors, matplotlib, base64, `screenshot`, `highlighted_screenshot`) contain no logic.
