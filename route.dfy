/** The `/scan` endpoint: it takes the URL from the submitted form, refuses a
    missing or empty one, defaults the scheme to HTTPS, and returns the
    report of a fresh scanner. */
module Route {
  import opened Wrappers
  import opened Text
  import opened Document
  import opened Scanner

  const HttpPrefix := "http://"
  const HttpsPrefix := "https://"
  const UrlRequired := "URL is required"

  predicate HasScheme(url: string) {
    StartsWith(url, HttpPrefix) || StartsWith(url, HttpsPrefix)
  }

  /** `https://` is put in front of a URL that starts with neither
      `http://` nor `https://`; any other URL is kept as it is. */
  function NormalizeUrl(url: string): (r: string)
    ensures HasScheme(r)
    ensures HasScheme(url) ==> r == url
    ensures !HasScheme(url) ==> StartsWith(r, HttpsPrefix) && r[|HttpsPrefix|..] == url
  {
    if HasScheme(url) then url else HttpsPrefix + url
  }

  /** Normalising twice is normalising once. */
  lemma {:induction false} NormalizeIdempotent(url: string)
    ensures NormalizeUrl(NormalizeUrl(url)) == NormalizeUrl(url)
  {
  }

  /** The JSON body the endpoint answers with. */
  datatype Response = Refused(error: string) | Scanned(report: ScanReport)

  /** Handle one POST to `/scan`. `formUrl` is the form's `url` field, if
      present; `fetch` stands for fetching and parsing a page. */
  method HandleScan(formUrl: Option<string>, fetch: string -> FetchOutcome) returns (response: Response)
    ensures !Truthy(formUrl) ==> response == Refused(UrlRequired)
    ensures Truthy(formUrl) ==>
              var url := NormalizeUrl(formUrl.value);
              response == Scanned(ScanResult(url, [], fetch(url)))
  {
    if !Truthy(formUrl) {
      return Refused(UrlRequired);
    }
    var url := formUrl.value;
    if !HasScheme(url) {
      url := HttpsPrefix + url;
    }
    var scanner := new AccessibilityScanner(url);
    var results := scanner.Scan(fetch(url));
    response := Scanned(results);
  }

  /** The endpoint's answer for a present URL scans exactly the normalised
      URL, reports it back, and its score lies in [0, 100]. */
  lemma {:induction false} ScannedReportShape(raw: string, fetch: string -> FetchOutcome)
    requires raw != ""
    ensures var url := NormalizeUrl(raw);
            var r := ScanResult(url, [], fetch(url));
            && r.url == url
            && HasScheme(r.url)
            && r.Score() <= 100
            && (fetch(url).FetchFailed? ==> r.Issues() == [] && r.Score() == 0)
  {
  }
}
