/** What the detectors see of the web. Fetching is abstracted away: a site is
    a fixed table from absolute URL to the response a GET of that URL yields
    (retries, time-outs and proxies are the fetcher's business and are not
    modelled); a URL missing from the table is a request that failed, which
    the fetcher reports as None. Every probing operation of the model returns
    the URLs it requested, in order, beside its value. */
module Probe {

  datatype Option<+T> = None | Some(value: T)

  /** The outcome of Python code that may raise: the value it returns, or the
      fact that an exception escaped it. */
  datatype Outcome<+T> = Returned(value: T) | Raised

  /** An element of a parsed HTML document: its tag name and attributes. */
  datatype Element = Element(tag: string, attrs: map<string, string>)

  /** One HTTP response. `url` is the final URL after redirects; `elements`
      is what the HTML parser makes of `body` (None when parsing fails). */
  datatype Response = Response(
    status: int,
    headers: map<string, string>,
    body: string,
    url: string,
    elements: Option<seq<Element>>)

  datatype Site = Site(pages: map<string, Response>) {
    /** The fetcher's answer to a GET of url. */
    function Fetch(url: string): Option<Response> {
      if url in pages then Some(pages[url]) else None
    }
  }

  /** A detector's answer: platform name, whether the site runs on it, and a version or an explanation. */
  datatype Detection = Detection(platform: string, detected: bool, info: string)

  /** A value together with the URLs requested, in order, to compute it. */
  datatype Probed<+T> = Probed(value: T, log: seq<string>)

  /** Concatenation is associative. */
  lemma AppendAssoc<T>(a: seq<T>, b: seq<T>, c: seq<T>)
    ensures a + (b + c) == (a + b) + c
  {
  }

  /** Python's `headers.get(name)`. */
  function Header(r: Response, name: string): Option<string> {
    if name in r.headers then Some(r.headers[name]) else None
  }

  /** The truth value of an attribute lookup `attrs.get(name)`: present and non-empty. */
  predicate AttrTruthy(e: Element, name: string) {
    name in e.attrs && e.attrs[name] != ""
  }

  /** The status test the detectors share: Joomla! and Drupal compare
      `str(status)` with `('200' or '403')` or `('200' or '403' or '401')`,
      which Python evaluates to `'200'`, and WordPress compares with `'200'`
      itself. Squarespace's `is not (200 or 403)` and Drupal's truthiness
      test of a response are modelled where they occur. */
  predicate Accepted(status: int) {
    status == 200
  }
}
