/** The Squarespace detector (squarespace/squarespacedetector.py): the home
    page's Squarespace comment and template markers, or its Server header,
    and the template id and version read off the page. */
module Squarespace {
  import opened PyStr
  import opened Probe

  const PublicComment := "<!-- This is Squarespace. -->"
  const NotSquarespace := "Not running on SquareSpace platform"
  const NoConnection := "could'nt establish a connection"

  // ---------------------------------------------------------------------
  // `formaturl`

  predicate HasScheme(url: string) {
    StartsWith(url, "http://") || StartsWith(url, "https://")
  }

  /** The first step of `formaturl`: the URL with `http://` in front unless it already has a scheme. */
  function Prefixed(url: string): (res: string)
    ensures res != [] && res[0] == 'h' && HasScheme(res)
    ensures HasScheme(url) ==> res == url
  {
    if HasScheme(url) then url else "http://" + url
  }

  /** `formaturl`: the prefixed URL, with '/' stripped from both ends when it ends with '/'. */
  function FormatUrl(url: string): string {
    var res := Prefixed(url);
    if EndsWith(res, "/") then Strip(res, '/') else res
  }

  /** Stripping '/' from a string that starts with another character only touches its end. */
  lemma StripKeepsLead(s: string)
    requires s != [] && s[0] != '/'
    ensures Strip(s, '/') == StripTrailing(s, '/')
    ensures StripTrailing(s, '/') != [] && StripTrailing(s, '/')[0] == s[0]
  {
  }


  /** The result is the scheme-prefixed input with its trailing '/'
      removed: it keeps its leading 'h' and a scheme-prefixed input that
      does not end with '/' is left alone. */
  lemma FormatUrlStripsTrailing(url: string)
    ensures var r := FormatUrl(url); var res := Prefixed(url);
      r == StripTrailing(res, '/') && r != [] && r[0] == 'h' && r[|r| - 1] != '/'
    ensures HasScheme(url) && !EndsWith(url, "/") ==> FormatUrl(url) == url
    ensures !HasScheme(url) && !EndsWith(url, "/") && url != [] ==> FormatUrl(url) == "http://" + url
  {
    var res := Prefixed(url);
    StripKeepsLead(res);
    if !EndsWith(res, "/") {
      assert res[|res| - 1..] == [res[|res| - 1]];
      assert StripTrailing(res, '/') == res;
    } else {
      assert res[|res| - 1..] == "/";
    }
    if !HasScheme(url) && url != [] {
      assert ("http://" + url)[|"http://" + url| - 1..] == url[|url| - 1..];
    }
  }

  /** Formatting again changes nothing as long as the result still carries its scheme. */
  lemma FormatUrlIdempotent(url: string)
    requires HasScheme(FormatUrl(url))
    ensures FormatUrl(FormatUrl(url)) == FormatUrl(url)
  {
    var r := FormatUrl(url);
    FormatUrlStripsTrailing(url);
    assert !EndsWith(r, "/") by {
      assert r[|r| - 1..] == [r[|r| - 1]];
    }
    FormatUrlStripsTrailing(r);
  }

  // ---------------------------------------------------------------------
  // `public_route_search`, `non_public_route_search`, `is_squarespace`

  /** `public_route_search`: the Squarespace comment and both template markers are in the page. */
  function PublicRouteSearch(r: Response): (found: bool)
    ensures found <==> Contains(r.body, PublicComment) && Contains(r.body, "templateId") && Contains(r.body, "templateVersion")
  {
    ContainsIffFound(r.body, PublicComment);
    ContainsIffFound(r.body, "templateId");
    ContainsIffFound(r.body, "templateVersion");
    Find(r.body, PublicComment, 0) > -1 && Find(r.body, "templateId", 0) > -1 && Find(r.body, "templateVersion", 0) > -1
  }

  /** `non_public_route_search`: the Server header names Squarespace
      (case-sensitive); without the header `in None` raises. */
  function NonPublicRouteSearch(r: Response): (o: Outcome<bool>)
    ensures o.Raised? <==> Header(r, "server").None?
    ensures o == Returned(true) <==> Header(r, "server").Some? && Contains(Header(r, "server").value, "Squarespace")
  {
    match Header(r, "server")
    case None => Raised
    case Some(server) => Returned(Contains(server, "Squarespace"))
  }

  /** The Server header test is case-sensitive: a lower-case `squarespace` does not count. */
  lemma ServerMatchIsCaseSensitive(r: Response)
    requires Header(r, "server") == Some("squarespace")
    ensures NonPublicRouteSearch(r) == Returned(false)
  {
    AbsentChar("squarespace", "Squarespace", 0);
  }

  /** `is_squarespace`. Given a url list it falls through every branch and
      returns None, which its only caller reads as false, so the model
      answers false. Without one it reads the formatted home page: a failed
      request raises (its status is read from None), any status but 200
      gives False (`403` included: `(200 or 403)` is just `200`), and
      otherwise the public route, then the Server header, decide. */
  function IsSquarespaceSpec(site: Site, domain: string, urls: Option<seq<string>>): (p: Probed<Outcome<bool>>)
    ensures urls.Some? <==> p.log == []
    ensures urls.None? ==> p.log == [FormatUrl(domain)]
  {
    if urls.Some? then Probed(Returned(false), [])
    else
      var url := FormatUrl(domain);
      match site.Fetch(url)
      case None => Probed(Raised, [url])
      case Some(r) =>
        if r.status != 200 then Probed(Returned(false), [url])
        else if PublicRouteSearch(r) then Probed(Returned(true), [url])
        else Probed(NonPublicRouteSearch(r), [url])
  }

  /** Only a 200 home page with the public markers or a Squarespace Server
      header answers True; the public check comes first, so a page that
      passes it never has its Server header read. */
  lemma IsSquarespaceAnswers(site: Site, domain: string, urls: Option<seq<string>>)
    ensures var v := IsSquarespaceSpec(site, domain, urls).value; var f := site.Fetch(FormatUrl(domain));
      v == Returned(true) <==>
        (urls.None? && f.Some? && f.value.status == 200 &&
         (PublicRouteSearch(f.value) || NonPublicRouteSearch(f.value) == Returned(true)))
    ensures var v := IsSquarespaceSpec(site, domain, urls).value; var f := site.Fetch(FormatUrl(domain));
      v.Raised? <==> urls.None? && (f.None? || (f.value.status == 200 && !PublicRouteSearch(f.value) && Header(f.value, "server").None?))
  {
  }

  /** A refused home page (403, or any status but 200) is a plain no,
      after the one request for the formatted URL. */
  lemma RefusedHomePageIsNo(site: Site, domain: string, r: Response)
    requires site.Fetch(FormatUrl(domain)) == Some(r) && r.status != 200
    ensures IsSquarespaceSpec(site, domain, None) == Probed(Returned(false), [FormatUrl(domain)])
    ensures DetectSpec(site, domain, None) == Probed(Detection("SquareSpace", false, NotSquarespace), [FormatUrl(domain)])
  {
  }

  // ---------------------------------------------------------------------
  // `get_info`

  /** The template id and version on a page: the body split on '"', and
      the tokens two places after the first `templateVersion` and the
      first `templateId`. A missing token (`list.index` raises ValueError)
      or a token too near the end (IndexError) raises. */
  function TemplateInfo(text: string): (o: Outcome<string>)
    ensures var parts := Split(text, '"');
      o.Raised? <==>
        ("templateVersion" !in parts || "templateId" !in parts ||
         IndexOf(parts, "templateVersion") + 2 >= |parts| || IndexOf(parts, "templateId") + 2 >= |parts|)
    ensures o.Returned? ==> ',' in o.value
  {
    var parts := Split(text, '"');
    var v := IndexOf(parts, "templateVersion");
    if v == -1 || v + 2 >= |parts| then Raised
    else
      var i := IndexOf(parts, "templateId");
      if i == -1 || i + 2 >= |parts| then Raised
      else
        var r := parts[i + 2] + "," + parts[v + 2];
        assert r[|parts[i + 2]|] == ',';
        Returned(r)
  }

  /** The pieces `ts`, each followed by a quote, and then `post`. */
  function QuoteJoined(ts: seq<string>, post: string): string
    decreases |ts|
  {
    if ts == [] then post else ts[0] + ['"'] + QuoteJoined(ts[1..], post)
  }

  /** Splitting quote-free pieces, each followed by a quote, gives those pieces first. */
  lemma {:induction false} SplitQuoteJoined(ts: seq<string>, post: string)
    requires forall k :: 0 <= k < |ts| ==> '"' !in ts[k]
    ensures Split(QuoteJoined(ts, post), '"') == ts + Split(post, '"')
    decreases |ts|
  {
    if ts != [] {
      var rest := QuoteJoined(ts[1..], post);
      SplitAtFirst(ts[0], '"', rest);
      SplitQuoteJoined(ts[1..], post);
      AppendAssoc([ts[0]], ts[1..], Split(post, '"'));
      assert [ts[0]] + ts[1..] == ts;
    }
  }

  /** A page `<pre>"templateId":"<id>","templateVersion":"<version>"<post>`
      gives `<id>,<version>`. The text before may hold any markup, quoted
      attributes included, as long as neither token is already one of its
      quote-separated pieces. */
  lemma TemplateInfoReadsPair(pre: string, id: string, version: string, post: string)
    requires '"' !in id && '"' !in version && id != "templateVersion"
    requires "templateId" !in Split(pre, '"') && "templateVersion" !in Split(pre, '"')
    ensures TemplateInfo(pre + "\"" + QuoteJoined(["templateId", ":", id, ",", "templateVersion", ":", version], post)) == Returned(id + "," + version)
  {
    TemplateInfoOfTokens(pre, ["templateId", ":", id, ",", "templateVersion", ":", version], post);
  }

  /** Seven quote-free tokens, `templateId` first and `templateVersion`
      fifth and not earlier, after a text where neither token stands between
      quotes, give the third and the seventh. */
  lemma TemplateInfoOfTokens(pre: string, tokens: seq<string>, post: string)
    requires |tokens| == 7 && forall k :: 0 <= k < 7 ==> '"' !in tokens[k]
    requires tokens[0] == "templateId" && tokens[4] == "templateVersion"
    requires forall j :: 0 <= j < 4 ==> tokens[j] != "templateVersion"
    requires "templateId" !in Split(pre, '"') && "templateVersion" !in Split(pre, '"')
    ensures TemplateInfo(pre + "\"" + QuoteJoined(tokens, post)) == Returned(tokens[2] + "," + tokens[6])
  {
    var text := pre + "\"" + QuoteJoined(tokens, post);
    var front := Split(pre, '"');
    var parts := Split(text, '"');
    var n := |front|;
    PiecesAfterPrefix(pre, tokens, post);
    assert parts[n + 4] == tokens[4] && parts[n] == tokens[0];
    assert parts[n + 2] == tokens[2] && parts[n + 6] == tokens[6];
    forall j | 0 <= j < n + 4 ensures parts[j] != "templateVersion" {
      if j < n {
        assert parts[j] == front[j];
      } else {
        assert parts[j] == tokens[j - n];
      }
    }
    forall j | 0 <= j < n ensures parts[j] != "templateId" {
      assert parts[j] == front[j];
    }
    IndexOfAt(parts, "templateVersion", n + 4);
    IndexOfAt(parts, "templateId", n);
    TemplateInfoAt(text, n, n + 4);
  }

  /** The pieces of `pre`, then the quote-free tokens, then those of `post`. */
  lemma PiecesAfterPrefix(pre: string, tokens: seq<string>, post: string)
    requires forall k :: 0 <= k < |tokens| ==> '"' !in tokens[k]
    ensures Split(pre + "\"" + QuoteJoined(tokens, post), '"') == Split(pre, '"') + tokens + Split(post, '"')
  {
    var rest := QuoteJoined(tokens, post);
    assert pre + "\"" + rest == pre + ['"'] + rest;
    SplitConcat(pre, '"', rest);
    SplitQuoteJoined(tokens, post);
    AppendAssoc(Split(pre, '"'), tokens, Split(post, '"'));
  }

  /** With both tokens found far enough from the end, the answer is the
      piece two after `templateId`, a comma and the piece two after `templateVersion`. */
  lemma TemplateInfoAt(text: string, i: nat, v: nat)
    requires var parts := Split(text, '"');
      v + 2 < |parts| && i + 2 < |parts| &&
      IndexOf(parts, "templateVersion") == v && IndexOf(parts, "templateId") == i
    ensures var parts := Split(text, '"');
      TemplateInfo(text) == Returned(parts[i + 2] + "," + parts[v + 2])
  {
  }

  /** `IndexOf` finds the first position holding `x`. */
  lemma {:induction false} IndexOfAt(lst: seq<string>, x: string, k: nat)
    requires k < |lst| && lst[k] == x
    requires forall j :: 0 <= j < k ==> lst[j] != x
    ensures IndexOf(lst, x) == k
    decreases k
  {
    if k > 0 {
      IndexOfAt(lst[1..], x, k - 1);
    }
  }

  /** A page without the `templateVersion` token raises. */
  lemma TemplateInfoNeedsVersion(text: string)
    requires "templateVersion" !in Split(text, '"')
    ensures TemplateInfo(text).Raised?
  {
  }

  /** `get_info`, on `http://<domain>` (not the formatted URL): a failed
      request or a status other than 200 gives False, modelled as None. */
  function GetInfoSpec(site: Site, domain: string): (p: Probed<Outcome<Option<string>>>)
    ensures p.log == ["http://" + domain]
    ensures p.value == Returned(None) <==>
      site.Fetch("http://" + domain).None? || site.Fetch("http://" + domain).value.status != 200
    ensures p.value.Raised? <==>
      site.Fetch("http://" + domain).Some? && site.Fetch("http://" + domain).value.status == 200 &&
      TemplateInfo(site.Fetch("http://" + domain).value.body).Raised?
    ensures p.value.Returned? && p.value.value.Some? ==> ',' in p.value.value.value
  {
    var url := "http://" + domain;
    match site.Fetch(url)
    case None => Probed(Returned(None), [url])
    case Some(r) =>
      if r.status != 200 then Probed(Returned(None), [url])
      else match TemplateInfo(r.body)
        case Raised => Probed(Raised, [url])
        case Returned(info) => Probed(Returned(Some(info)), [url])
  }

  // ---------------------------------------------------------------------
  // `detect`

  /** `detect`: a positive `is_squarespace` asks for the template
      information; an answer is the positive verdict, False means the
      connection failed, and any exception gives the negative verdict. */
  function DetectSpec(site: Site, domain: string, urls: Option<seq<string>>): Probed<Detection> {
    var answer := IsSquarespaceSpec(site, domain, urls);
    if answer.value != Returned(true) then Probed(Detection("SquareSpace", false, NotSquarespace), answer.log)
    else
      var info := GetInfoSpec(site, domain);
      match info.value
      case Raised => Probed(Detection("SquareSpace", false, NotSquarespace), answer.log + info.log)
      case Returned(None) => Probed(Detection("SquareSpace", false, NoConnection), answer.log + info.log)
      case Returned(Some(s)) => Probed(Detection("SquareSpace", true, s), answer.log + info.log)
  }

  /** The verdict is positive exactly when both steps succeed, and then its
      text is `<id>,<version>`; a missing template token gives the negative verdict. */
  lemma DetectVerdicts(site: Site, domain: string, urls: Option<seq<string>>)
    ensures var d := DetectSpec(site, domain, urls).value;
      d.platform == "SquareSpace" &&
      (d.detected <==> IsSquarespaceSpec(site, domain, urls).value == Returned(true) && GetInfoSpec(site, domain).value.Returned? && GetInfoSpec(site, domain).value.value.Some?) &&
      (d.detected ==> ',' in d.info) &&
      (!d.detected ==> d.info == NotSquarespace || d.info == NoConnection)
    ensures urls.Some? ==> DetectSpec(site, domain, urls) == Probed(Detection("SquareSpace", false, NotSquarespace), [])
    ensures IsSquarespaceSpec(site, domain, urls).value == Returned(true) && GetInfoSpec(site, domain).value.Raised? ==>
      DetectSpec(site, domain, urls).value.info == NotSquarespace
    ensures IsSquarespaceSpec(site, domain, urls).value == Returned(true) && GetInfoSpec(site, domain).value == Returned(None) ==>
      DetectSpec(site, domain, urls).value.info == NoConnection
  {
  }

  class SquarespaceDetector {
    var domain: string

    constructor ()
      ensures domain == ""
    {
      domain := "";
    }

    /** `detect`: remember the domain and run the checks. Retries,
        time-out, proxies and the aggressive mode only shape the requests
        and are not modelled. */
    method Detect(d: string, site: Site, urls: Option<seq<string>>) returns (v: Detection, log: seq<string>)
      modifies this
      ensures domain == d
      ensures Probed(v, log) == DetectSpec(site, d, urls)
    {
      domain := d;
      var answer := IsSquarespaceSpec(site, domain, urls);
      log := answer.log;
      if answer.value != Returned(true) {
        v := Detection("SquareSpace", false, NotSquarespace);
        return;
      }
      var info := GetInfoSpec(site, domain);
      log := log + info.log;
      match info.value
      case Raised => v := Detection("SquareSpace", false, NotSquarespace);
      case Returned(None) => v := Detection("SquareSpace", false, NoConnection);
      case Returned(Some(s)) => v := Detection("SquareSpace", true, s);
    }
  }
}
