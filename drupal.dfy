/** The Drupal detector (drupal/drupaldetector.py): the home page's
    X-Generator header and its Drupal-marked resources, then probes of known
    paths, and a version read off the home page. Every request goes to
    `https://<domain>`. */
module Drupal {
  import opened PyStr
  import opened Probe

  /** `_DRUPAL_DETECTABLE_URL`, the paths probed when the caller gives none. */
  const DetectableUrls: seq<string> := ["/changelog.txt", "/misc/drupal.js", "/misc/druplicon.png", "/user"]

  /** `_DRUPAL_DETECTABLE_FOLDER`. */
  const Folders: seq<string> := ["/core", "/sites"]

  const NotDrupal := "probably it is not a drupal website"
  const Undetected := "Could'nt detect version"
  const Selector := "data-drupal-selector"

  function Home(domain: string): string {
    "https://" + domain
  }

  /** The truth value of a `requests` response: false for a 4xx or 5xx status. */
  predicate Truthy(r: Response) {
    !(400 <= r.status < 600)
  }

  // ---------------------------------------------------------------------
  // `get_version`

  /** `get_version` on the home page's text: '/sites' or 'drupal 7' means
      Drupal 7 and is tested before '/core', which means Drupal 8. */
  function VersionOf(text: string): (r: string)
    ensures r == "version 7" || r == "version 8" || r == Undetected
    ensures r == "version 7" <==> Contains(text, "/sites") || Contains(text, "drupal 7")
    ensures r == "version 8" <==> !Contains(text, "/sites") && !Contains(text, "drupal 7") && Contains(text, "/core")
  {
    if Contains(text, "/sites") || Contains(text, "drupal 7") then "version 7"
    else if Contains(text, "/core") then "version 8"
    else Undetected
  }

  /** A page naming both folders reads as Drupal 7. */
  lemma SitesBeatsCore(p: string, q: string, t: string)
    ensures VersionOf(p + "/core" + q + "/sites" + t) == "version 7"
  {
    var text := p + "/core" + q + "/sites" + t;
    assert text == (p + "/core" + q) + "/sites" + t;
    ContainsInfix(p + "/core" + q, "/sites", t);
  }

  /** A failed request leaves `.text` to be read from None, which raises. */
  function GetVersionSpec(site: Site, domain: string): Probed<Outcome<string>> {
    match site.Fetch(Home(domain))
    case None => Probed(Raised, [Home(domain)])
    case Some(r) => Probed(Returned(VersionOf(r.body)), [Home(domain)])
  }

  method GetVersion(site: Site, domain: string) returns (version: Outcome<string>, log: seq<string>)
    ensures Probed(version, log) == GetVersionSpec(site, domain)
  {
    log := [Home(domain)];
    var response := site.Fetch(Home(domain));
    if response.None? {
      return Raised, log;
    }
    return Returned(VersionOf(response.value.body)), log;
  }

  // ---------------------------------------------------------------------
  // `header_check` and `resources_detector`

  /** `header_check`: True iff the X-Generator header contains "Drupal"
      (case-sensitive). Without the header, `"Drupal" in None` raises
      TypeError outside the `try`. */
  function HeaderCheck(r: Response): (o: Outcome<bool>)
    ensures o.Raised? <==> Header(r, "X-Generator").None?
    ensures o == Returned(true) <==> Header(r, "X-Generator").Some? && Contains(Header(r, "X-Generator").value, "Drupal")
  {
    match Header(r, "X-Generator")
    case None => Raised
    case Some(g) => Returned(Contains(g, "Drupal"))
  }

  /** An element the resource check accepts: a script or a link with a truthy selector attribute. */
  predicate DrupalResource(e: Element) {
    (e.tag == "script" || e.tag == "a") && AttrTruthy(e, Selector)
  }

  /** `resources_detector`: every `<script>`, then every `<a>`, is asked
      for a truthy `data-drupal-selector`; a page the parser rejects gives False. */
  method ResourcesDetector(r: Response) returns (found: bool)
    ensures found <==> r.elements.Some? && exists e :: e in r.elements.value && DrupalResource(e)
  {
    if r.elements.None? {
      return false;
    }
    var elements := r.elements.value;
    for i := 0 to |elements|
      invariant forall j :: 0 <= j < i ==> !(elements[j].tag == "script" && AttrTruthy(elements[j], Selector))
    {
      if elements[i].tag == "script" && AttrTruthy(elements[i], Selector) {
        assert DrupalResource(elements[i]);
        return true;
      }
    }
    for i := 0 to |elements|
      invariant forall j :: 0 <= j < i ==> !(elements[j].tag == "a" && AttrTruthy(elements[j], Selector))
    {
      if elements[i].tag == "a" && AttrTruthy(elements[i], Selector) {
        assert DrupalResource(elements[i]);
        return true;
      }
    }
    return false;
  }

  /** What `resources_detector` answers, for the specification functions. */
  predicate HasResources(r: Response) {
    r.elements.Some? && exists e :: e in r.elements.value && DrupalResource(e)
  }

  // ---------------------------------------------------------------------
  // `is_drupal`

  /** The body test of the probes: "drupal", then each folder, in the lower-cased body. */
  predicate Marked(text: string) {
    Contains(Lower(text), "drupal") || exists f :: f in Folders && Contains(Lower(text), f)
  }

  /** The folder loop: some folder occurs in the text. */
  method MentionsFolder(text: string, folders: seq<string>) returns (found: bool)
    ensures found <==> exists f :: f in folders && Contains(text, f)
  {
    for i := 0 to |folders|
      invariant forall j :: 0 <= j < i ==> !Contains(text, folders[j])
    {
      if Contains(text, folders[i]) {
        return true;
      }
    }
    return false;
  }

  /** The body test, as the program runs it. */
  method IsMarked(text: string) returns (marked: bool)
    ensures marked == Marked(text)
  {
    var lower := Lower(text);
    if Contains(lower, "drupal") {
      return true;
    }
    marked := MentionsFolder(lower, Folders);
  }

  /** A probe that the url loop counts: present, status 200, marked body. */
  predicate ProbeHits(site: Site, u: string) {
    site.Fetch(u).Some? && Accepted(site.Fetch(u).value.status) && Marked(site.Fetch(u).value.body)
  }

  /** The url loop: missing and non-200 probes are skipped, the first marked one answers True. */
  function UrlScan(site: Site, home: string, urls: seq<string>): (p: Probed<bool>)
    ensures p.value <==> exists k :: 0 <= k < |urls| && ProbeHits(site, home + urls[k])
    ensures p.value ==> p.log != [] && ProbeHits(site, p.log[|p.log| - 1])
    ensures !p.value ==> |p.log| == |urls|
    ensures |p.log| <= |urls| && forall j :: 0 <= j < |p.log| ==> p.log[j] == home + urls[j]
    decreases |urls|
  {
    if urls == [] then Probed(false, [])
    else
      var u := home + urls[0];
      if ProbeHits(site, u) then Probed(true, [u])
      else
        var rest := UrlScan(site, home, urls[1..]);
        assert forall k :: 1 <= k < |urls| ==> urls[k] == urls[1..][k - 1];
        Probed(rest.value, [u] + rest.log)
  }

  /** `is_drupal`. With no paths: a failed request falls off the end of the
      function (None), any status but 200 gives False, and otherwise a
      marked body gives True and an unmarked one None. With paths: a falsy
      or missing home page gives False; otherwise the header check (which
      may raise), the resource check and the url loop are tried in order. */
  function IsDrupalSpec(site: Site, domain: string, urls: seq<string>): (p: Probed<Outcome<Option<bool>>>)
    ensures p.log != [] && p.log[0] == Home(domain) && |p.log| <= 1 + |urls|
    ensures p.value == Returned(None) ==> urls == []
  {
    var home := Home(domain);
    if urls == [] then
      match site.Fetch(home)
      case None => Probed(Returned(None), [home])
      case Some(r) =>
        if !Accepted(r.status) then Probed(Returned(Some(false)), [home])
        else if Marked(r.body) then Probed(Returned(Some(true)), [home])
        else Probed(Returned(None), [home])
    else
      match site.Fetch(home)
      case None => Probed(Returned(Some(false)), [home])
      case Some(r) =>
        if !Truthy(r) then Probed(Returned(Some(false)), [home])
        else match HeaderCheck(r)
          case Raised => Probed(Raised, [home])
          case Returned(true) => Probed(Returned(Some(true)), [home])
          case Returned(false) =>
            if HasResources(r) then Probed(Returned(Some(true)), [home])
            else
              var scan := UrlScan(site, home, urls);
              Probed(Returned(Some(scan.value)), [home] + scan.log)
  }

  /** Check order with paths: a Drupal header answers at once; a home page
      whose header does not name Drupal goes on to the resource check, and
      only a page with neither reaches the url loop. */
  lemma CheckOrder(site: Site, domain: string, urls: seq<string>, r: Response)
    requires urls != [] && site.Fetch(Home(domain)) == Some(r) && Truthy(r)
    ensures HeaderCheck(r) == Returned(true) ==> IsDrupalSpec(site, domain, urls) == Probed(Returned(Some(true)), [Home(domain)])
    ensures HeaderCheck(r) == Returned(false) && HasResources(r) ==>
      IsDrupalSpec(site, domain, urls) == Probed(Returned(Some(true)), [Home(domain)])
    ensures HeaderCheck(r) == Returned(false) && !HasResources(r) ==>
      IsDrupalSpec(site, domain, urls).value == Returned(Some(exists k :: 0 <= k < |urls| && ProbeHits(site, Home(domain) + urls[k])))
    ensures IsDrupalSpec(site, domain, urls).value.Returned? <==> Header(r, "X-Generator").Some?
  {
  }

  /** Without paths, only a 200 home page can answer True, and it does so exactly when it is marked. */
  lemma NoUrlBranch(site: Site, domain: string)
    ensures var v := IsDrupalSpec(site, domain, []).value;
      v == Returned(Some(true)) <==> site.Fetch(Home(domain)).Some? && Accepted(site.Fetch(Home(domain)).value.status) && Marked(site.Fetch(Home(domain)).value.body)
    ensures var v := IsDrupalSpec(site, domain, []).value;
      site.Fetch(Home(domain)).Some? && !Accepted(site.Fetch(Home(domain)).value.status) ==> v == Returned(Some(false))
  {
  }

  /** A home page refused with 403 is False on both branches: without
      paths `('200' or '403')` is just `'200'`, and with paths a 4xx
      response is falsy. A refused path probe is skipped. */
  lemma RefusedPagesGiveNo(site: Site, domain: string, urls: seq<string>, r: Response)
    requires site.Fetch(Home(domain)) == Some(r) && r.status == 403
    ensures IsDrupalSpec(site, domain, urls) == Probed(Returned(Some(false)), [Home(domain)])
    ensures forall u :: site.Fetch(u) == Some(r) ==> !ProbeHits(site, u)
  {
  }

  /** One probe of the url loop, after the probes already logged. */
  lemma UrlScanStep(site: Site, home: string, urls: seq<string>, i: nat, log: seq<string>)
    requires i < |urls|
    ensures var u := home + urls[i]; var here := UrlScan(site, home, urls[i..]); var next := UrlScan(site, home, urls[i + 1..]);
      (ProbeHits(site, u) ==> Probed(here.value, log + here.log) == Probed(true, log + [u])) &&
      (!ProbeHits(site, u) ==> Probed(here.value, log + here.log) == Probed(next.value, (log + [u]) + next.log))
  {
    assert urls[i..][1..] == urls[i + 1..];
    AppendAssoc(log, [home + urls[i]], UrlScan(site, home, urls[i + 1..]).log);
  }

  /** The url loop of `is_drupal`, skipping failed probes. */
  method ScanUrls(site: Site, home: string, urls: seq<string>) returns (found: bool, log: seq<string>)
    ensures Probed(found, log) == UrlScan(site, home, urls)
  {
    log := [];
    assert urls[0..] == urls;
    for i := 0 to |urls|
      invariant UrlScan(site, home, urls) == Probed(UrlScan(site, home, urls[i..]).value, log + UrlScan(site, home, urls[i..]).log)
    {
      UrlScanStep(site, home, urls, i, log);
      var u := home + urls[i];
      var response := site.Fetch(u);
      if response.Some? && Accepted(response.value.status) {
        var marked := IsMarked(response.value.body);
        if marked {
          return true, log + [u];
        }
      }
      log := log + [u];
    }
    assert urls[|urls|..] == [];
    assert log + [] == log;
    return false, log;
  }

  method IsDrupal(site: Site, domain: string, urls: seq<string>) returns (r: Outcome<Option<bool>>, log: seq<string>)
    ensures Probed(r, log) == IsDrupalSpec(site, domain, urls)
  {
    var home := Home(domain);
    log := [home];
    var response := site.Fetch(home);
    if urls == [] {
      if response.None? {
        return Returned(None), log;
      } else if !Accepted(response.value.status) {
        return Returned(Some(false)), log;
      }
      var marked := IsMarked(response.value.body);
      r := if marked then Returned(Some(true)) else Returned(None);
      return;
    }
    if response.None? || !Truthy(response.value) {
      return Returned(Some(false)), log;
    }
    var header := HeaderCheck(response.value);
    if header.Raised? {
      return Raised, log;
    } else if header.value {
      return Returned(Some(true)), log;
    }
    var resources := ResourcesDetector(response.value);
    if resources {
      return Returned(Some(true)), log;
    }
    var found, more := ScanUrls(site, home, urls);
    return Returned(Some(found)), log + more;
  }

  // ---------------------------------------------------------------------
  // `detect`

  /** `detect`: a True from `is_drupal` asks for the version; a None, a
      False or any exception (from `is_drupal` or `get_version`) gives the
      negative verdict. */
  function DetectSpec(site: Site, domain: string, urls: seq<string>): Probed<Detection> {
    var answer := IsDrupalSpec(site, domain, urls);
    if answer.value == Returned(Some(true)) then
      var g := GetVersionSpec(site, domain);
      match g.value
      case Raised => Probed(Detection("Drupal", false, NotDrupal), answer.log + g.log)
      case Returned(v) => Probed(Detection("Drupal", true, v), answer.log + g.log)
    else Probed(Detection("Drupal", false, NotDrupal), answer.log)
  }

  /** The verdict is positive exactly when `is_drupal` answered True: a True
      answer has already read the home page, so the version request, which
      asks for the same page, cannot raise. The text is then one of the
      three version answers. */
  lemma DetectVerdicts(site: Site, domain: string, urls: seq<string>)
    ensures var d := DetectSpec(site, domain, urls).value;
      d.platform == "Drupal" &&
      (d.detected <==> IsDrupalSpec(site, domain, urls).value == Returned(Some(true))) &&
      (d.detected ==> d.info in {"version 7", "version 8", Undetected}) &&
      (!d.detected ==> d.info == NotDrupal)
  {
  }

  class DrupalDetector {
    var domain: string

    constructor ()
      ensures domain == ""
    {
      domain := "";
    }

    /** `detect`: remember the domain and run the checks on the given paths
        (or the default ones). Retries, time-out, proxies and the
        aggressive mode only shape the requests and are not modelled. */
    method Detect(d: string, site: Site, urls: Option<seq<string>>) returns (v: Detection, log: seq<string>)
      modifies this
      ensures domain == d
      ensures Probed(v, log) == DetectSpec(site, d, if urls.None? then DetectableUrls else urls.value)
    {
      domain := d;
      var paths := if urls.None? then DetectableUrls else urls.value;
      var answer;
      answer, log := IsDrupal(site, domain, paths);
      if answer == Returned(Some(true)) {
        var version, more := GetVersion(site, domain);
        log := log + more;
        if version.Raised? {
          v := Detection("Drupal", false, NotDrupal);
        } else {
          v := Detection("Drupal", true, version.value);
        }
      } else {
        v := Detection("Drupal", false, NotDrupal);
      }
    }
  }
}
