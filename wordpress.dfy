/** The WordPress detector: evidence from a fixed list of candidate paths,
    the home page and the X-Powered-By header is gathered into a list of
    signals `(flag, text)` and reduced to one answer. Entries of that list
    may be Python's None (a version probe that caught an exception), which
    the reduction trips over. */
module WordPress {
  import opened PyStr
  import opened Probe
  import opened WordPressPaths

  /** The ambiguous version text used throughout the detector (spelling as in the program). */
  const Sentinel := "Could'nt detect version"

  datatype Signal = Signal(flag: bool, text: string)

  const Unknown := Signal(true, Sentinel)
  const NotDetected := Signal(false, Sentinel)

  const VersionDetectableUrls: seq<string> := [AdminPath, RssPath, AtomPath, OpmlPath]
  const VersionNonDetectableUrls: seq<string> := [LicensePath, ReadmePath, UpgradePath, RobotsPath]

  /** The candidate paths probed when the caller gives none. */
  const DefaultUrls: seq<string> := VersionDetectableUrls + VersionNonDetectableUrls

  // ---------------------------------------------------------------------
  // The PHP-version table

  /** The PHP version announced by X-Powered-By: of its first comma-separated
      part, the piece after the first '/' (up to a second '/'). None where
      the program's lookup raises and it gives up: no header, or no '/'. */
  function PhpField(headers: map<string, string>): Option<string> {
    if "X-Powered-By" !in headers then None
    else
      var parts := Split(Split(headers["X-Powered-By"], ',')[0], '/');
      if |parts| < 2 then None else Some(parts[1])
  }

  /** `_find_version_by_php`: a WordPress version range guessed from the PHP
      major/minor pair. The minor comparison for PHP 5 is Python's string
      `<=`. A listed major without a minor part raises (index 1 of the split
      is missing and nothing catches it). */
  function FindVersionByPhp(headers: map<string, string>): (r: Outcome<seq<Signal>>)
    ensures r.Returned? ==> |r.value| <= 1 && forall s :: s in r.value ==> s.flag
    ensures PhpField(headers).None? ==> r == Returned([])
    ensures r.Raised? <==> PhpField(headers).Some? && '.' !in PhpField(headers).value && PhpField(headers).value in {"7", "5", "4"}
  {
    match PhpField(headers)
    case None => Returned([])
    case Some(php) =>
      if php == "" then Returned([])
      else
        var n := Split(php, '.');
        SplitSingle(php, '.');
        if n[0] == "7" then
          if |n| < 2 then Raised
          else if n[1] == "3" then Returned([Signal(true, "probably 5.4")])
          else Returned([Signal(true, "5.2 or higher")])
        else if n[0] == "5" then
          if |n| < 2 then Raised
          else if StrLe(n[1], "2") then Returned([Signal(true, "3.2 or higher")])
          else Returned([Signal(true, "5 or higher")])
        else if n[0] == "4" then
          if |n| < 2 then Raised
          else if n[1] == "3" then Returned([Signal(true, "2.5-3.1")])
          else if n[1] == "2" then Returned([Signal(true, "2-2.3")])
          else Returned([])
        else Returned([])
  }

  /** The same correlation kept as an explicit table: the first row whose
      major matches and whose minor test passes gives the range. */
  datatype MinorTest = Equals(minor: string) | AtMost(bound: string) | AnyMinor
  datatype PhpRow = PhpRow(major: string, test: MinorTest, range: string)

  const PhpTable: seq<PhpRow> := [
    PhpRow("7", Equals("3"), "probably 5.4"),
    PhpRow("7", AnyMinor, "5.2 or higher"),
    PhpRow("5", AtMost("2"), "3.2 or higher"),
    PhpRow("5", AnyMinor, "5 or higher"),
    PhpRow("4", Equals("3"), "2.5-3.1"),
    PhpRow("4", Equals("2"), "2-2.3")
  ]

  predicate RowMatches(row: PhpRow, major: string, minor: string) {
    row.major == major &&
    match row.test
    case Equals(m) => minor == m
    case AtMost(b) => StrLe(minor, b)
    case AnyMinor => true
  }

  function TableLookup(rows: seq<PhpRow>, major: string, minor: string): Option<string>
    decreases |rows|
  {
    if rows == [] then None
    else if RowMatches(rows[0], major, minor) then Some(rows[0].range)
    else TableLookup(rows[1..], major, minor)
  }

  predicate MajorListed(major: string) {
    exists i :: 0 <= i < |PhpTable| && PhpTable[i].major == major
  }

  /** The table read as a specification of `_find_version_by_php`. */
  function PhpReference(headers: map<string, string>): Outcome<seq<Signal>> {
    match PhpField(headers)
    case None => Returned([])
    case Some(php) =>
      var n := Split(php, '.');
      if !MajorListed(n[0]) then Returned([])
      else if |n| < 2 then Raised
      else match TableLookup(PhpTable, n[0], n[1])
        case None => Returned([])
        case Some(range) => Returned([Signal(true, range)])
  }

  /** What the table answers for each listed major. */
  lemma TableLookupByMajor(major: string, minor: string)
    ensures major == "7" ==> TableLookup(PhpTable, major, minor) == Some(if minor == "3" then "probably 5.4" else "5.2 or higher")
    ensures major == "5" ==> TableLookup(PhpTable, major, minor) == Some(if StrLe(minor, "2") then "3.2 or higher" else "5 or higher")
    ensures major == "4" ==>
      TableLookup(PhpTable, major, minor) == (if minor == "3" then Some("2.5-3.1") else if minor == "2" then Some("2-2.3") else None)
  {
    assert PhpTable[1..][1..] == PhpTable[2..];
    assert PhpTable[2..][1..][1..] == PhpTable[4..];
    assert PhpTable[4..][1..][1..] == [];
  }

  /** The branching code and the table agree on every header. */
  lemma FindVersionByPhpFollowsTable(headers: map<string, string>)
    ensures FindVersionByPhp(headers) == PhpReference(headers)
  {
    match PhpField(headers)
    case None =>
    case Some(php) =>
      var n := Split(php, '.');
      assert MajorListed(n[0]) <==> n[0] in {"7", "5", "4"} by {
        assert PhpTable[0].major == "7" && PhpTable[2].major == "5" && PhpTable[4].major == "4";
      }
      if php == "" {
        SplitWithout(php, '.');
      }
      if |n| >= 2 {
        TableLookupByMajor(n[0], n[1]);
      }
  }

  /** An X-Powered-By header `PHP/<v>` announces `v`. */
  lemma PhpFieldOfPlainHeader(v: string)
    requires ',' !in v && '/' !in v
    ensures PhpField(map["X-Powered-By" := "PHP/" + v]) == Some(v)
  {
    var h := "PHP/" + v;
    SplitWithout(h, ',');
    assert h == "PHP" + ['/'] + v;
    SplitAtFirst("PHP", '/', v);
    SplitWithout(v, '/');
  }

  /** PHP 5.x is classified by comparing the minor part with "2" as strings. */
  lemma PhpFiveByMinor(headers: map<string, string>, minor: string, more: string)
    requires PhpField(headers) == Some("5." + minor + more)
    requires '.' !in minor && (more == "" || more[0] == '.')
    ensures FindVersionByPhp(headers) ==
      Returned([Signal(true, if StrLe(minor, "2") then "3.2 or higher" else "5 or higher")])
  {
    var php := "5." + minor + more;
    assert php == "5" + ['.'] + (minor + more);
    SplitAtFirst("5", '.', minor + more);
    var rest := Split(minor + more, '.');
    if more == "" {
      assert minor + more == minor;
      SplitWithout(minor, '.');
    } else {
      assert minor + more == minor + ['.'] + more[1..];
      SplitAtFirst(minor, '.', more[1..]);
    }
    assert rest != [] && rest[0] == minor;
    var n := Split(php, '.');
    assert n == ["5"] + rest;
    assert php != "" && n[0] == "5" && n[0] != "7" && |n| >= 2 && n[1] == minor;
  }

  /** PHP 5.10 is taken for an old PHP: "10" <= "2" as strings. */
  lemma PhpFiveTenReadsAsOld(headers: map<string, string>, more: string)
    requires PhpField(headers) == Some("5.10" + more) && (more == "" || more[0] == '.')
    ensures FindVersionByPhp(headers) == Returned([Signal(true, "3.2 or higher")])
  {
    assert "5.10" + more == "5." + "10" + more;
    PhpFiveByMinor(headers, "10", more);
    assert StrLt("10", "2");
  }

  // ---------------------------------------------------------------------
  // Version extraction and validation

  /** Every character is a digit or a dot (the empty text passes). */
  predicate IsVersionText(v: string) {
    forall i :: 0 <= i < |v| ==> IsDigit(v[i]) || v[i] == '.'
  }

  /** The character-by-character check: a candidate with any other character degrades to the sentinel. */
  function CheckVersion(v: string): Signal {
    if IsVersionText(v) then Signal(true, v) else Unknown
  }

  const AdminMarker := "\"name=\"generator\" content=\"WordPress\""
  const AtomMarker := "wordpress.org/\" version=\""
  const RssMarker := "?v="
  const OpmlMarker := "generator=\"WordPress/"

  /** The feed candidate: after `AtomMarker` up to the next '"' for an atom
      url, otherwise after "?v=" up to the next '<'. */
  function FeedVersion(data: string, url: string): (v: Option<string>)
    ensures v.None? <==> !Contains(data, if Contains(url, "atom") then AtomMarker else RssMarker)
  {
    ContainsIffFound(data, AtomMarker);
    ContainsIffFound(data, RssMarker);
    if Contains(url, "atom") then
      var start := Find(data, AtomMarker, 0);
      if start != -1 then Some(Slice(data, start + 25, Find(data, "\"", start + 25))) else None
    else
      var start := Find(data, RssMarker, 0);
      if start != -1 then Some(Slice(data, start + 3, Find(data, "<", start))) else None
  }

  /** `__detect_version_logic`. None is what the program returns after
      catching an exception (in the OPML branch: index 1 of a split that has
      one piece). The page is read as one string; on the bytes the program
      is given, the wp-admin branch raises instead once the marker is found. */
  function DetectVersionLogic(data: string, url: string): (r: Option<Signal>)
    ensures r.None? ==> !Contains(url, "wp-admin") && !Contains(url, "feed") && Contains(url, "wp-links-opml") && Contains(data, OpmlMarker)
  {
    ContainsIffFound(data, OpmlMarker);
    if Contains(url, "wp-admin") then
      var start := Find(data, AdminMarker, 0);
      if start != -1 then Some(CheckVersion(Slice(data, start + 38, Find(data, "'", start))))
      else Some(NotDetected)
    else if Contains(url, "feed") then
      match FeedVersion(data, url)
      case Some(v) => Some(CheckVersion(v))
      case None => Some(NotDetected)
    else if Contains(url, "wp-links-opml") then
      var start := Find(data, OpmlMarker, 0);
      if start != -1 then
        var pieces := Split(Slice(data, start + 7, Find(data, "\"", start)), '\'');
        if |pieces| < 2 then None else Some(CheckVersion(pieces[1]))
      else Some(NotDetected)
    else Some(NotDetected)
  }

  /** A reported version other than the sentinel passed the character check. */
  lemma DetectedVersionsAreValidated(data: string, url: string)
    ensures DetectVersionLogic(data, url).Some? && DetectVersionLogic(data, url).value.text != Sentinel ==>
      DetectVersionLogic(data, url).value.flag && IsVersionText(DetectVersionLogic(data, url).value.text)
  {
  }

  /** A candidate with a character other than a digit or '.' is never reported. */
  lemma InvalidCandidateDegrades(v: string, i: nat)
    requires i < |v| && !IsDigit(v[i]) && v[i] != '.'
    ensures CheckVersion(v) == Unknown
  {
  }

  /** Atom feeds: the text between `wordpress.org/" version="` and the next '"'. */
  lemma {:induction false} AtomFeedExtracts(url: string, p: string, v: string, q: string)
    requires Contains(url, "feed") && Contains(url, "atom") && !Contains(url, "wp-admin")
    requires '"' !in v
    requires forall j :: 0 <= j < |p| ==> !OccursAt(p + AtomMarker + v + "\"" + q, AtomMarker, j)
    ensures DetectVersionLogic(p + AtomMarker + v + "\"" + q, url) == Some(CheckVersion(v))
  {
    var data := p + AtomMarker + v + "\"" + q;
    assert data[|p|..|p| + 25] == AtomMarker;
    OccursAtIsSlice(data, AtomMarker, |p|);
    FindExact(data, AtomMarker, 0, |p|);
    var e := |p| + 25 + |v|;
    assert data[e] == '"';
    forall j | |p| + 25 <= j < e ensures data[j] != '"' {
      assert data[j] == v[j - |p| - 25];
    }
    FindCharExact(data, '"', |p| + 25, e);
    assert data[|p| + 25..e] == v;
  }

  /** The example of an atom feed announcing 6.1. */
  lemma AtomFeedExample(data: string)
    requires data == AtomMarker + "6.1" + "\""
    ensures DetectVersionLogic(data, "/feed/atom") == Some(Signal(true, "6.1"))
  {
    AtomPathTests();
    assert IsVersionText("6.1");
    AtomFeedAlone("/feed/atom", "6.1", data);
  }

  /** A feed holding only the atom marker and a version. */
  lemma AtomFeedAlone(url: string, v: string, data: string)
    requires Contains(url, "feed") && Contains(url, "atom") && !Contains(url, "wp-admin")
    requires '"' !in v && data == AtomMarker + v + "\""
    ensures DetectVersionLogic(data, url) == Some(CheckVersion(v))
  {
    assert data == "" + AtomMarker + v + "\"" + "";
    AtomFeedExtracts(url, "", v, "");
  }

  /** RSS feeds: the text between "?v=" and the next '<'. */
  lemma {:induction false} RssFeedExtracts(url: string, p: string, v: string, q: string)
    requires Contains(url, "feed") && !Contains(url, "atom") && !Contains(url, "wp-admin")
    requires '<' !in v
    requires forall j :: 0 <= j < |p| ==> !OccursAt(p + RssMarker + v + "<" + q, RssMarker, j)
    ensures DetectVersionLogic(p + RssMarker + v + "<" + q, url) == Some(CheckVersion(v))
  {
    var data := p + RssMarker + v + "<" + q;
    assert data[|p|..|p| + 3] == RssMarker;
    OccursAtIsSlice(data, RssMarker, |p|);
    FindExact(data, RssMarker, 0, |p|);
    var e := |p| + 3 + |v|;
    assert data[e] == '<';
    forall j | |p| <= j < e ensures data[j] != '<' {
      if j < |p| + 3 {
        assert data[j] == RssMarker[j - |p|];
      } else {
        assert data[j] == v[j - |p| - 3];
      }
    }
    FindCharExact(data, '<', |p|, e);
    assert data[|p| + 3..e] == v;
  }

  /** A url naming wp-admin is judged by the generator marker alone, whatever feed markers the page has. */
  lemma AdminTestComesFirst(data: string, url: string)
    requires Contains(url, "wp-admin") && Find(data, AdminMarker, 0) == -1
    ensures DetectVersionLogic(data, url) == Some(NotDetected)
  {
  }

  /** Every url naming wp-admin reads a page the same way, whatever else it
      names (feed, atom, wp-links-opml): the admin test comes first and the
      rest of the url is never looked at. */
  lemma AdminJudgedByPageAlone(data: string, url: string, other: string)
    requires Contains(url, "wp-admin") && Contains(other, "wp-admin")
    ensures DetectVersionLogic(data, url) == DetectVersionLogic(data, other)
    ensures DetectVersionLogic(data, url).Some?
  {
  }

  /** On a wp-admin url the version is read from one character past the
      generator marker up to the next apostrophe. This is the reading of the
      page as one string: on bytes, `find` with a `str` argument raises. */
  lemma AdminMarkerExtracts(url: string, p: string, c: char, v: string, q: string)
    requires Contains(url, "wp-admin")
    requires c != '\'' && '\'' !in v
    requires forall j :: 0 <= j < |p| ==> !OccursAt(p + AdminMarker + [c] + v + "'" + q, AdminMarker, j)
    ensures DetectVersionLogic(p + AdminMarker + [c] + v + "'" + q, url) == Some(CheckVersion(v))
  {
    assert '\'' !in AdminMarker;
    MarkerThenStop(p, AdminMarker, c, v, '\'', q);
  }


  /** A url naming none of wp-admin, feed and wp-links-opml yields no version. */
  lemma UnrecognisedUrlYieldsNothing(data: string, url: string)
    requires !Contains(url, "wp-admin") && !Contains(url, "feed") && !Contains(url, "wp-links-opml")
    ensures DetectVersionLogic(data, url) == Some(NotDetected)
  {
  }

  /** With the page as one string the OPML extraction cannot succeed: the
      next '"' after the marker is its own, so the slice is always "or=",
      which has no quote to split on. */
  lemma OpmlMarkerYieldsNone(data: string, url: string)
    requires Contains(url, "wp-links-opml") && !Contains(url, "wp-admin") && !Contains(url, "feed")
    requires Find(data, OpmlMarker, 0) != -1
    ensures DetectVersionLogic(data, url).None?
  {
    OpmlSliceHasOnePiece(data, Find(data, OpmlMarker, 0));
  }

  /** The version logic gives None exactly on an opml url (naming neither
      wp-admin nor feed) whose page holds the OPML marker. */
  lemma VersionLogicFailsOnlyOnOpml(data: string, url: string)
    ensures DetectVersionLogic(data, url).None? <==>
      !Contains(url, "wp-admin") && !Contains(url, "feed") && Contains(url, "wp-links-opml") && Contains(data, OpmlMarker)
  {
    ContainsIffFound(data, OpmlMarker);
    if !Contains(url, "wp-admin") && !Contains(url, "feed") && Contains(url, "wp-links-opml") && Contains(data, OpmlMarker) {
      OpmlMarkerYieldsNone(data, url);
    }
  }

  /** The slice taken after an OPML marker at `s` splits into a single piece. */
  lemma OpmlSliceHasOnePiece(data: string, s: int)
    requires s == Find(data, OpmlMarker, 0) && s != -1
    ensures |Split(Slice(data, s + 7, Find(data, "\"", s)), '\'')| < 2
  {
    assert OpmlMarker[..11] == "generator=\"";
    assert forall j :: 0 <= j < 10 ==> OpmlMarker[j] != '"' by {
      forall j | 0 <= j < 10 ensures OpmlMarker[j] != '"' {
        assert OpmlMarker[j] == OpmlMarker[..11][j];
      }
    }
    MarkerSliceHasOnePiece(data, OpmlMarker, s);
  }

  /** After a marker whose first quote is at offset 10, and with no apostrophe
      at offsets 7 to 9, the slice from offset 7 to that quote has no apostrophe. */
  lemma MarkerSliceHasOnePiece(data: string, marker: string, s: int)
    requires s == Find(data, marker, 0) && s != -1
    requires |marker| > 10 && marker[10] == '"' && forall j :: 0 <= j < 10 ==> marker[j] != '"'
    requires marker[7] != '\'' && marker[8] != '\'' && marker[9] != '\''
    ensures |Split(Slice(data, s + 7, Find(data, "\"", s)), '\'')| < 2
  {
    OccursAtBounded(data, marker, s);
    var m := data[s..s + |marker|];
    forall j | s <= j < s + 10 ensures data[j] != '"' {
      assert data[j] == m[j - s];
    }
    assert data[s + 10] == m[10];
    FindCharExact(data, '"', s, s + 10);
    var v := Slice(data, s + 7, s + 10);
    assert v == [m[7], m[8], m[9]];
    SplitWithout(v, '\'');
  }

  // ---------------------------------------------------------------------
  // Keyword heuristics

  function Indicator(b: bool): nat {
    if b then 1 else 0
  }

  /** The no-URL check's count, in the program's order; only "wordpress" is matched after lowering. */
  function NoUrlKeywordCount(body: string): nat {
    Indicator(Contains(body, "wp-content")) + Indicator(Contains(Lower(body), "wordpress")) +
    Indicator(Contains(body, "wp-admin")) + Indicator(Contains(body, "wp-includes")) +
    Indicator(Contains(body, "wp-json"))
  }

  const Keywords: seq<string> := ["wp-content", "wordpress", "wp-admin", "wp-includes", "wp-json"]

  predicate KeywordPresent(body: string, k: string) {
    if k == "wordpress" then Contains(Lower(body), k) else Contains(body, k)
  }

  /** How many of `ks` the page has. */
  function CountPresent(body: string, ks: seq<string>): (n: nat)
    ensures n <= |ks|
    decreases |ks|
  {
    if ks == [] then 0 else Indicator(KeywordPresent(body, ks[0])) + CountPresent(body, ks[1..])
  }

  /** The no-URL flag is "at least three of the five keywords", the bound 5 never binding. */
  lemma KeywordFlagIsMajority(body: string)
    ensures NoUrlKeywordCount(body) == CountPresent(body, Keywords)
    ensures (3 <= NoUrlKeywordCount(body) <= 5) <==> CountPresent(body, Keywords) >= 3
  {
    var ks := Keywords;
    assert ks[1..][1..][1..][1..][1..] == [];
  }

  /** The wp-admin branch's count: wp-content and (case-sensitive) wordpress share one point. */
  function AdminKeywordCount(body: string): nat {
    Indicator(Contains(body, "wp-content") || Contains(body, "wordpress")) +
    Indicator(Contains(body, "wp-admin")) + Indicator(Contains(body, "wp-includes")) +
    Indicator(Contains(body, "wp-json"))
  }

  /** The wp-admin count never exceeds four, so its flag needs three of the four groups. */
  lemma AdminCountAtMostFour(body: string)
    ensures AdminKeywordCount(body) <= 4
    ensures (3 <= AdminKeywordCount(body) <= 5) <==> AdminKeywordCount(body) >= 3
  {
  }

  /** The license.txt check: how many of three passages of the WordPress license the page has. */
  function LicenceCount(body: string): nat {
    Indicator(Contains(body, LicenceHeading)) + Indicator(Contains(body, LicenceGpl)) +
    Indicator(Contains(body, LicenceSourceStart) && Contains(body, LicenceSourceEnd))
  }

  const LicenceHeading := "WordPress - Web publishing software"
  const LicenceGpl := "WordPress is released under the GPL"
  const LicenceSourceStart := "The source code for any program binaries or compressed scripts that are"
  const LicenceSourceEnd := "included with WordPress can be freely obtained at the following URL:"
  const LogoFile := "wordpress-logo.png"

  const RobotsPaths: seq<string> := ["wp-admin", "WP rules", "wordpress rules", "wp-includes", "/feed", "wp-content"]

  /** One positive signal per robots.txt path the page mentions, in list order. */
  function RobotsHits(body: string, paths: seq<string>): (r: seq<Option<Signal>>)
    ensures |r| <= |paths| && forall i :: 0 <= i < |r| ==> r[i] == Some(Unknown)
    decreases |paths|
  {
    if paths == [] then []
    else (if Contains(body, paths[0]) then [Some(Unknown)] else []) + RobotsHits(body, paths[1..])
  }

  function LogoHit(body: string): seq<Option<Signal>> {
    if Contains(body, LogoFile) then [Some(Unknown)] else []
  }

  /** The resource check: one positive signal per `<script>`, then per
      `<img>`, whose src mentions wp-content. A page that does not parse
      gives none. */
  predicate WpResource(e: Element, tag: string) {
    e.tag == tag && AttrTruthy(e, "src") && Contains(e.attrs["src"], "wp-content")
  }

  function TagHits(els: seq<Element>, tag: string): (r: seq<Signal>)
    ensures |r| <= |els| && forall i :: 0 <= i < |r| ==> r[i] == Unknown
    decreases |els|
  {
    if els == [] then []
    else (if WpResource(els[0], tag) then [Unknown] else []) + TagHits(els[1..], tag)
  }

  /** A tag yields a signal exactly when some element of it has a non-empty
      src mentioning wp-content. */
  lemma {:induction false} TagHitsFindResource(els: seq<Element>, tag: string)
    ensures TagHits(els, tag) != [] <==> exists i :: 0 <= i < |els| && WpResource(els[i], tag)
    decreases |els|
  {
    if els != [] {
      TagHitsFindResource(els[1..], tag);
      if exists i :: 0 <= i < |els| && WpResource(els[i], tag) {
        var i :| 0 <= i < |els| && WpResource(els[i], tag);
        if i > 0 {
          assert els[1..][i - 1] == els[i];
        }
      }
      if exists i :: 0 <= i < |els| - 1 && WpResource(els[1..][i], tag) {
        var i :| 0 <= i < |els| - 1 && WpResource(els[1..][i], tag);
        assert els[i + 1] == els[1..][i];
      }
    }
  }

  function ResourceSignals(elements: Option<seq<Element>>): (r: seq<Signal>)
    ensures elements.None? ==> r == []
    ensures forall i :: 0 <= i < |r| ==> r[i] == Unknown
  {
    match elements
    case None => []
    case Some(els) => TagHits(els, "script") + TagHits(els, "img")
  }

  /** A parsed page gives a resource signal exactly when one of its scripts
      or images has a src mentioning wp-content. */
  lemma ResourceSignalsFindResource(els: seq<Element>)
    ensures ResourceSignals(Some(els)) != [] <==>
      exists i :: 0 <= i < |els| && (WpResource(els[i], "script") || WpResource(els[i], "img"))
  {
    TagHitsFindResource(els, "script");
    TagHitsFindResource(els, "img");
  }

  function Wrap(s: seq<Signal>): (r: seq<Option<Signal>>)
    ensures |r| == |s| && forall i :: 0 <= i < |s| ==> r[i] == Some(s[i])
  {
    seq(|s|, i requires 0 <= i < |s| => Some(s[i]))
  }

  // ---------------------------------------------------------------------
  // Reducing a signal list

  /** Every entry is a signal rather than None. */
  predicate AllPresent(items: seq<Option<Signal>>) {
    forall i :: 0 <= i < |items| ==> items[i].Some?
  }

  function Present(items: seq<Option<Signal>>): (r: seq<Signal>)
    requires AllPresent(items)
    ensures |r| == |items| && forall i :: 0 <= i < |items| ==> r[i] == items[i].value
  {
    seq(|items|, i requires 0 <= i < |items| => items[i].value)
  }

  /** The positive signals, in order. */
  function Positives(s: seq<Signal>): (r: seq<Signal>)
    ensures |r| <= |s| && forall x :: x in r ==> x in s && x.flag
    decreases |s|
  {
    if s == [] then []
    else Positives(s[..|s| - 1]) + (if s[|s| - 1].flag then [s[|s| - 1]] else [])
  }

  /** A signal whose text names an actual version: no "version" in it. */
  predicate Concrete(x: Signal) {
    !Contains(x.text, "version")
  }

  /** The first signal whose text does not contain "version". */
  function FirstConcrete(s: seq<Signal>): (r: Option<Signal>)
    ensures r.Some? ==> r.value in s && Concrete(r.value)
    ensures r.None? ==> forall x :: x in s ==> !Concrete(x)
    decreases |s|
  {
    if s == [] then None
    else if Concrete(s[0]) then Some(s[0])
    else FirstConcrete(s[1..])
  }

  /** `FirstConcrete` picks the earliest concrete signal. */
  lemma {:induction false} FirstConcreteIsFirst(s: seq<Signal>, k: nat)
    requires FirstConcrete(s).Some?
    ensures exists k :: 0 <= k < |s| && s[k] == FirstConcrete(s).value && forall j :: 0 <= j < k ==> !Concrete(s[j])
    decreases |s|
  {
    if !Concrete(s[0]) {
      FirstConcreteIsFirst(s[1..], 0);
      var k :| 0 <= k < |s[1..]| && s[1..][k] == FirstConcrete(s[1..]).value && forall j :: 0 <= j < k ==> !Concrete(s[1..][j]);
      assert s[k + 1] == FirstConcrete(s).value;
      assert forall j :: 0 <= j < k + 1 ==> !Concrete(s[j]) by {
        forall j | 0 <= j < k + 1 ensures !Concrete(s[j]) {
          if j > 0 { assert s[j] == s[1..][j - 1]; }
        }
      }
    } else {
      assert s[0] == FirstConcrete(s).value;
    }
  }

  /** The reduction at the end of `is_wordpress`, on a list without None:
      with two or more positive signals, the first positive one that names
      a version, else "detected, version unknown"; otherwise not detected. */
  function Verdict(signals: seq<Signal>): Signal {
    var pos := Positives(signals);
    if |pos| > 1 then
      match FirstConcrete(pos)
      case Some(x) => x
      case None => Unknown
    else NotDetected
  }

  /** The reduction on the whole list: Python stops with a TypeError at the
      first None entry, which the detector turns into no answer. */
  function ReduceSpec(items: seq<Option<Signal>>): Option<Signal> {
    if AllPresent(items) then Some(Verdict(Present(items))) else None
  }

  /** The flag is set exactly when at least two positive signals exist. */
  lemma VerdictNeedsTwoPositives(signals: seq<Signal>)
    ensures Verdict(signals).flag <==> |Positives(signals)| >= 2
    ensures |Positives(signals)| < 2 ==> Verdict(signals) == NotDetected
  {
  }

  /** With two or more positives the answer is the first positive signal naming a version, if any. */
  lemma VerdictPrefersFirstConcrete(signals: seq<Signal>)
    requires |Positives(signals)| >= 2
    ensures Verdict(signals) == (if FirstConcrete(Positives(signals)).Some? then FirstConcrete(Positives(signals)).value else Unknown)
    ensures Verdict(signals).text != Sentinel ==> Verdict(signals) in signals && Verdict(signals).flag && Concrete(Verdict(signals))
  {
  }

  /** A single positive signal, however specific, yields "not detected". */
  lemma SinglePositiveIsNotDetected(x: Signal, others: seq<Signal>)
    requires x.flag && forall y :: y in others ==> !y.flag
    ensures Verdict([x] + others) == NotDetected
  {
    assert Positives([x] + others) == [x] by { PositivesOneFlag(x, others); }
  }

  lemma {:induction false} PositivesOneFlag(x: Signal, others: seq<Signal>)
    requires x.flag && forall y :: y in others ==> !y.flag
    ensures Positives([x] + others) == [x]
    decreases |others|
  {
    if others != [] {
      var s := [x] + others;
      assert s[..|s| - 1] == [x] + others[..|others| - 1];
      PositivesOneFlag(x, others[..|others| - 1]);
    }
  }

  /** A concrete positive signal beats an ambiguous one listed after it. */
  lemma ConcreteBeatsAmbiguous()
    ensures Verdict([Signal(true, "4.9"), Unknown]) == Signal(true, "4.9")
  {
    var s := [Signal(true, "4.9"), Unknown];
    assert s[..1] == [Signal(true, "4.9")];
    assert s[..1][..0] == [];
    assert Positives(s) == s;
    assert !Contains("4.9", "version");
  }

  /** A list with a None entry gives no answer, wherever it stands. */
  lemma NoneEntrySpoilsReduction(items: seq<Option<Signal>>, i: nat)
    requires i < |items| && items[i].None?
    ensures ReduceSpec(items).None?
  {
  }

  lemma PositivesSnoc(s: seq<Signal>, x: Signal)
    ensures Positives(s + [x]) == Positives(s) + (if x.flag then [x] else [])
  {
    assert (s + [x])[..|s|] == s;
  }

  lemma PresentSnoc(items: seq<Option<Signal>>, i: nat)
    requires i < |items| && AllPresent(items[..i + 1])
    ensures AllPresent(items[..i]) && Present(items[..i + 1]) == Present(items[..i]) + [items[i].value]
  {
    assert items[..i + 1][..i] == items[..i];
  }

  /** The first loop of both reductions: the positive entries in order; a
      None entry stops it (Python raises on indexing None). */
  method CollectPositives(items: seq<Option<Signal>>) returns (ok: bool, possible: seq<Signal>)
    ensures ok == AllPresent(items)
    ensures ok ==> possible == Positives(Present(items))
  {
    possible := [];
    for i := 0 to |items|
      invariant AllPresent(items[..i])
      invariant possible == Positives(Present(items[..i]))
    {
      if items[i].None? {
        return false, possible;
      }
      PresentSnoc(items, i);
      PositivesSnoc(Present(items[..i]), items[i].value);
      if items[i].value.flag {
        possible := possible + [items[i].value];
      }
    }
    assert items[..|items|] == items;
    return true, possible;
  }

  /** `FirstConcrete` from position `i`: the signal there if concrete, otherwise the rest. */
  lemma FirstConcreteStep(s: seq<Signal>, i: nat)
    requires i < |s|
    ensures FirstConcrete(s[i..]) == if Concrete(s[i]) then Some(s[i]) else FirstConcrete(s[i + 1..])
  {
    assert s[i..][1..] == s[i + 1..];
  }

  /** The two loops at the end of `is_wordpress`: collect the positive
      entries (a None entry raises), then return the first one that names a
      version when there are two or more. */
  method Reduce(items: seq<Option<Signal>>) returns (r: Option<Signal>)
    ensures r == ReduceSpec(items)
  {
    var ok, possible := CollectPositives(items);
    if !ok {
      return None;
    }
    var isWordPress := false;
    for i := 0 to |possible|
      invariant isWordPress == (i > 0)
      invariant |possible| > 1 ==> FirstConcrete(possible) == FirstConcrete(possible[i..])
    {
      FirstConcreteStep(possible, i);
      if possible[i].flag {
        isWordPress := true;
      }
      if Concrete(possible[i]) && |possible| > 1 {
        return Some(possible[i]);
      }
    }
    assert possible[|possible|..] == [];
    if isWordPress && |possible| > 1 {
      return Some(Unknown);
    }
    return Some(NotDetected);
  }

  // ---------------------------------------------------------------------
  // Fetching a candidate path

  /** A path is requested over https, and over http when that fails. */
  function FetchEither(site: Site, domain: string, path: string): Probed<Option<Response>> {
    var https := "https://" + domain + path;
    match site.Fetch(https)
    case Some(r) => Probed(Some(r), [https])
    case None => Probed(site.Fetch("http://" + domain + path), [https, "http://" + domain + path])
  }

  // ---------------------------------------------------------------------
  // `__get_version_standalone`

  /** Entries already gathered, followed by the outcome of the remaining probes. */
  function Resume(found: seq<Option<Signal>>, log: seq<string>, rest: Probed<Outcome<seq<Option<Signal>>>>): Probed<Outcome<seq<Option<Signal>>>> {
    Probed(match rest.value case Raised => Raised case Returned(items) => Returned(found + items), log + rest.log)
  }

  /** Fetch the version-detectable paths in order, running the version
      logic on each; a path that fails over both schemes raises (its body is
      read from None). */
  function StandaloneProbe(site: Site, domain: string, urls: seq<string>): Probed<Outcome<seq<Option<Signal>>>>
    decreases |urls|
  {
    if urls == [] then Probed(Returned([]), [])
    else
      var f := FetchEither(site, domain, urls[0]);
      match f.value
      case None => Probed(Raised, f.log)
      case Some(r) => Resume([DetectVersionLogic(r.body, urls[0])], f.log, StandaloneProbe(site, domain, urls[1..]))
  }

  /** The first positive outcome naming a version, else the last positive one, else None. */
  function StandalonePick(pos: seq<Signal>): Option<Signal> {
    match FirstConcrete(pos)
    case Some(x) => Some(x)
    case None => if pos == [] then None else Some(pos[|pos| - 1])
  }

  function StandaloneSpec(site: Site, domain: string): Probed<Option<Signal>> {
    var p := StandaloneProbe(site, domain, VersionDetectableUrls);
    match p.value
    case Raised => Probed(None, p.log)
    case Returned(items) =>
      if AllPresent(items) then Probed(StandalonePick(Positives(Present(items))), p.log)
      else Probed(None, p.log)
  }

  /** What the standalone probe can answer: None when a path fails, an
      outcome is None or no outcome is positive; otherwise one of the
      positive outcomes, which names a version unless none of them does. */
  lemma StandaloneAnswersPositively(site: Site, domain: string)
    ensures var p := StandaloneProbe(site, domain, VersionDetectableUrls); var a := StandaloneSpec(site, domain).value;
      a.None? <==> (p.value.Raised? || !AllPresent(p.value.value) || Positives(Present(p.value.value)) == [])
    ensures var p := StandaloneProbe(site, domain, VersionDetectableUrls); var a := StandaloneSpec(site, domain).value;
      a.Some? ==>
        (p.value.Returned? && AllPresent(p.value.value) && a.value.flag &&
         a.value in Positives(Present(p.value.value)) &&
         (Concrete(a.value) || forall x :: x in Positives(Present(p.value.value)) ==> !Concrete(x)))
  {
    var p := StandaloneProbe(site, domain, VersionDetectableUrls);
    if p.value.Returned? && AllPresent(p.value.value) {
      var pos := Positives(Present(p.value.value));
      if pos != [] {
        assert pos[|pos| - 1] in pos;
      }
    }
  }

  /** One step of the standalone fetch loop, on the gathered entries. */
  lemma StandaloneStep(site: Site, domain: string, urls: seq<string>, i: nat, found: seq<Option<Signal>>, log: seq<string>)
    requires i < |urls|
    ensures var f := FetchEither(site, domain, urls[i]);
      Resume(found, log, StandaloneProbe(site, domain, urls[i..])) ==
        if f.value.None? then Probed(Raised, log + f.log)
        else Resume(found + [DetectVersionLogic(f.value.value.body, urls[i])], log + f.log, StandaloneProbe(site, domain, urls[i + 1..]))
  {
    assert urls[i..][1..] == urls[i + 1..];
    var f := FetchEither(site, domain, urls[i]);
    if f.value.Some? {
      var rest := StandaloneProbe(site, domain, urls[i + 1..]);
      var entry := DetectVersionLogic(f.value.value.body, urls[i]);
      AppendAssoc(log, f.log, rest.log);
      match rest.value
      case Raised =>
      case Returned(v) => AppendAssoc(found, [entry], v);
    }
  }

  /** The fetch loop of `__get_version_standalone`, over the paths `urls`. */
  method StandaloneFetch(site: Site, domain: string, urls: seq<string>) returns (items: Outcome<seq<Option<Signal>>>, log: seq<string>)
    ensures Probed(items, log) == StandaloneProbe(site, domain, urls)
  {
    var found: seq<Option<Signal>> := [];
    log := [];
    assert urls[0..] == urls;
    assert Resume(found, log, StandaloneProbe(site, domain, urls)) == StandaloneProbe(site, domain, urls) by {
      match StandaloneProbe(site, domain, urls).value
      case Raised =>
      case Returned(v) => assert found + v == v;
    }
    for i := 0 to |urls|
      invariant StandaloneProbe(site, domain, urls) == Resume(found, log, StandaloneProbe(site, domain, urls[i..]))
    {
      StandaloneStep(site, domain, urls, i, found, log);
      var f := FetchEither(site, domain, urls[i]);
      if f.value.None? {
        return Raised, log + f.log;
      }
      log := log + f.log;
      found := found + [DetectVersionLogic(f.value.value.body, urls[i])];
    }
    assert urls[|urls|..] == [];
    assert found + [] == found;
    return Returned(found), log;
  }

  /** `__get_version_standalone`: fetch, collect the positive outcomes, pick one. */
  method Standalone(site: Site, domain: string) returns (r: Option<Signal>, log: seq<string>)
    ensures Probed(r, log) == StandaloneSpec(site, domain)
  {
    var items;
    items, log := StandaloneFetch(site, domain, VersionDetectableUrls);
    if items.Raised? {
      return None, log;
    }
    var ok, possible := CollectPositives(items.value);
    if !ok {
      return None, log;
    }
    var outcome: Option<Signal> := None;
    for i := 0 to |possible|
      invariant outcome == if i == 0 then None else Some(possible[i - 1])
      invariant FirstConcrete(possible) == FirstConcrete(possible[i..])
    {
      outcome := Some(possible[i]);
      if !Contains(possible[i].text, "version") {
        return outcome, log;
      }
      assert possible[i..][1..] == possible[i + 1..];
    }
    return outcome, log;
  }

  // ---------------------------------------------------------------------
  // `get_version`

  /** `get_version`: an empty page (or url) sends the detector to the
      standalone probe; otherwise the version logic reads the page. (Its
      second test, "neither page nor url", can never be reached.) */
  function GetVersionSpec(site: Site, domain: string, data: string, url: string): Probed<Option<Signal>> {
    if data == [] || url == [] then StandaloneSpec(site, domain)
    else Probed(DetectVersionLogic(data, url), [])
  }

  method GetVersion(site: Site, domain: string, data: string, url: string) returns (r: Option<Signal>, log: seq<string>)
    ensures Probed(r, log) == GetVersionSpec(site, domain, data, url)
  {
    if data == [] || url == [] {
      r, log := Standalone(site, domain);
    } else {
      r, log := DetectVersionLogic(data, url), [];
    }
  }

  // ---------------------------------------------------------------------
  // One candidate path of `is_wordpress`

  /** Concatenation of probing steps: values and requests in order. */
  function Then(a: Probed<seq<Option<Signal>>>, b: Probed<seq<Option<Signal>>>): Probed<seq<Option<Signal>>> {
    Probed(a.value + b.value, a.log + b.log)
  }

  /** The version logic's one entry, as a probing step. */
  function VersionEntry(site: Site, domain: string, data: string, url: string): Probed<seq<Option<Signal>>> {
    var v := GetVersionSpec(site, domain, data, url);
    Probed([v.value], v.log)
  }

  function Nothing(): Probed<seq<Option<Signal>>> {
    Probed([], [])
  }

  /** license.txt: with 200 and two or three licence passages, the version logic on the page. */
  function LicenceStep(site: Site, domain: string, url: string, r: Response): Probed<seq<Option<Signal>>> {
    if Contains(url, "licence") && Accepted(r.status) && 2 <= LicenceCount(r.body) <= 3
    then VersionEntry(site, domain, r.body, url) else Nothing()
  }

  /** readme.html: with 200 under a readme URL, the logo signal (if any) and one negative signal. */
  function ReadmeStep(url: string, r: Response): Probed<seq<Option<Signal>>> {
    if Contains(url, "readme") && Accepted(r.status) && Contains(r.url, "readme")
    then Probed(LogoHit(r.body) + [Some(NotDetected)], []) else Nothing()
  }

  /** A feed: with 200 under a feed URL, the version logic on the page. */
  function FeedStep(site: Site, domain: string, url: string, r: Response): Probed<seq<Option<Signal>>> {
    if Contains(url, "feed") && Accepted(r.status) && Contains(r.url, "feed")
    then VersionEntry(site, domain, r.body, url) else Nothing()
  }

  /** wp-links-opml: the version logic on the page, whatever the status. */
  function OpmlStep(site: Site, domain: string, url: string, r: Response): Probed<seq<Option<Signal>>> {
    if Contains(url, "wp-links-opml") && Contains(r.url, "wp-links-opml")
    then VersionEntry(site, domain, r.body, url) else Nothing()
  }

  /** upgrade.php: the logo signal (if any) and one negative signal, whatever the status. */
  function UpgradeStep(url: string, r: Response): Probed<seq<Option<Signal>>> {
    if Contains(url, "upgrade") && Contains(r.url, "upgrade")
    then Probed(LogoHit(r.body) + [Some(NotDetected)], []) else Nothing()
  }

  /** Any url naming admin: a positive signal for three or more keyword
      groups, then always the version logic run as for wp-admin. */
  function AdminStep(site: Site, domain: string, url: string, r: Response): Probed<seq<Option<Signal>>> {
    if Contains(url, "admin")
    then Then(Probed(if 3 <= AdminKeywordCount(r.body) <= 5 then [Some(Unknown)] else [], []),
              VersionEntry(site, domain, r.body, url + "/wp-admin"))
    else Nothing()
  }

  /** robots.txt: one positive signal per path mentioned, then one negative signal. */
  function RobotsStep(url: string, r: Response): Probed<seq<Option<Signal>>> {
    if Contains(url, "robots") then Probed(RobotsHits(r.body, RobotsPaths) + [Some(NotDetected)], []) else Nothing()
  }

  /** The signals the loop body of `is_wordpress` appends for the candidate
      path `url` answered by `r`. Every test stands on its own, so one path
      can feed several branches (the upgrade page also runs the admin one). */
  function UrlSignals(site: Site, domain: string, url: string, r: Response): Probed<seq<Option<Signal>>> {
    Then(Then(Then(Then(Then(Then(
      LicenceStep(site, domain, url, r), ReadmeStep(url, r)), FeedStep(site, domain, url, r)),
      OpmlStep(site, domain, url, r)), UpgradeStep(url, r)), AdminStep(site, domain, url, r)),
      RobotsStep(url, r))
  }

  method LicenceCheck(site: Site, domain: string, url: string, r: Response) returns (signals: seq<Option<Signal>>, log: seq<string>)
    ensures Probed(signals, log) == LicenceStep(site, domain, url, r)
  {
    signals, log := [], [];
    if Contains(url, "licence") {
      if Accepted(r.status) && 2 <= LicenceCount(r.body) <= 3 {
        var v;
        v, log := GetVersion(site, domain, r.body, url);
        signals := [v];
      }
    }
  }

  method ReadmeCheck(url: string, r: Response) returns (signals: seq<Option<Signal>>)
    ensures Probed(signals, []) == ReadmeStep(url, r)
  {
    signals := [];
    if Contains(url, "readme") {
      if Accepted(r.status) && Contains(r.url, "readme") {
        if Contains(r.body, LogoFile) {
          signals := signals + [Some(Unknown)];
        }
        signals := signals + [Some(NotDetected)];
        assert signals == LogoHit(r.body) + [Some(NotDetected)];
      }
    }
  }

  method FeedCheck(site: Site, domain: string, url: string, r: Response) returns (signals: seq<Option<Signal>>, log: seq<string>)
    ensures Probed(signals, log) == FeedStep(site, domain, url, r)
  {
    signals, log := [], [];
    if Contains(url, "feed") {
      if Accepted(r.status) && Contains(r.url, "feed") {
        var v;
        v, log := GetVersion(site, domain, r.body, url);
        signals := [v];
      }
    }
  }

  method OpmlCheck(site: Site, domain: string, url: string, r: Response) returns (signals: seq<Option<Signal>>, log: seq<string>)
    ensures Probed(signals, log) == OpmlStep(site, domain, url, r)
  {
    signals, log := [], [];
    if Contains(url, "wp-links-opml") && Contains(r.url, "wp-links-opml") {
      var v;
      v, log := GetVersion(site, domain, r.body, url);
      signals := [v];
    }
  }

  method UpgradeCheck(url: string, r: Response) returns (signals: seq<Option<Signal>>)
    ensures Probed(signals, []) == UpgradeStep(url, r)
  {
    signals := [];
    if Contains(url, "upgrade") && Contains(r.url, "upgrade") {
      if Contains(r.body, LogoFile) {
        signals := signals + [Some(Unknown)];
      }
      signals := signals + [Some(NotDetected)];
      assert signals == LogoHit(r.body) + [Some(NotDetected)];
    }
  }

  /** The keyword count of the wp-admin branch. */
  method AdminCount(body: string) returns (count: nat)
    ensures count == AdminKeywordCount(body)
  {
    count := 0;
    if Contains(body, "wp-content") {
      count := count + 1;
    } else if Contains(body, "wordpress") {
      count := count + 1;
    }
    if Contains(body, "wp-admin") {
      count := count + 1;
    }
    if Contains(body, "wp-includes") {
      count := count + 1;
    }
    if Contains(body, "wp-json") {
      count := count + 1;
    }
  }

  method AdminCheck(site: Site, domain: string, url: string, r: Response) returns (signals: seq<Option<Signal>>, log: seq<string>)
    ensures Probed(signals, log) == AdminStep(site, domain, url, r)
  {
    signals, log := [], [];
    if Contains(url, "admin") {
      var count := AdminCount(r.body);
      if 5 >= count >= 3 {
        signals := [Some(Unknown)];
      }
      ghost var hit := Probed(signals, []);
      var v;
      v, log := GetVersion(site, domain, r.body, url + "/wp-admin");
      assert Probed([v], log) == VersionEntry(site, domain, r.body, url + "/wp-admin");
      signals := signals + [v];
      assert Then(hit, Probed([v], log)) == Probed(signals, log);
    }
  }

  /** One positive signal per path of `paths` the page mentions. */
  method PathHits(body: string, paths: seq<string>) returns (hits: seq<Option<Signal>>)
    ensures hits == RobotsHits(body, paths)
  {
    hits := [];
    assert paths[0..] == paths;
    for k := 0 to |paths|
      invariant hits + RobotsHits(body, paths[k..]) == RobotsHits(body, paths)
    {
      assert paths[k..][1..] == paths[k + 1..];
      if Contains(body, paths[k]) {
        hits := hits + [Some(Unknown)];
      }
    }
    assert paths[|paths|..] == [];
    assert hits + [] == hits;
  }

  method RobotsCheck(url: string, r: Response) returns (signals: seq<Option<Signal>>)
    ensures Probed(signals, []) == RobotsStep(url, r)
  {
    signals := [];
    if Contains(url, "robots") {
      var hits := PathHits(r.body, RobotsPaths);
      signals := hits + [Some(NotDetected)];
    }
  }

  /** The loop body of `is_wordpress` for one candidate path, test by test. */
  method ProbeUrl(site: Site, domain: string, url: string, r: Response) returns (signals: seq<Option<Signal>>, log: seq<string>)
    ensures Probed(signals, log) == UrlSignals(site, domain, url, r)
  {
    var licence, l1 := LicenceCheck(site, domain, url, r);
    var readme := ReadmeCheck(url, r);
    var feed, l2 := FeedCheck(site, domain, url, r);
    var opml, l3 := OpmlCheck(site, domain, url, r);
    var upgrade := UpgradeCheck(url, r);
    var admin, l4 := AdminCheck(site, domain, url, r);
    var robots := RobotsCheck(url, r);
    signals := licence + readme + feed + opml + upgrade + admin + robots;
    log := l1 + l2 + l3 + l4;
    ghost var none: seq<string> := [];
    assert UrlSignals(site, domain, url, r) ==
      Then(Then(Then(Then(Then(Then(Probed(licence, l1), Probed(readme, none)), Probed(feed, l2)),
        Probed(opml, l3)), Probed(upgrade, none)), Probed(admin, l4)), Probed(robots, none));
    assert l1 + none == l1 && l1 + l2 + l3 + none == l1 + l2 + l3 && log + none == log;
  }

  /** The licence branch tests for "licence" and so never fires for the default "/license.txt". */
  lemma LicenceBranchNeverFiresForDefaults()
    ensures forall u :: u in DefaultUrls ==> !Contains(u, "licence")
  {
    forall u | u in DefaultUrls && u != LicensePath ensures !Contains(u, "licence") {
      AbsentChar(u, "licence", 2);
    }
    assert !Contains(LicensePath, "licence");
  }

  /** A url naming robots and none of the other tested words: one positive
      signal per robots path the page mentions, then one negative signal. */
  lemma RobotsAppendsOneNegative(site: Site, domain: string, url: string, r: Response)
    requires Contains(url, "robots")
    requires !Contains(url, "licence") && !Contains(url, "readme") && !Contains(url, "feed")
    requires !Contains(url, "wp-links-opml") && !Contains(url, "upgrade") && !Contains(url, "admin")
    ensures UrlSignals(site, domain, url, r) == Probed(RobotsHits(r.body, RobotsPaths) + [Some(NotDetected)], [])
  {
    var e: seq<Option<Signal>> := [];
    var none: seq<string> := [];
    assert LicenceStep(site, domain, url, r) == ReadmeStep(url, r) == FeedStep(site, domain, url, r) == Probed(e, none);
    assert OpmlStep(site, domain, url, r) == UpgradeStep(url, r) == AdminStep(site, domain, url, r) == Probed(e, none);
    var x := RobotsHits(r.body, RobotsPaths) + [Some(NotDetected)];
    assert RobotsStep(url, r) == Probed(x, none);
    assert e + e == e && e + x == x && none + none == none;
  }

  /** A url naming readme and none of the other tested words, answered with
      200 under a readme URL: the logo signal, if any, then one negative signal. */
  lemma ReadmeAppendsOneNegative(site: Site, domain: string, url: string, r: Response)
    requires Contains(url, "readme") && Accepted(r.status) && Contains(r.url, "readme")
    requires !Contains(url, "licence") && !Contains(url, "robots") && !Contains(url, "feed")
    requires !Contains(url, "wp-links-opml") && !Contains(url, "upgrade") && !Contains(url, "admin")
    ensures UrlSignals(site, domain, url, r) == Probed(LogoHit(r.body) + [Some(NotDetected)], [])
  {
    var e: seq<Option<Signal>> := [];
    var none: seq<string> := [];
    var x := LogoHit(r.body) + [Some(NotDetected)];
    assert LicenceStep(site, domain, url, r) == Probed(e, none);
    assert FeedStep(site, domain, url, r) == OpmlStep(site, domain, url, r) == UpgradeStep(url, r) == Probed(e, none);
    assert AdminStep(site, domain, url, r) == RobotsStep(url, r) == Probed(e, none);
    assert e + x == x && x + e == x && none + none == none;
  }

  /** A url naming feed and none of the other tested words adds the version
      logic's one entry when the answer is 200 under a feed URL, and nothing
      otherwise. */
  lemma FeedAppendsVersionEntry(site: Site, domain: string, url: string, r: Response)
    requires Contains(url, "feed")
    requires !Contains(url, "licence") && !Contains(url, "readme") && !Contains(url, "wp-links-opml")
    requires !Contains(url, "upgrade") && !Contains(url, "admin") && !Contains(url, "robots")
    ensures UrlSignals(site, domain, url, r) ==
      if Accepted(r.status) && Contains(r.url, "feed") then VersionEntry(site, domain, r.body, url) else Nothing()
    ensures |UrlSignals(site, domain, url, r).value| == if Accepted(r.status) && Contains(r.url, "feed") then 1 else 0
  {
    var z := Nothing();
    var x := FeedStep(site, domain, url, r);
    assert LicenceStep(site, domain, url, r) == ReadmeStep(url, r) == z;
    assert OpmlStep(site, domain, url, r) == UpgradeStep(url, r) == z;
    assert AdminStep(site, domain, url, r) == RobotsStep(url, r) == z;
    assert Then(z, z) == z by {
      assert z.value + z.value == z.value && z.log + z.log == z.log;
    }
    assert Then(z, x) == x by {
      assert z.value + x.value == x.value && z.log + x.log == x.log;
    }
    assert Then(x, z) == x by {
      assert x.value + z.value == x.value && x.log + z.log == x.log;
    }
  }

  /** A url naming wp-links-opml and none of the other tested words adds
      the version logic's one entry whenever the final URL still names
      wp-links-opml, whatever the status, and nothing otherwise. */
  lemma OpmlAppendsVersionEntry(site: Site, domain: string, url: string, r: Response)
    requires Contains(url, "wp-links-opml")
    requires !Contains(url, "licence") && !Contains(url, "readme") && !Contains(url, "feed")
    requires !Contains(url, "upgrade") && !Contains(url, "admin") && !Contains(url, "robots")
    ensures UrlSignals(site, domain, url, r) ==
      if Contains(r.url, "wp-links-opml") then VersionEntry(site, domain, r.body, url) else Nothing()
    ensures |UrlSignals(site, domain, url, r).value| == if Contains(r.url, "wp-links-opml") then 1 else 0
  {
    var z := Nothing();
    var x := OpmlStep(site, domain, url, r);
    assert LicenceStep(site, domain, url, r) == ReadmeStep(url, r) == z;
    assert FeedStep(site, domain, url, r) == UpgradeStep(url, r) == z;
    assert AdminStep(site, domain, url, r) == RobotsStep(url, r) == z;
    assert Then(z, z) == z by {
      assert z.value + z.value == z.value && z.log + z.log == z.log;
    }
    assert Then(z, x) == x by {
      assert z.value + x.value == x.value && z.log + x.log == x.log;
    }
    assert Then(x, z) == x by {
      assert x.value + z.value == x.value && x.log + z.log == x.log;
    }
  }

  /** The default feed paths take only the feed branch. */
  lemma DefaultFeedPathsAppendVersionEntry(site: Site, domain: string, r: Response)
    ensures UrlSignals(site, domain, RssPath, r) ==
      if Accepted(r.status) && Contains(r.url, "feed") then VersionEntry(site, domain, r.body, RssPath) else Nothing()
    ensures UrlSignals(site, domain, AtomPath, r) ==
      if Accepted(r.status) && Contains(r.url, "feed") then VersionEntry(site, domain, r.body, AtomPath) else Nothing()
  {
    RssPathTests();
    FeedAppendsVersionEntry(site, domain, RssPath, r);
    AtomPathTests();
    FeedAppendsVersionEntry(site, domain, AtomPath, r);
  }

  /** Only the licence, readme and feed branches read the status: any
      status but 200 silences them, and the other four branches add the
      same entries whatever the status. */
  lemma StatusGatesThreeBranches(site: Site, domain: string, url: string, r: Response, status: int)
    ensures var r2 := r.(status := status);
      OpmlStep(site, domain, url, r2) == OpmlStep(site, domain, url, r) && UpgradeStep(url, r2) == UpgradeStep(url, r) &&
      AdminStep(site, domain, url, r2) == AdminStep(site, domain, url, r) && RobotsStep(url, r2) == RobotsStep(url, r)
    ensures !Accepted(r.status) ==>
      LicenceStep(site, domain, url, r) == Nothing() && ReadmeStep(url, r) == Nothing() && FeedStep(site, domain, url, r) == Nothing()
  {
  }

  /** The default upgrade path runs both the upgrade branch and the admin
      branch: the logo signal and a negative signal when the final URL
      names upgrade, then the keyword signal, then the version logic as for
      wp-admin. */
  lemma DefaultUpgradePathRunsBothBranches(site: Site, domain: string, r: Response)
    ensures UrlSignals(site, domain, UpgradePath, r) == Then(UpgradeStep(UpgradePath, r), AdminStep(site, domain, UpgradePath, r))
    ensures UrlSignals(site, domain, UpgradePath, r).value ==
      (if Contains(r.url, "upgrade") then LogoHit(r.body) + [Some(NotDetected)] else []) +
      (if 3 <= AdminKeywordCount(r.body) <= 5 then [Some(Unknown)] else []) +
      [GetVersionSpec(site, domain, r.body, UpgradePath + "/wp-admin").value]
  {
    UpgradePathTests();
    TwoBranchesOnly(site, domain, UpgradePath, r);
    UpgradeThenAdminEntries(site, domain, UpgradePath, r);
  }

  /** A url naming upgrade and admin and none of the other tested words
      feeds exactly those two branches. */
  lemma TwoBranchesOnly(site: Site, domain: string, url: string, r: Response)
    requires Contains(url, "upgrade") && Contains(url, "admin")
    requires !Contains(url, "licence") && !Contains(url, "readme") && !Contains(url, "feed")
    requires !Contains(url, "wp-links-opml") && !Contains(url, "robots")
    ensures UrlSignals(site, domain, url, r) == Then(UpgradeStep(url, r), AdminStep(site, domain, url, r))
  {
    var z := Nothing();
    var up, ad := UpgradeStep(url, r), AdminStep(site, domain, url, r);
    assert LicenceStep(site, domain, url, r) == ReadmeStep(url, r) == FeedStep(site, domain, url, r) == z;
    assert OpmlStep(site, domain, url, r) == RobotsStep(url, r) == z;
    assert Then(z, z) == z by {
      assert z.value + z.value == z.value && z.log + z.log == z.log;
    }
    assert Then(z, up) == up by {
      assert z.value + up.value == up.value && z.log + up.log == up.log;
    }
    assert Then(Then(up, ad), z) == Then(up, ad) by {
      assert up.value + ad.value + z.value == up.value + ad.value && up.log + ad.log + z.log == up.log + ad.log;
    }
    assert up.log == [];
  }

  /** The entries of the upgrade branch followed by those of the admin branch. */
  lemma UpgradeThenAdminEntries(site: Site, domain: string, url: string, r: Response)
    requires Contains(url, "upgrade") && Contains(url, "admin")
    ensures Then(UpgradeStep(url, r), AdminStep(site, domain, url, r)).value ==
      (if Contains(r.url, "upgrade") then LogoHit(r.body) + [Some(NotDetected)] else []) +
      (if 3 <= AdminKeywordCount(r.body) <= 5 then [Some(Unknown)] else []) +
      [GetVersionSpec(site, domain, r.body, url + "/wp-admin").value]
  {
  }

  /** The default robots.txt path takes only the robots branch. */
  lemma DefaultRobotsPathAppendsOneNegative(site: Site, domain: string, r: Response)
    ensures UrlSignals(site, domain, RobotsPath, r) == Probed(RobotsHits(r.body, RobotsPaths) + [Some(NotDetected)], [])
  {
    RobotsPathTests();
    RobotsAppendsOneNegative(site, domain, RobotsPath, r);
  }

  /** The default readme path, answered with 200 under a readme URL, takes only the readme branch. */
  lemma DefaultReadmePathAppendsOneNegative(site: Site, domain: string, r: Response)
    requires Accepted(r.status) && Contains(r.url, "readme")
    ensures UrlSignals(site, domain, ReadmePath, r) == Probed(LogoHit(r.body) + [Some(NotDetected)], [])
  {
    ReadmePathTests();
    ReadmeAppendsOneNegative(site, domain, ReadmePath, r);
  }

  // ---------------------------------------------------------------------
  // `is_wordpress_no_url`

  const GeneratorLower := "name=\"generator\" content=\"wordpress\""

  /** `is_wordpress_no_url`: the home page over https. Its headers are read
      before the program checks for a failed request, so a failure raises
      (the http retry after that check is never reached). A non-200 answer
      adds one negative signal; otherwise the page is requested again (the
      model's fetcher answers as before) and the keyword count and the
      generator meta tag are consulted. */
  function NoUrlSpec(site: Site, domain: string): (p: Probed<Outcome<seq<Option<Signal>>>>)
    ensures p.log != [] && p.log[0] == "https://" + domain
    ensures p.value.Raised? <==>
      site.Fetch("https://" + domain).None? || FindVersionByPhp(site.Fetch("https://" + domain).value.headers).Raised?
    ensures p.value.Returned? && !Accepted(site.Fetch("https://" + domain).value.status) ==>
      p.log == ["https://" + domain] && p.value.value != [] && p.value.value[|p.value.value| - 1] == Some(NotDetected)
  {
    var url := "https://" + domain;
    match site.Fetch(url)
    case None => Probed(Raised, [url])
    case Some(r) =>
      match FindVersionByPhp(r.headers)
      case Raised => Probed(Raised, [url])
      case Returned(php) =>
        var first := Wrap(php) + Wrap(ResourceSignals(r.elements));
        if !Accepted(r.status) then Probed(Returned(first + [Some(NotDetected)]), [url])
        else
          var page := HomePageSpec(site, domain, url, r.body);
          Probed(Returned(first + page.value), [url, url] + page.log)
  }

  /** The second reading of the home page: the keyword signal, then the
      version logic when the generator meta tag names WordPress. */
  function HomePageSpec(site: Site, domain: string, url: string, body: string): Probed<seq<Option<Signal>>> {
    var counted := [Some(Signal(3 <= NoUrlKeywordCount(body) <= 5, Sentinel))];
    if Contains(Lower(body), GeneratorLower) then Then(Probed(counted, []), VersionEntry(site, domain, body, url + "/wp-admin"))
    else Probed(counted, [])
  }

  /** The keyword count of the no-URL check. */
  method KeywordCount(body: string) returns (count: nat)
    ensures count == NoUrlKeywordCount(body)
  {
    count := 0;
    if Contains(body, "wp-content") {
      count := count + 1;
    }
    assert count == Indicator(Contains(body, "wp-content"));
    if Contains(Lower(body), "wordpress") {
      count := count + 1;
    }
    assert count == Indicator(Contains(body, "wp-content")) + Indicator(Contains(Lower(body), "wordpress"));
    if Contains(body, "wp-admin") {
      count := count + 1;
    }
    assert count == Indicator(Contains(body, "wp-content")) + Indicator(Contains(Lower(body), "wordpress")) +
      Indicator(Contains(body, "wp-admin"));
    if Contains(body, "wp-includes") {
      count := count + 1;
    }
    assert count == Indicator(Contains(body, "wp-content")) + Indicator(Contains(Lower(body), "wordpress")) +
      Indicator(Contains(body, "wp-admin")) + Indicator(Contains(body, "wp-includes"));
    if Contains(body, "wp-json") {
      count := count + 1;
    }
  }

  method HomePage(site: Site, domain: string, url: string, body: string) returns (signals: seq<Option<Signal>>, log: seq<string>)
    ensures Probed(signals, log) == HomePageSpec(site, domain, url, body)
  {
    var count := KeywordCount(body);
    if 5 >= count >= 3 {
      signals := [Some(Unknown)];
    } else {
      signals := [Some(NotDetected)];
    }
    log := [];
    if Contains(Lower(body), GeneratorLower) {
      var v;
      v, log := GetVersion(site, domain, body, url + "/wp-admin");
      assert Probed([v], log) == VersionEntry(site, domain, body, url + "/wp-admin");
      signals := signals + [v];
    }
  }

  method NoUrlCheck(site: Site, domain: string) returns (result: Outcome<seq<Option<Signal>>>, log: seq<string>)
    ensures Probed(result, log) == NoUrlSpec(site, domain)
  {
    var url := "https://" + domain;
    var response := site.Fetch(url);
    log := [url];
    if response.None? {
      return Raised, log;
    }
    var r := response.value;
    var php := FindVersionByPhp(r.headers);
    if php.Raised? {
      return Raised, log;
    }
    var list := Wrap(php.value) + Wrap(ResourceSignals(r.elements));
    if !Accepted(r.status) {
      return Returned(list + [Some(NotDetected)]), log;
    }
    var page, l := HomePage(site, domain, url, r.body);
    return Returned(list + page), log + [url] + l;
  }

  // ---------------------------------------------------------------------
  // `is_wordpress`

  /** The url loop: candidate paths in order; the first path that fails over
      both https and http ends the loop. */
  function ProbeUrlsSpec(site: Site, domain: string, urls: seq<string>): Probed<seq<Option<Signal>>>
    decreases |urls|
  {
    if urls == [] then Probed([], [])
    else
      var f := FetchEither(site, domain, urls[0]);
      match f.value
      case None => Probed([], f.log)
      case Some(r) =>
        var here := UrlSignals(site, domain, urls[0], r);
        var rest := ProbeUrlsSpec(site, domain, urls[1..]);
        Probed(here.value + rest.value, f.log + here.log + rest.log)
  }

  /** `is_wordpress`: the url loop (skipped for an empty list), then the
      no-URL check, then the reduction. None is the program's None. */
  function IsWordpressSpec(site: Site, domain: string, urls: seq<string>): Probed<Option<Signal>> {
    var p := ProbeUrlsSpec(site, domain, urls);
    var n := NoUrlSpec(site, domain);
    match n.value
    case Raised => Probed(None, p.log + n.log)
    case Returned(rest) => Probed(ReduceSpec(p.value + rest), p.log + n.log)
  }

  /** The url loop of `is_wordpress`. */
  method ProbeUrls(site: Site, domain: string, urls: seq<string>) returns (list: seq<Option<Signal>>, log: seq<string>)
    ensures Probed(list, log) == ProbeUrlsSpec(site, domain, urls)
  {
    list, log := [], [];
    var i := 0;
    assert urls[0..] == urls;
    assert Then(Probed(list, log), ProbeUrlsSpec(site, domain, urls)) == ProbeUrlsSpec(site, domain, urls) by {
      var p := ProbeUrlsSpec(site, domain, urls);
      assert [] + p.value == p.value && [] + p.log == p.log;
    }
    while i < |urls|
      invariant 0 <= i <= |urls|
      invariant ProbeUrlsSpec(site, domain, urls) == Then(Probed(list, log), ProbeUrlsSpec(site, domain, urls[i..]))
    {
      assert urls[i..][1..] == urls[i + 1..];
      var f := FetchEither(site, domain, urls[i]);
      ghost var rest := ProbeUrlsSpec(site, domain, urls[i + 1..]);
      if f.value.None? {
        assert ProbeUrlsSpec(site, domain, urls[i..]) == Probed([], f.log);
        assert list + [] == list;
        log := log + f.log;
        return;
      }
      var here, l := ProbeUrl(site, domain, urls[i], f.value.value);
      assert ProbeUrlsSpec(site, domain, urls[i..]) == Probed(here + rest.value, f.log + l + rest.log);
      AppendAssoc(list, here, rest.value);
      AppendAssoc(log, f.log + l, rest.log);
      AppendAssoc(log, f.log, l);
      list, log := list + here, log + f.log + l;
      i := i + 1;
    }
    assert urls[|urls|..] == [];
    assert list + [] == list && log + [] == log;
  }

  method IsWordpress(site: Site, domain: string, urls: seq<string>) returns (r: Option<Signal>, log: seq<string>)
    ensures Probed(r, log) == IsWordpressSpec(site, domain, urls)
  {
    var list: seq<Option<Signal>> := [];
    log := [];
    if urls != [] {
      list, log := ProbeUrls(site, domain, urls);
    }
    var n, l := NoUrlCheck(site, domain);
    log := log + l;
    match n {
      case Raised => r := None;
      case Returned(rest) => r := Reduce(list + rest);
    }
  }

  /** A path that fails over both schemes ends the url loop: nothing listed after it is requested or read. */
  lemma {:induction false} LoopStopsAtDoubleFailure(site: Site, domain: string, urls: seq<string>, rest: seq<string>)
    requires urls != [] && FetchEither(site, domain, urls[|urls| - 1]).value.None?
    ensures ProbeUrlsSpec(site, domain, urls + rest) == ProbeUrlsSpec(site, domain, urls)
    decreases |urls|
  {
    assert (urls + rest)[1..] == urls[1..] + rest;
    if |urls| > 1 {
      LoopStopsAtDoubleFailure(site, domain, urls[1..], rest);
    }
  }

  /** After such a failure the no-URL check still runs: its requests follow the loop's. */
  lemma NoUrlCheckRunsAfterFailure(site: Site, domain: string, urls: seq<string>, rest: seq<string>)
    requires urls != [] && FetchEither(site, domain, urls[|urls| - 1]).value.None?
    ensures IsWordpressSpec(site, domain, urls + rest).log == ProbeUrlsSpec(site, domain, urls).log + NoUrlSpec(site, domain).log
  {
    LoopStopsAtDoubleFailure(site, domain, urls, rest);
  }

  /** The answer is positive only with two or more positive signals, and a
      reported version is a positive signal of the list. */
  lemma IsWordpressNeedsTwoPositives(site: Site, domain: string, urls: seq<string>)
    ensures var p := ProbeUrlsSpec(site, domain, urls);
      var n := NoUrlSpec(site, domain);
      var r := IsWordpressSpec(site, domain, urls).value;
      r.Some? ==> (n.value.Returned? && AllPresent(p.value + n.value.value) &&
        (r.value.flag <==> |Positives(Present(p.value + n.value.value))| >= 2))
  {
    var p := ProbeUrlsSpec(site, domain, urls);
    var n := NoUrlSpec(site, domain);
    if n.value.Returned? && AllPresent(p.value + n.value.value) {
      VerdictNeedsTwoPositives(Present(p.value + n.value.value));
    }
  }

  // ---------------------------------------------------------------------
  // The detector object

  class WPDetector {
    var domain: string

    constructor ()
      ensures domain == ""
    {
      domain := "";
    }

    /** `detect`: remember the domain, probe the given paths (or the
        default ones when none are given) and prefix the platform name.
        None is the program's None (an exception printed and swallowed).
        Retries, time-out, the aggressive mode and proxies only shape the
        requests and are not modelled. */
    method Detect(d: string, site: Site, urls: Option<seq<string>>) returns (v: Option<Detection>, log: seq<string>)
      modifies this
      ensures domain == d
      ensures var spec := IsWordpressSpec(site, d, if urls.None? then DefaultUrls else urls.value);
        log == spec.log &&
        v == (if spec.value.None? then None else Some(Detection("WordPress", spec.value.value.flag, spec.value.value.text)))
    {
      domain := d;
      var candidates := if urls.None? then DefaultUrls else urls.value;
      var r;
      r, log := IsWordpress(site, domain, candidates);
      if r.None? {
        v := None;
      } else {
        v := Some(Detection("WordPress", r.value.flag, r.value.text));
      }
    }
  }
}
