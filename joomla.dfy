/** The Joomla! detector (JOOMLADetector.py): a probe loop that looks for
    "joomla!" in the pages of the site, an outside oracle consulted when the
    loop finds nothing, and a version waterfall that reads fixed marker
    texts from four pages before it falls back to the XML manifests.

    The base URL the program obtains by following the redirects of
    `http://<domain>` is an input (`base`); so is the oracle's answer text. */
module Joomla {
  import opened PyStr
  import opened Probe

  /** `_JOOMLA_DETECTABLE_URLS`, the paths probed when the caller gives none. */
  const DetectableUrls: seq<string> := [
    "", "/?option=com_content&view=category&id=1&format=feed",
    "/?format=feed", "/language/en-GB/en-GB.ini", "/components/com_mailto/mailto.xml",
    "/components/com_wrapper/wrapper.xml", "/htaccess.txt", "/language/en-GB/en-GB.xml",
    "/language/en-GB/install.xml", "/templates/protostar/templateDetails.xml",
    "/web.config.txt"]

  const NotJoomla := "probably it is not a Joomla! website"
  const OracleYes := "Yes, this is Joomla!"
  const VersionNotFound := "version not found"

  // ---------------------------------------------------------------------
  // `is_joomla`

  /** A body naming Joomla!, whatever the case of its letters. */
  predicate MentionsJoomla(r: Response) {
    Contains(Lower(r.body), "joomla!")
  }

  /** A probed page that lets the loop go on: present, status 200, silent about Joomla!. */
  predicate Passes(site: Site, u: string) {
    site.Fetch(u).Some? && Accepted(site.Fetch(u).value.status) && !MentionsJoomla(site.Fetch(u).value)
  }

  /** A probed page that ends the loop with True: present, status 200, naming Joomla!. */
  predicate Hits(site: Site, u: string) {
    site.Fetch(u).Some? && Accepted(site.Fetch(u).value.status) && MentionsJoomla(site.Fetch(u).value)
  }

  /** The url loop of `is_joomla`: the paths are requested in order under
      `base`; a missing or non-200 response ends the loop, a body naming
      Joomla! ends it with True. The log is a prefix of the probed URLs;
      every page but the last requested one let the loop go on, and the
      loop stopped early only because the last one did not. */
  function ProbeLoop(site: Site, base: string, urls: seq<string>): (p: Probed<bool>)
    ensures |p.log| <= |urls|
    ensures forall j :: 0 <= j < |p.log| - 1 ==> Passes(site, base + urls[j])
    ensures p.value ==> p.log != [] && Hits(site, base + urls[|p.log| - 1])
    ensures |p.log| < |urls| ==> p.log != [] && !Passes(site, base + urls[|p.log| - 1])
    ensures |p.log| == |urls| && urls != [] && !p.value ==> !Hits(site, base + urls[|urls| - 1])
    decreases |urls|
  {
    if urls == [] then Probed(false, [])
    else
      var u := base + urls[0];
      match site.Fetch(u)
      case None => Probed(false, [u])
      case Some(r) =>
        if !Accepted(r.status) then Probed(false, [u])
        else if MentionsJoomla(r) then Probed(true, [u])
        else
          var rest := ProbeLoop(site, base, urls[1..]);
          Probed(rest.value, [u] + rest.log)
  }

  /** The probes are requested in url order, under the base. */
  lemma {:induction false} ProbeLoopRequestsInOrder(site: Site, base: string, urls: seq<string>)
    ensures var p := ProbeLoop(site, base, urls);
      forall j :: 0 <= j < |p.log| ==> p.log[j] == base + urls[j]
    decreases |urls|
  {
    if urls != [] {
      ProbeLoopRequestsInOrder(site, base, urls[1..]);
      var p := ProbeLoop(site, base, urls);
      forall j | 1 <= j < |p.log| ensures p.log[j] == base + urls[j] {
        assert urls[1..][j - 1] == urls[j];
      }
    }
  }

  /** Page k names Joomla! and every page before it lets the loop go on. */
  predicate FirstMention(site: Site, base: string, urls: seq<string>, k: nat) {
    k < |urls| && Hits(site, base + urls[k]) && forall j :: 0 <= j < k ==> Passes(site, base + urls[j])
  }

  /** Shifting a first mention past a page that lets the loop go on. */
  lemma FirstMentionShift(site: Site, base: string, urls: seq<string>, k: nat)
    requires urls != [] && Passes(site, base + urls[0])
    ensures FirstMention(site, base, urls, k + 1) <==> FirstMention(site, base, urls[1..], k)
  {
    if FirstMention(site, base, urls[1..], k) {
      forall j | 0 <= j < k + 1 ensures Passes(site, base + urls[j]) {
        if j > 0 {
          assert urls[j] == urls[1..][j - 1];
        }
      }
    }
    if FirstMention(site, base, urls, k + 1) {
      forall j | 0 <= j < k ensures Passes(site, base + urls[1..][j]) {
        assert urls[1..][j] == urls[j + 1];
      }
    }
  }

  /** The loop answers True exactly when some probed page names Joomla! and
      every page before it lets the loop go on. */
  lemma {:induction false} ProbeLoopFindsFirstMention(site: Site, base: string, urls: seq<string>)
    ensures ProbeLoop(site, base, urls).value <==> exists k: nat :: FirstMention(site, base, urls, k)
    decreases |urls|
  {
    if urls != [] {
      var u := base + urls[0];
      if Hits(site, u) {
        assert FirstMention(site, base, urls, 0);
      } else if Passes(site, u) {
        ProbeLoopFindsFirstMention(site, base, urls[1..]);
        if ProbeLoop(site, base, urls[1..]).value {
          var k :| FirstMention(site, base, urls[1..], k);
          FirstMentionShift(site, base, urls, k);
        } else {
          forall k: nat | FirstMention(site, base, urls, k) ensures false {
            assert k > 0;
            FirstMentionShift(site, base, urls, k - 1);
          }
        }
      }
    }
  }

  /** The oracle's verdict on its answer text; a failed request leaves
      `response.text` to be read from None, which raises. */
  function Oracle(oracle: Option<string>): (r: Outcome<bool>)
    ensures r.Raised? <==> oracle.None?
    ensures r == Returned(true) <==> oracle.Some? && Contains(oracle.value, OracleYes)
  {
    match oracle
    case None => Raised
    case Some(text) => Returned(Contains(text, OracleYes))
  }

  /** `is_joomla`. With no paths the base page alone is probed: a failed
      request falls through to the oracle, but a non-200 answer returns
      False without consulting it. With paths the loop runs and the oracle
      decides whenever the loop does not find Joomla!. */
  function IsJoomlaSpec(site: Site, base: string, urls: seq<string>, oracle: Option<string>): Probed<Outcome<bool>> {
    if urls == [] then
      match site.Fetch(base)
      case None => Probed(Oracle(oracle), [base])
      case Some(r) =>
        if !Accepted(r.status) then Probed(Returned(false), [base])
        else if MentionsJoomla(r) then Probed(Returned(true), [base])
        else Probed(Oracle(oracle), [base])
    else
      var p := ProbeLoop(site, base, urls);
      if p.value then Probed(Returned(true), p.log) else Probed(Oracle(oracle), p.log)
  }

  /** Whenever the probes do not find Joomla!, the answer is the oracle's,
      except for a non-200 base page when no path is given. */
  lemma OracleDecidesOtherwise(site: Site, base: string, urls: seq<string>, oracle: Option<string>)
    ensures urls != [] && !ProbeLoop(site, base, urls).value ==> IsJoomlaSpec(site, base, urls, oracle).value == Oracle(oracle)
    ensures urls == [] && !Passes(site, base) && !Hits(site, base) && site.Fetch(base).Some? ==>
      IsJoomlaSpec(site, base, urls, oracle).value == Returned(false)
    ensures IsJoomlaSpec(site, base, urls, oracle).value == Returned(true) <==>
      (if urls == [] then Hits(site, base) else ProbeLoop(site, base, urls).value) ||
      ((urls != [] || !site.Fetch(base).Some? || Passes(site, base)) && oracle.Some? && Contains(oracle.value, OracleYes))
  {
  }

  /** A first probe answered with 403 or 401 (or any status but 200)
      stops the url loop at once and leaves the answer to the oracle,
      since `('200' or '403' or '401')` is just `'200'`; without paths a
      refused base page is a plain False. */
  lemma RefusedProbeEndsSearch(site: Site, base: string, urls: seq<string>, oracle: Option<string>, r: Response)
    requires r.status != 200
    requires site.Fetch(if urls == [] then base else base + urls[0]) == Some(r)
    ensures urls != [] ==> ProbeLoop(site, base, urls) == Probed(false, [base + urls[0]])
    ensures urls != [] ==> IsJoomlaSpec(site, base, urls, oracle) == Probed(Oracle(oracle), [base + urls[0]])
    ensures urls == [] ==> IsJoomlaSpec(site, base, urls, oracle) == Probed(Returned(false), [base])
  {
  }

  /** One round of the url loop from position `i`: a missing or refused page
      stops it with False, a page naming Joomla! with True, and any other
      page passes on to the rest. */
  lemma ProbeLoopStep(site: Site, base: string, urls: seq<string>, i: nat)
    requires i < |urls|
    ensures var u := base + urls[i]; var p := ProbeLoop(site, base, urls[i..]);
      (!Passes(site, u) && !Hits(site, u) ==> p == Probed(false, [u])) &&
      (Hits(site, u) ==> p == Probed(true, [u])) &&
      (Passes(site, u) ==> p == Probed(ProbeLoop(site, base, urls[i + 1..]).value, [u] + ProbeLoop(site, base, urls[i + 1..]).log))
  {
    assert urls[i..][1..] == urls[i + 1..];
  }

  /** The url loop of `is_joomla`, breaking at the first missing or refused page. */
  method JoomlaLoop(site: Site, base: string, urls: seq<string>) returns (found: bool, log: seq<string>)
    ensures Probed(found, log) == ProbeLoop(site, base, urls)
  {
    log := [];
    assert urls[0..] == urls;
    for i := 0 to |urls|
      invariant ProbeLoop(site, base, urls) == Probed(ProbeLoop(site, base, urls[i..]).value, log + ProbeLoop(site, base, urls[i..]).log)
    {
      ProbeLoopStep(site, base, urls, i);
      var u := base + urls[i];
      var response := site.Fetch(u);
      if response.None? || !Accepted(response.value.status) {
        return false, log + [u];
      }
      if MentionsJoomla(response.value) {
        return true, log + [u];
      }
      AppendAssoc(log, [u], ProbeLoop(site, base, urls[i + 1..]).log);
      log := log + [u];
    }
    assert urls[|urls|..] == [];
    assert log + [] == log;
    return false, log;
  }

  method IsJoomla(site: Site, base: string, urls: seq<string>, oracle: Option<string>) returns (r: Outcome<bool>, log: seq<string>)
    ensures Probed(r, log) == IsJoomlaSpec(site, base, urls, oracle)
  {
    if urls == [] {
      log := [base];
      var response := site.Fetch(base);
      if response.Some? {
        if !Accepted(response.value.status) {
          return Returned(false), log;
        } else if MentionsJoomla(response.value) {
          return Returned(true), log;
        }
      }
    } else {
      var found;
      found, log := JoomlaLoop(site, base, urls);
      if found {
        return Returned(true), log;
      }
    }
    match oracle
    case None => r := Raised;
    case Some(text) => r := Returned(Contains(text, OracleYes));
  }

  // ---------------------------------------------------------------------
  // `get_version`: the marker waterfall

  /** One `if`/`elif` arm: the texts joined by `or`, and the version it returns. */
  datatype Arm = Arm(markers: seq<string>, version: string)

  /** One stage: the page it reads under the base URL, and its arms in order. */
  datatype Stage = Stage(path: string, arms: seq<Arm>)

  predicate ArmMatches(text: string, arm: Arm) {
    exists m :: m in arm.markers && Contains(text, m)
  }

  const Copyright2008 := "Copyright (C) 2005 - 2008 Open Source Matters"
  const Copyright2007 := "Copyright (C) 2005 - 2007 Open Source Matters"
  const Banner15 := "Joomla! 1.5 - Open Source Content Management"
  const OpenIdStyle := "OpenID icon style"
  const Copyright2010 := "@copyright Copyright (C) 2005 \U{2013} 2010 Open Source Matters"
  const SystemCss20196 := "@version $Id: system.css 20196 2011-01-09 02:40:25Z ian $"
  const SystemCss21322 := "@version $Id: system.css 21322 2011-05-11 01:10:29Z dextercowley $"
  const Copyright2012 := " @copyright Copyright (C) 2005 \U{2013} 2012 Open Source Matters"
  const MooTools1301 := "MooTools.More={version:\U{201D}1.3.0.1\U{2033}"
  const MooTools1321 := "MooTools.More={version:\U{201D}1.3.2.1\U{2033}"
  const Ini11391 := "# $Id: en-GB.ini 11391 2009-01-04 13:35:50Z ian $"
  const Ini20196 := "$Id: en-GB.ini 20196 2011-01-09 02:40:25Z ian $"
  const Ini20990 := "$Id: en-GB.ini 20990 2011-03-18 16:42:30Z infograf768 $"
  /** The text tested by the `'1.7.1'` arm, written out again in the source. */
  const Ini20990Again := "$Id: en-GB.ini 20990 2011-03-18 16:42:30Z infograf768 $"
  const Ini22183 := "$Id: en-GB.ini 22183 2011-09-30 09:04:32Z infograf768 $"
  /** The text tested by the `'1.7.5'` arm, written out again in the source. */
  const Ini22183Again := "$Id: en-GB.ini 22183 2011-09-30 09:04:32Z infograf768 $"

  const BaseArms: seq<Arm> := [Arm([Copyright2008, Copyright2007], "1.0"), Arm([Banner15], "1.5")]
  const CssArms: seq<Arm> := [
    Arm([OpenIdStyle, Copyright2010], "1.0"), Arm([SystemCss20196], "1.6"),
    Arm([SystemCss21322], "1.7"), Arm([Copyright2012], "2.5")]
  const MooArms: seq<Arm> := [Arm([MooTools1301], "1.6"), Arm([MooTools1321], "1.7")]
  const IniArms: seq<Arm> := [
    Arm([Ini11391], "1.5.26"), Arm([Ini20196], "1.6.0"), Arm([Ini20990], "1.6.5"),
    Arm([Ini20990Again], "1.7.1"), Arm([Ini22183], "1.7.3"), Arm([Ini22183Again], "1.7.5")]

  /** The base page, system.css, mootools-more.js and en-GB.ini, in that order. */
  const Stages: seq<Stage> := [
    Stage("", BaseArms),
    Stage("/templates/system/css/system.css", CssArms),
    Stage("/media/system/js/mootools-more.js", MooArms),
    Stage("/language/en-GB/en-GB.ini", IniArms)]

  /** The arm an `if`/`elif` chain takes: the first whose test holds. */
  function FirstArm(text: string, arms: seq<Arm>): (r: Option<nat>)
    ensures r.Some? ==> r.value < |arms| && ArmMatches(text, arms[r.value])
    ensures r.Some? ==> forall j :: 0 <= j < r.value ==> !ArmMatches(text, arms[j])
    ensures r.None? <==> forall j :: 0 <= j < |arms| ==> !ArmMatches(text, arms[j])
    decreases |arms|
  {
    if arms == [] then None
    else if ArmMatches(text, arms[0]) then Some(0)
    else match FirstArm(text, arms[1..])
      case None => None
      case Some(k) => Some(k + 1)
  }

  /** The version a stage returns on a page text, if any. */
  function StageVersion(text: string, arms: seq<Arm>): Option<string> {
    match FirstArm(text, arms)
    case None => None
    case Some(k) => Some(arms[k].version)
  }

  /** An arm testing only texts an earlier arm already tests is never taken. */
  lemma ShadowedArmNeverTaken(text: string, arms: seq<Arm>, i: nat, j: nat)
    requires i < j < |arms|
    requires forall m :: m in arms[j].markers ==> m in arms[i].markers
    ensures FirstArm(text, arms) != Some(j)
  {
  }

  /** The en-GB.ini arms returning 1.7.1 and 1.7.5 repeat the tests of the
      arms returning 1.6.5 and 1.7.3, so those two versions never come out. */
  lemma DuplicateIniArmsUnreachable(text: string)
    ensures StageVersion(text, IniArms) != Some("1.7.1")
    ensures StageVersion(text, IniArms) != Some("1.7.5")
  {
    assert Ini20990Again == Ini20990 && Ini22183Again == Ini22183;
    ShadowedArmNeverTaken(text, IniArms, 2, 3);
    ShadowedArmNeverTaken(text, IniArms, 4, 5);
  }

  /** The stages in order; a failed request raises (its `.text` is read from
      None), a taken arm returns its version and ends the waterfall, and a
      stage with no taken arm hands over to the next one. */
  function Cascade(site: Site, base: string, stages: seq<Stage>): (p: Probed<Outcome<Option<string>>>)
    ensures |p.log| <= |stages|
    ensures p.value == Returned(None) ==> |p.log| == |stages|
    decreases |stages|
  {
    if stages == [] then Probed(Returned(None), [])
    else
      var u := base + stages[0].path;
      match site.Fetch(u)
      case None => Probed(Raised, [u])
      case Some(r) =>
        match StageVersion(r.body, stages[0].arms)
        case Some(v) => Probed(Returned(Some(v)), [u])
        case None =>
          var rest := Cascade(site, base, stages[1..]);
          Probed(rest.value, [u] + rest.log)
  }

  /** The URLs of the given stages under `base`. */
  function StageUrls(base: string, stages: seq<Stage>): (r: seq<string>)
    ensures |r| == |stages| && forall j :: 0 <= j < |stages| ==> r[j] == base + stages[j].path
  {
    seq(|stages|, j requires 0 <= j < |stages| => base + stages[j].path)
  }

  /** A stage whose page the fetcher answers and none of whose arms is taken. */
  predicate StageSilent(site: Site, base: string, stage: Stage) {
    site.Fetch(base + stage.path).Some? && StageVersion(site.Fetch(base + stage.path).value.body, stage.arms).None?
  }

  /** Precedence: when stage k is the first to take an arm, its version is
      the answer and the pages of the later stages are never requested. */
  lemma {:induction false} CascadePrecedence(site: Site, base: string, stages: seq<Stage>, k: nat, v: string)
    requires k < |stages|
    requires forall j :: 0 <= j < k ==> StageSilent(site, base, stages[j])
    requires site.Fetch(base + stages[k].path).Some?
    requires StageVersion(site.Fetch(base + stages[k].path).value.body, stages[k].arms) == Some(v)
    ensures Cascade(site, base, stages) == Probed(Returned(Some(v)), StageUrls(base, stages[..k + 1]))
    decreases k
  {
    if k > 0 {
      forall j | 0 <= j < k - 1 ensures StageSilent(site, base, stages[1..][j]) {
        assert stages[1..][j] == stages[j + 1];
      }
      CascadePrecedence(site, base, stages[1..], k - 1, v);
      assert StageUrls(base, stages[..k + 1]) == [base + stages[0].path] + StageUrls(base, stages[1..][..k]);
    } else {
      assert StageUrls(base, stages[..1]) == [base + stages[0].path];
    }
  }

  /** So for `get_version`: the first stage to take an arm decides the
      version, and neither the later stages nor the manifests are requested. */
  lemma GetVersionPrecedence(site: Site, base: string, k: nat, v: string)
    requires k < |Stages|
    requires forall j :: 0 <= j < k ==> StageSilent(site, base, Stages[j])
    requires site.Fetch(base + Stages[k].path).Some?
    requires StageVersion(site.Fetch(base + Stages[k].path).value.body, Stages[k].arms) == Some(v)
    ensures GetVersionSpec(site, base) == Probed(Returned(v), StageUrls(base, Stages[..k + 1]))
  {
    CascadePrecedence(site, base, Stages, k, v);
  }

  // ---------------------------------------------------------------------
  // `get_version`: the XML manifests

  const ManifestPaths: seq<string> := ["/administrator/manifests/files/joomla.xml", "/language/en-GB/en-GB.xml", "/modules/custom.xml"]
  const VersionOpen := "<version>"
  const VersionClose := "</version>"

  /** `text[start.end():end.start()]` for the first `<version>` and the first
      `</version>`; a missing tag leaves `re.search` returning None, whose
      `.end()` raises. A closing tag before the opening one gives "". */
  function Candidate(text: string): (r: Outcome<string>)
    ensures r.Raised? <==> !Contains(text, VersionOpen) || !Contains(text, VersionClose)
  {
    ContainsIffFound(text, VersionOpen);
    ContainsIffFound(text, VersionClose);
    var s := Find(text, VersionOpen, 0);
    var e := Find(text, VersionClose, 0);
    if s == -1 || e == -1 then Raised else Returned(Slice(text, s + |VersionOpen|, e))
  }

  /** A manifest in which `<version>` first occurs right after `p`, and
      `</version>` first occurs right after the `v` that follows it,
      yields exactly `v`; the text around may hold any other markup. */
  lemma CandidateBetweenTags(p: string, v: string, q: string)
    requires forall j :: 0 <= j < |p| ==> !OccursAt(p + VersionOpen + v + VersionClose + q, VersionOpen, j)
    requires forall j :: 0 <= j < |p| + 9 + |v| ==> !OccursAt(p + VersionOpen + v + VersionClose + q, VersionClose, j)
    ensures Candidate(p + VersionOpen + v + VersionClose + q) == Returned(v)
  {
    var text := p + VersionOpen + v + VersionClose + q;
    var e := |p| + 9 + |v|;
    assert text[|p|..|p| + 9] == VersionOpen;
    OccursAtIsSlice(text, VersionOpen, |p|);
    FindExact(text, VersionOpen, 0, |p|);
    assert text[e..e + 10] == VersionClose;
    OccursAtIsSlice(text, VersionClose, e);
    FindExact(text, VersionClose, 0, e);
    assert text[|p| + 9..e] == v;
  }

  /** The third dot-separated component ("" where there is none; `Keep`
      raises before it would compare such a version). */
  function Third(s: string): string {
    var parts := Split(s, '.');
    if |parts| >= 3 then parts[2] else ""
  }

  /** One manifest's effect on the kept version: the first candidate is
      taken as it is; later ones replace the kept version only when their
      third component is greater as a string. Indexing a version with fewer
      than three components raises IndexError. */
  function Keep(version: string, temp: string): (r: Outcome<string>)
    ensures r.Returned? ==> r.value == version || r.value == temp
    ensures version != "" ==> (r.Raised? <==> |Split(temp, '.')| < 3 || |Split(version, '.')| < 3)
  {
    if version == "" then Returned(temp)
    else
      var t := Split(temp, '.');
      var v := Split(version, '.');
      if |t| < 3 || |v| < 3 then Raised
      else if StrLt(v[2], t[2]) then Returned(temp)
      else Returned(version)
  }

  /** A version of three or more components is never empty. */
  lemma ThreeComponentsNonEmpty(s: string)
    requires |Split(s, '.')| >= 3
    ensures s != ""
  {
  }

  /** A tie keeps the earlier version; a strictly greater third component wins. */
  lemma KeepComparesThirdComponents(version: string, temp: string)
    requires version != "" && |Split(version, '.')| >= 3 && |Split(temp, '.')| >= 3
    ensures Third(version) == Third(temp) ==> Keep(version, temp) == Returned(version)
    ensures Keep(version, temp) == Returned(if StrLt(Third(version), Third(temp)) then temp else version)
    ensures StrLe(Third(temp), Third(Keep(version, temp).value))
    ensures StrLe(Third(version), Third(Keep(version, temp).value))
  {
    StrLtIrreflexive(Third(version));
    StrLtTotal(Third(version), Third(temp));
  }

  /** The manifests' candidates folded through `Keep`. */
  function KeepAll(version: string, cs: seq<Outcome<string>>): Outcome<string>
    decreases |cs|
  {
    if cs == [] then Returned(version)
    else match cs[0]
      case Raised => Raised
      case Returned(temp) =>
        match Keep(version, temp)
        case Raised => Raised
        case Returned(next) => KeepAll(next, cs[1..])
  }

  /** The kept version is empty exactly when it started empty and every
      candidate was empty; otherwise it is the starting version or one of
      the candidates. */
  lemma {:induction false} KeepAllKeepsACandidate(version: string, cs: seq<Outcome<string>>)
    requires KeepAll(version, cs).Returned?
    ensures var w := KeepAll(version, cs).value;
      (w == "" <==> version == "" && forall j :: 0 <= j < |cs| ==> cs[j] == Returned("")) &&
      (w == version || Returned(w) in cs)
    decreases |cs|
  {
    if cs != [] {
      var temp := cs[0].value;
      var next := Keep(version, temp).value;
      KeepAllKeepsACandidate(next, cs[1..]);
      if version != "" && next == temp {
        if |Split(temp, '.')| >= 3 {
          ThreeComponentsNonEmpty(temp);
        }
      }
      var w := KeepAll(version, cs).value;
      if w == "" {
        forall j | 0 <= j < |cs| ensures cs[j] == Returned("") {
          if j > 0 {
            assert cs[j] == cs[1..][j - 1];
          }
        }
      }
      if Returned(w) in cs[1..] {
        var j :| 0 <= j < |cs| - 1 && cs[1..][j] == Returned(w);
        assert cs[j + 1] == Returned(w);
      }
    }
  }

  /** Candidates all read as returned values. */
  function AllReturned(ts: seq<string>): (cs: seq<Outcome<string>>)
    ensures |cs| == |ts| && forall j :: 0 <= j < |ts| ==> cs[j] == Returned(ts[j])
  {
    seq(|ts|, j requires 0 <= j < |ts| => Returned(ts[j]))
  }

  /** Versions that all have a third component. */
  predicate Versioned(all: seq<string>) {
    forall j :: 0 <= j < |all| ==> |Split(all[j], '.')| >= 3
  }

  /** `all[k]` has the greatest third component, and every earlier one a strictly smaller one. */
  predicate IsFirstMaximum(all: seq<string>, k: nat) {
    k < |all| &&
    (forall j :: 0 <= j < |all| ==> StrLe(Third(all[j]), Third(all[k]))) &&
    (forall j :: 0 <= j < k ==> StrLt(Third(all[j]), Third(all[k])))
  }

  /** `a <= b < c` gives `a < c`. */
  lemma LtOfLeLt(a: string, b: string, c: string)
    requires StrLe(a, b) && StrLt(b, c)
    ensures StrLt(a, c)
  {
    if a != b {
      StrLtTransitive(a, b, c);
    }
  }

  /** Keeping the better of `v` and `t` and then the first maximum of the
      rest gives the first maximum of `[v, t] + rest`. */
  lemma FirstMaximumStep(v: string, t: string, rest: seq<string>, k: nat)
    requires IsFirstMaximum([if StrLt(Third(v), Third(t)) then t else v] + rest, k)
    ensures var shifted := if k == 0 then (if StrLt(Third(v), Third(t)) then 1 else 0) else k + 1;
      IsFirstMaximum([v, t] + rest, shifted) &&
      ([v, t] + rest)[shifted] == ([if StrLt(Third(v), Third(t)) then t else v] + rest)[k]
  {
    var next := if StrLt(Third(v), Third(t)) then t else v;
    var all := [v, t] + rest;
    var tail := [next] + rest;
    var w := Third(tail[k]);
    assert tail[0] == next;
    assert StrLe(Third(next), w);
    StrLtTotal(Third(v), Third(t));
    StrLeTransitive(Third(v), Third(next), w);
    StrLeTransitive(Third(t), Third(next), w);
    var shifted := if k == 0 then (if StrLt(Third(v), Third(t)) then 1 else 0) else k + 1;
    assert all[0] == v && all[1] == t;
    forall j | 2 <= j < |all| ensures all[j] == tail[j - 1] {
    }
    assert all[shifted] == tail[k];
    forall j | 0 <= j < |all| ensures StrLe(Third(all[j]), w) {
    }
    forall j | 0 <= j < shifted ensures StrLt(Third(all[j]), w) {
      if j < 2 && k > 0 {
        assert StrLt(Third(next), w);
        LtOfLeLt(Third(all[j]), Third(next), w);
      }
    }
  }

  /** One candidate of three components moves the kept version to the better of the two. */
  lemma KeepAllStep(v: string, ts: seq<string>)
    requires |Split(v, '.')| >= 3 && ts != [] && |Split(ts[0], '.')| >= 3
    ensures KeepAll(v, AllReturned(ts)) == KeepAll(if StrLt(Third(v), Third(ts[0])) then ts[0] else v, AllReturned(ts[1..]))
  {
    ThreeComponentsNonEmpty(v);
    KeepComparesThirdComponents(v, ts[0]);
    assert AllReturned(ts)[1..] == AllReturned(ts[1..]);
  }

  /** Starting from a kept version `v`, versions of three or more components
      leave the first of `[v] + ts` whose third component is greatest. */
  lemma {:induction false} KeepAllFromKeepsFirstMaximum(v: string, ts: seq<string>)
    requires |Split(v, '.')| >= 3 && Versioned(ts)
    ensures KeepAll(v, AllReturned(ts)).Returned?
    ensures exists k: nat :: IsFirstMaximum([v] + ts, k) && KeepAll(v, AllReturned(ts)).value == ([v] + ts)[k]
    decreases |ts|
  {
    if ts == [] {
      assert [v] + ts == [v];
      assert IsFirstMaximum([v], 0);
    } else {
      var next := if StrLt(Third(v), Third(ts[0])) then ts[0] else v;
      KeepAllStep(v, ts);
      assert [v] + ts == [v, ts[0]] + ts[1..];
      KeepAllFromKeepsFirstMaximum(next, ts[1..]);
      var k: nat :| IsFirstMaximum([next] + ts[1..], k) && KeepAll(next, AllReturned(ts[1..])).value == ([next] + ts[1..])[k];
      FirstMaximumStep(v, ts[0], ts[1..], k);
    }
  }

  /** From an empty kept version, candidates of three or more components
      leave the first one whose third component is greatest: each later one
      replaces the kept version only with a strictly greater third component. */
  lemma KeepAllKeepsFirstMaximum(ts: seq<string>)
    requires ts != [] && Versioned(ts)
    ensures KeepAll("", AllReturned(ts)).Returned?
    ensures exists k: nat :: IsFirstMaximum(ts, k) && KeepAll("", AllReturned(ts)).value == ts[k]
  {
    assert AllReturned(ts)[1..] == AllReturned(ts[1..]);
    assert KeepAll("", AllReturned(ts)) == KeepAll(ts[0], AllReturned(ts[1..]));
    assert [ts[0]] + ts[1..] == ts;
    KeepAllFromKeepsFirstMaximum(ts[0], ts[1..]);
  }

  /** A version of three dot-free components splits into them. */
  lemma SplitThree(x: string, y: string, z: string)
    requires '.' !in x && '.' !in y && '.' !in z
    ensures Split(x + "." + y + "." + z, '.') == [x, y, z]
  {
    assert x + "." + y + "." + z == x + ['.'] + (y + ['.'] + z);
    SplitAtFirst(x, '.', y + ['.'] + z);
    SplitAtFirst(y, '.', z);
    SplitWithout(z, '.');
  }

  /** Two versions of three components are compared on the third. */
  lemma KeepOfThreeParts(x: string, y: string, a: string, p: string, q: string, b: string)
    requires '.' !in x && '.' !in y && '.' !in a && '.' !in p && '.' !in q && '.' !in b
    ensures Keep(x + "." + y + "." + a, p + "." + q + "." + b) ==
      Returned(if StrLt(a, b) then p + "." + q + "." + b else x + "." + y + "." + a)
  {
    SplitThree(x, y, a);
    SplitThree(p, q, b);
    assert (x + "." + y + "." + a)[|x|] == '.';
  }

  /** Manifests announcing 3.4.1, 3.4.5 and 3.4.2 leave 3.4.5. */
  lemma KeepAllExample(first: string, second: string, third: string)
    requires first == "3" + "." + "4" + "." + "1" && second == "3" + "." + "4" + "." + "5" && third == "3" + "." + "4" + "." + "2"
    ensures KeepAll("", AllReturned([first, second, third])) == Returned(second)
  {
    KeepOfThreeParts("3", "4", "1", "3", "4", "5");
    KeepOfThreeParts("3", "4", "5", "3", "4", "2");
    assert StrLt("1", "5") && !StrLt("5", "2");
    assert Keep(first, second) == Returned(second) && Keep(second, third) == Returned(second);
    var cs := AllReturned([first, second, third]);
    assert cs[0] == Returned(first) && cs[1..][0] == Returned(second) && cs[1..][1..][0] == Returned(third);
    assert cs[1..][1..][1..] == [];
    assert KeepAll(second, cs[1..][1..]) == KeepAll(second, []);
  }

  /** The XML loop: the manifests in order under `base`; a missing or
      non-200 manifest ends the loop with the kept version. */
  function XmlScan(site: Site, base: string, paths: seq<string>, version: string): (p: Probed<Outcome<string>>)
    ensures |p.log| <= |paths|
    ensures p.value.Raised? ==> p.log != []
    decreases |paths|
  {
    if paths == [] then Probed(Returned(version), [])
    else
      var u := base + paths[0];
      match site.Fetch(u)
      case None => Probed(Returned(version), [u])
      case Some(r) =>
        if !Accepted(r.status) then Probed(Returned(version), [u])
        else
          match Candidate(r.body)
          case Raised => Probed(Raised, [u])
          case Returned(temp) =>
            match Keep(version, temp)
            case Raised => Probed(Raised, [u])
            case Returned(next) =>
              var rest := XmlScan(site, base, paths[1..], next);
              Probed(rest.value, [u] + rest.log)
  }

  /** The candidates of the manifests the loop reads, up to the first missing or non-200 one. */
  function Candidates(site: Site, base: string, paths: seq<string>): seq<Outcome<string>>
    decreases |paths|
  {
    if paths == [] then []
    else
      match site.Fetch(base + paths[0])
      case None => []
      case Some(r) =>
        if !Accepted(r.status) then [] else [Candidate(r.body)] + Candidates(site, base, paths[1..])
  }

  /** The loop's answer is its candidates folded through `Keep`. */
  lemma {:induction false} XmlScanFoldsCandidates(site: Site, base: string, paths: seq<string>, version: string)
    ensures XmlScan(site, base, paths, version).value == KeepAll(version, Candidates(site, base, paths))
    decreases |paths|
  {
    if paths != [] {
      var u := base + paths[0];
      if site.Fetch(u).Some? && Accepted(site.Fetch(u).value.status) {
        var cs := Candidates(site, base, paths);
        assert cs[1..] == Candidates(site, base, paths[1..]);
        var c := Candidate(site.Fetch(u).value.body);
        if c.Returned? && Keep(version, c.value).Returned? {
          XmlScanFoldsCandidates(site, base, paths[1..], Keep(version, c.value).value);
        }
      }
    }
  }

  /** The XML stage's answer: the kept version, or "version not found" when it is empty. */
  function XmlAnswer(scan: Outcome<string>): Outcome<string> {
    match scan
    case Raised => Raised
    case Returned(v) => Returned(if v != "" then v else VersionNotFound)
  }

  /** The XML stage answers "version not found" only when every manifest it
      read gave an empty candidate, and otherwise one of the candidates. */
  lemma XmlStageAnswers(site: Site, base: string)
    requires XmlScan(site, base, ManifestPaths, "").value.Returned?
    ensures var cs := Candidates(site, base, ManifestPaths); var w := XmlAnswer(XmlScan(site, base, ManifestPaths, "").value).value;
      (forall j :: 0 <= j < |cs| ==> cs[j] == Returned("")) ==> w == VersionNotFound
    ensures var cs := Candidates(site, base, ManifestPaths); var w := XmlAnswer(XmlScan(site, base, ManifestPaths, "").value).value;
      w == VersionNotFound ==> (forall j :: 0 <= j < |cs| ==> cs[j] == Returned("")) || Returned(VersionNotFound) in cs
    ensures var cs := Candidates(site, base, ManifestPaths); var w := XmlAnswer(XmlScan(site, base, ManifestPaths, "").value).value;
      w != VersionNotFound ==> Returned(w) in cs
  {
    XmlScanFoldsCandidates(site, base, ManifestPaths, "");
    KeepAllKeepsACandidate("", Candidates(site, base, ManifestPaths));
  }

  /** `get_version`: the waterfall, then the XML stage. */
  function GetVersionSpec(site: Site, base: string): Probed<Outcome<string>> {
    var c := Cascade(site, base, Stages);
    match c.value
    case Raised => Probed(Raised, c.log)
    case Returned(Some(v)) => Probed(Returned(v), c.log)
    case Returned(None) =>
      var x := XmlScan(site, base, ManifestPaths, "");
      Probed(XmlAnswer(x.value), c.log + x.log)
  }

  /** The XML loop, updating the kept version manifest by manifest. */
  method ScanManifests(site: Site, base: string, paths: seq<string>) returns (r: Outcome<string>, log: seq<string>)
    ensures Probed(r, log) == XmlScan(site, base, paths, "")
  {
    var version := "";
    log := [];
    assert paths[0..] == paths;
    for i := 0 to |paths|
      invariant XmlScan(site, base, paths, "") ==
        Probed(XmlScan(site, base, paths[i..], version).value, log + XmlScan(site, base, paths[i..], version).log)
    {
      assert paths[i..][1..] == paths[i + 1..];
      var u := base + paths[i];
      var response := site.Fetch(u);
      if response.None? || !Accepted(response.value.status) {
        return Returned(version), log + [u];
      }
      var temp := Candidate(response.value.body);
      if temp.Raised? {
        return Raised, log + [u];
      }
      var next := Keep(version, temp.value);
      if next.Raised? {
        return Raised, log + [u];
      }
      AppendAssoc(log, [u], XmlScan(site, base, paths[i + 1..], next.value).log);
      log := log + [u];
      version := next.value;
    }
    assert paths[|paths|..] == [];
    assert log + [] == log;
    return Returned(version), log;
  }

  method GetVersion(site: Site, base: string) returns (r: Outcome<string>, log: seq<string>)
    ensures Probed(r, log) == GetVersionSpec(site, base)
  {
    var c := Cascade(site, base, Stages);
    log := c.log;
    match c.value
    case Raised => r := Raised;
    case Returned(Some(v)) => r := Returned(v);
    case Returned(None) =>
      var x, more := ScanManifests(site, base, ManifestPaths);
      r := XmlAnswer(x);
      log := log + more;
  }

  // ---------------------------------------------------------------------
  // `detect`

  function DetectSpec(site: Site, base: string, urls: seq<string>, oracle: Option<string>): Probed<Outcome<(string, string)>> {
    var answer := IsJoomlaSpec(site, base, urls, oracle);
    match answer.value
    case Raised => Probed(Raised, answer.log)
    case Returned(false) => Probed(Returned(("False", NotJoomla)), answer.log)
    case Returned(true) =>
      var g := GetVersionSpec(site, base);
      Probed(match g.value case Raised => Raised case Returned(v) => Returned(("True", v)), answer.log + g.log)
  }

  /** The two shapes of the verdict: ('True', version) exactly when
      `is_joomla` answered True, and the fixed negative pair otherwise. */
  lemma DetectVerdicts(site: Site, base: string, urls: seq<string>, oracle: Option<string>)
    ensures var d := DetectSpec(site, base, urls, oracle).value; var answer := IsJoomlaSpec(site, base, urls, oracle).value;
      d.Returned? ==> (d.value.0 == "True" <==> answer == Returned(true)) && (d.value.0 != "True" ==> d.value == ("False", NotJoomla))
    ensures var d := DetectSpec(site, base, urls, oracle).value; var g := GetVersionSpec(site, base).value;
      d.Returned? && d.value.0 == "True" ==> g == Returned(d.value.1)
  {
  }

  class JoomlaDetector {
    var domain: string

    constructor (d: string)
      ensures domain == d
    {
      domain := d;
    }

    /** `detect`, on the paths given or the default ones. `base` is where
        `http://<domain>` redirects and `oracle` the oracle's answer for the
        domain; retries, time-out, proxies and the aggressive mode only
        shape the requests and are not modelled. */
    method Detect(site: Site, base: string, urls: Option<seq<string>>, oracle: Option<string>)
      returns (r: Outcome<(string, string)>, log: seq<string>)
      ensures Probed(r, log) == DetectSpec(site, base, if urls.None? then DetectableUrls else urls.value, oracle)
    {
      var paths := if urls.None? then DetectableUrls else urls.value;
      var answer;
      answer, log := IsJoomla(site, base, paths, oracle);
      if answer == Returned(true) {
        var v, more := GetVersion(site, base);
        log := log + more;
        r := if v.Raised? then Raised else Returned(("True", v.value));
      } else if answer == Returned(false) {
        r := Returned(("False", NotJoomla));
      } else {
        r := Raised;
      }
    }
  }
}
