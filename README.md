# CMS detectors: the decision logic, modelled and proved in Dafny

The system works out which content-management platform a web domain runs (WordPress, Joomla!, Drupal or Squarespace) and, where it can, which version. It sends a few HTTP requests and matches known strings, headers and markup in the answers. This project models the decision logic of the four detectors:

- **WordPress**: the PHP-version table; delimiter-bounded version extraction with digit/dot validation; keyword counting; the signal list and its "two positives" reduction; the candidate-path loop.
- **Joomla!**: the probe loop and the outside-oracle fallback; the marker waterfall over four pages; the XML-manifest stage.
- **Drupal**: the header check; the resource check; the probe loop that skips failures; the version rule.
- **Squarespace**: URL normalisation; the two marker predicates; the quote-split template extractor.

Files:

- `probe.dfy` (module `Probe`): what the detectors see of the web.
  - A `Site` is a fixed table from absolute URL to `Response`. A URL missing from it is a failed request (the fetcher's None).
  - Every probing operation returns `Probed(value, log)`, where the log is the URLs requested, in order. That makes short-circuiting observable.
  - `Outcome` is `Returned(v)`, or `Raised` when a Python exception escapes.
  - An HTML page is parsed into an abstract element list.
- `pystr.dfy` (module `PyStr`): the Python string operations the detectors use, with their lemmas. These are `find`, `in`, slicing with clamping, `split`, `strip`, `lower`, string `<` and `list.index`.
- `wordpress.dfy`, `wppaths.dfy`, `joomla.dfy`, `drupal.dfy`, `squarespace.dfy`: one module per detector (`wppaths.dfy` holds facts about the literal default WordPress paths).

The request loops and the step-by-step list building of the source are methods with loop invariants, each proved equal to a specification function (`…Spec`, `ProbeLoop`, `UrlScan`, `XmlScan`, …). The properties the program promises are then proved about those functions. Two kinds of loop are modelled as values instead, because they only compute a value:

- the character-validation loops of the WordPress version logic (wordpress/wpdetector.py:293, 312, 322) are the quantified predicate `IsVersionText`;
- the script and image loops of the WordPress resource check (wordpress/wpdetector.py:107, 113) are the recursive function `TagHits`.

Each detector is a class. The WordPress, Drupal and Squarespace `detect` methods write the remembered domain (the source's `self._domain`). Joomla's detector keeps the domain its constructor is given, but nothing in the model reads that field: the domain enters Joomla's model only through the `base` input (the redirect target of `http://<domain>`) and the `oracle` input (the answer of the lookup service for the domain).

Where the code behaves otherwise than its documentation suggests, the model follows the code:

- **Status tests.** `('200' or '403')` and `('200' or '403' or '401')` evaluate to `'200'`, so Joomla! and Drupal accept status 200 only, not {200, 401, 403}. Squarespace's `is not (200 or 403)` is likewise a test against 200. WordPress compares with `'200'` itself. Drupal's path branch tests the truth value of the response, which is false for a 4xx or 5xx status. See `Joomla.RefusedProbeEndsSearch`, `Drupal.RefusedPagesGiveNo` and `Squarespace.RefusedHomePageIsNo`.
- **Drupal's url loop** skips a failed or refused probe instead of stopping.
- **Header tests are case-sensitive.** "Drupal" is matched in X-Generator and "Squarespace" in Server.
- **Missing delimiters raise.** A missing `<version>` tag or template token raises instead of giving "no match". Joomla's `detect` lets that exception escape (`Raised`). Squarespace's `detect` catches it and gives its negative verdict.
- **"version not found"** is Joomla's answer when the kept manifest version is empty. That covers more cases than "no manifest answered".
- **WordPress's no-url check** reads the headers of the https answer before testing it for None. A failed home page therefore raises, and `is_wordpress` swallows the exception, giving None.

## Model

| member | source | states |
|---|---|---|
| WordPress.FindVersionByPhp | wordpress/wpdetector.py:47-70 | at most one signal, every one flagged True; a missing X-Powered-By header, or one without '/', gives the empty list; it raises exactly when the major is 7, 5 or 4 with no minor part |
| WordPress.TableLookupByMajor | wordpress/wpdetector.py:54-68 | the PHP table's answer per major: 7 gives "probably 5.4" for minor "3", else "5.2 or higher"; 5 gives "3.2 or higher" for minor <= "2" as strings, else "5 or higher"; 4 gives "2.5-3.1" for "3", "2-2.3" for "2", else nothing |
| WordPress.FindVersionByPhpFollowsTable | wordpress/wpdetector.py:49-69 | the branching code equals the explicit table lookup on every header, an unlisted major giving no signal |
| WordPress.PhpFieldOfPlainHeader | wordpress/wpdetector.py:49 | the header `PHP/<v>` announces the PHP version `v` |
| WordPress.PhpFiveByMinor | wordpress/wpdetector.py:59-63 | PHP 5.m is classified by the string comparison m <= "2" |
| WordPress.PhpFiveTenReadsAsOld | wordpress/wpdetector.py:60-61 | PHP 5.10 is taken for "3.2 or higher", because "10" <= "2" as strings |
| WordPress.DetectedVersionsAreValidated | wordpress/wpdetector.py:288-328 | any version text other than the sentinel comes with flag True and consists of digits and dots only |
| WordPress.InvalidCandidateDegrades | wordpress/wpdetector.py:312-314 | a candidate with any character other than a digit or '.' degrades to (True, sentinel) |
| WordPress.FeedVersion | wordpress/wpdetector.py:299-310 | a feed page has no candidate exactly when it lacks the marker of its kind: `wordpress.org/" version="` for an atom url, "?v=" otherwise |
| WordPress.DetectVersionLogic | wordpress/wpdetector.py:280-330 | no answer (the caught exception) only for an opml url naming neither wp-admin nor feed, on a page holding the OPML marker; see also `VersionLogicFailsOnlyOnOpml`, `AdminJudgedByPageAlone`, `AtomFeedExtracts`, `RssFeedExtracts` and `AdminMarkerExtracts` |
| WordPress.VersionLogicFailsOnlyOnOpml | wordpress/wpdetector.py:287-330 | the version logic gives None exactly for an opml url, naming neither wp-admin nor feed, on a page holding the OPML marker |
| WordPress.AdminMarkerExtracts | wordpress/wpdetector.py:288-296 | for a wp-admin url, the candidate starts one character past the first generator marker and ends at the next apostrophe |
| WordPress.AtomFeedExtracts | wordpress/wpdetector.py:301-305 | for an atom feed url, the candidate is the text between the first `wordpress.org/" version="` and the next '"' |
| WordPress.AtomFeedExample | wordpress/wpdetector.py:299-315 | a /feed/atom page with `wordpress.org/" version="6.1"` yields (True, "6.1") |
| WordPress.RssFeedExtracts | wordpress/wpdetector.py:306-310 | for another feed url, the candidate is the text between the first "?v=" and the next '<' |
| WordPress.AdminTestComesFirst | wordpress/wpdetector.py:288-297 | a wp-admin url with no generator marker on the page gives (False, sentinel), whatever feed markers the page has |
| WordPress.AdminJudgedByPageAlone | wordpress/wpdetector.py:288-299 | any two urls naming wp-admin read every page alike, whatever else they name (feed, atom, wp-links-opml), and always give an answer |
| WordPress.UnrecognisedUrlYieldsNothing | wordpress/wpdetector.py:328 | a url naming none of wp-admin, feed and wp-links-opml yields (False, sentinel) |
| WordPress.OpmlMarkerYieldsNone | wordpress/wpdetector.py:316-321 | with the page as one string, a found OPML marker always leads to the caught IndexError (None) |
| WordPress.TagHits | wordpress/wpdetector.py:107-118 | at most one signal per element, every one (True, sentinel) |
| WordPress.TagHitsFindResource | wordpress/wpdetector.py:107-118 | a tag yields a signal exactly when some element with that tag has a non-empty src mentioning wp-content |
| WordPress.ResourceSignals | wordpress/wpdetector.py:96-121 | every signal is (True, sentinel); a page that does not parse gives none |
| WordPress.ResourceSignalsFindResource | wordpress/wpdetector.py:102-121 | a parsed page gives a signal exactly when one of its scripts or images has a src mentioning wp-content |
| WordPress.KeywordFlagIsMajority | wordpress/wpdetector.py:153-166 | the no-url flag is set exactly when at least 3 of the 5 keywords occur, only "wordpress" being matched on the lower-cased page |
| WordPress.AdminCountAtMostFour | wordpress/wpdetector.py:226-237 | the admin count, where wp-content and wordpress share one point, is at most 4 |
| WordPress.RobotsHits | wordpress/wpdetector.py:241-244 | at most one positive signal per robots path, all of them (True, sentinel) |
| WordPress.Positives | wordpress/wpdetector.py:249-251 | the kept signals are signals of the list and all positive |
| WordPress.FirstConcrete | wordpress/wpdetector.py:252-256 | the chosen signal is in the list and lacks "version"; no choice means no signal lacks it |
| WordPress.FirstConcreteIsFirst | wordpress/wpdetector.py:252-256 | the chosen signal is the first one lacking "version" |
| WordPress.VerdictNeedsTwoPositives | wordpress/wpdetector.py:247-259 | the reduced flag is True exactly when at least two positive signals exist; fewer gives (False, sentinel) |
| WordPress.VerdictPrefersFirstConcrete | wordpress/wpdetector.py:252-258 | with two or more positives, the answer is the first positive signal lacking "version", else (True, sentinel) |
| WordPress.SinglePositiveIsNotDetected | wordpress/wpdetector.py:247-259 | a single positive signal, however specific, yields "not detected" |
| WordPress.ConcreteBeatsAmbiguous | wordpress/wpdetector.py:252-256 | (True, "4.9") wins over a later (True, sentinel) |
| WordPress.NoneEntrySpoilsReduction | wordpress/wpdetector.py:249-250 | a None entry anywhere in the list makes the reduction give no answer |
| WordPress.CollectPositives | wordpress/wpdetector.py:247-251 | the first loop collects the positive entries in order, and fails exactly when an entry is None |
| WordPress.Reduce | wordpress/wpdetector.py:247-259 | the two reduction loops compute the specified verdict |
| WordPress.StandaloneSpec | wordpress/wpdetector.py:332-357 | the standalone probe: the version-detectable paths, then the pick among the positive outcomes; characterised by `StandaloneAnswersPositively` |
| WordPress.StandaloneAnswersPositively | wordpress/wpdetector.py:339-357 | None exactly when a path fails over both schemes, an outcome is None or no outcome is positive; otherwise one of the positive outcomes, naming a version unless none of them does |
| WordPress.StandaloneFetch | wordpress/wpdetector.py:339-346 | the version-detectable paths are fetched in order (https, then http); a path failing over both raises |
| WordPress.Standalone | wordpress/wpdetector.py:337-355 | the standalone version probe picks the first positive result lacking "version", else the last positive one |
| WordPress.GetVersion | wordpress/wpdetector.py:270-276 | an empty page or url goes to the standalone probe, otherwise the version logic reads the page |
| WordPress.LicenceCheck | wordpress/wpdetector.py:197-210 | a licence url with status 200 and two or three licence passages adds the version logic's entry |
| WordPress.ReadmeCheck | wordpress/wpdetector.py:211-215 | a readme url answered with 200 under a readme URL adds the logo signal, if any, and one negative signal |
| WordPress.FeedCheck | wordpress/wpdetector.py:216-218 | a feed url answered with 200 under a feed URL adds the version logic's entry |
| WordPress.OpmlCheck | wordpress/wpdetector.py:219-220 | an opml url answered under an opml URL adds the version logic's entry, whatever the status |
| WordPress.UpgradeCheck | wordpress/wpdetector.py:221-224 | an upgrade url answered under an upgrade URL adds the logo signal, if any, and one negative signal |
| WordPress.AdminCount | wordpress/wpdetector.py:226-236 | the admin branch's count is the specified keyword count |
| WordPress.AdminCheck | wordpress/wpdetector.py:225-239 | an admin url adds a positive signal for 3 or more keyword groups, then always the wp-admin version entry |
| WordPress.PathHits | wordpress/wpdetector.py:242-244 | the robots loop adds one positive signal per path the page mentions |
| WordPress.RobotsCheck | wordpress/wpdetector.py:240-245 | a robots url adds those signals and then one negative signal |
| WordPress.ProbeUrl | wordpress/wpdetector.py:197-245 | the loop body applies the seven independent tests in order |
| WordPress.LicenceBranchNeverFiresForDefaults | wordpress/wpdetector.py:197 | no default path names "licence", so the licence branch never fires for "/license.txt" |
| WordPress.RobotsAppendsOneNegative | wordpress/wpdetector.py:240-245 | a path taking only the robots branch adds its positives and exactly one negative signal |
| WordPress.ReadmeAppendsOneNegative | wordpress/wpdetector.py:211-215 | a path taking only the readme branch adds the logo signal, if any, and exactly one negative signal |
| WordPress.FeedAppendsVersionEntry | wordpress/wpdetector.py:216-218 | a path taking only the feed branch adds exactly one entry, the version logic's, when answered with 200 under a feed URL, and none otherwise |
| WordPress.OpmlAppendsVersionEntry | wordpress/wpdetector.py:219-220 | a path taking only the opml branch adds exactly one entry, the version logic's, when the final URL names wp-links-opml, whatever the status, and none otherwise |
| WordPress.DefaultFeedPathsAppendVersionEntry | wordpress/wpdetector.py:10 | the default "/feed" and "/feed/atom" paths take the feed branch alone |
| WordPress.StatusGatesThreeBranches | wordpress/wpdetector.py:197-245 | only the licence, readme and feed branches read the status: any status but 200 silences them, and the opml, upgrade, admin and robots branches add the same entries whatever the status |
| WordPress.TwoBranchesOnly | wordpress/wpdetector.py:197-245 | a path naming upgrade and admin and no other tested word feeds exactly the upgrade branch and then the admin branch |
| WordPress.UpgradeThenAdminEntries | wordpress/wpdetector.py:221-239 | those entries: the logo signal and a negative one when the final URL names upgrade, then the keyword signal, then the version entry read as for wp-admin |
| WordPress.DefaultUpgradePathRunsBothBranches | wordpress/wpdetector.py:8 | the default "/wp-admin/upgrade.php" path runs both the upgrade and the admin branch, with those entries |
| WordPress.DefaultRobotsPathAppendsOneNegative | wordpress/wpdetector.py:8 | the default "/robots.txt" path takes the robots branch alone |
| WordPress.DefaultReadmePathAppendsOneNegative | wordpress/wpdetector.py:8 | the default "/readme.html" path, answered with 200 under a readme URL, takes the readme branch alone |
| WordPressPaths.AtomPathTests | wordpress/wpdetector.py:197-301 | "/feed/atom" names feed and atom and none of licence, readme, wp-links-opml, upgrade, admin, robots and wp-admin |
| WordPressPaths.AtomPathAvoidsLaterBranches | wordpress/wpdetector.py:219-240 | "/feed/atom" names none of wp-links-opml, upgrade, admin and robots |
| WordPressPaths.RssPathTests | wordpress/wpdetector.py:197-301 | "/feed" names feed and none of atom, wp-admin, licence, readme, wp-links-opml, upgrade, admin and robots |
| WordPressPaths.RobotsPathTests | wordpress/wpdetector.py:197-240 | "/robots.txt" names robots and none of licence, readme, feed, wp-links-opml, upgrade and admin |
| WordPressPaths.RobotsPathAvoidsMiddleBranches | wordpress/wpdetector.py:219-225 | "/robots.txt" names none of wp-links-opml, upgrade and admin |
| WordPressPaths.ReadmePathTests | wordpress/wpdetector.py:197-240 | "/readme.html" names readme and none of licence, feed, wp-links-opml, upgrade, admin and robots |
| WordPressPaths.ReadmePathAvoidsLaterBranches | wordpress/wpdetector.py:221-240 | "/readme.html" names none of upgrade, admin and robots |
| WordPressPaths.UpgradePathTests | wordpress/wpdetector.py:197-240 | "/wp-admin/upgrade.php" names upgrade and admin and none of licence, readme, feed, wp-links-opml and robots |
| WordPressPaths.UpgradePathAvoidsOtherBranches | wordpress/wpdetector.py:197-240 | "/wp-admin/upgrade.php" names none of licence, readme, feed, wp-links-opml and robots |
| WordPress.KeywordCount | wordpress/wpdetector.py:150-162 | the no-url count is the specified keyword count |
| WordPress.HomePage | wordpress/wpdetector.py:150-169 | the second home-page reading adds the keyword signal, then the version entry when the generator meta tag names WordPress |
| WordPress.NoUrlSpec | wordpress/wpdetector.py:131-170 | the https home page is requested first; the check raises exactly when that request fails or the PHP lookup raises; a non-200 answer ends it after that one request with a negative signal last |
| WordPress.NoUrlCheck | wordpress/wpdetector.py:131-170 | the no-url check computes its specification, raising on a failed home page |
| WordPress.ProbeUrls | wordpress/wpdetector.py:187-245 | the url loop computes its specification, stopping at the first path that fails over both schemes |
| WordPress.IsWordpress | wordpress/wpdetector.py:181-259 | the url loop, then the no-url check, then the reduction |
| WordPress.LoopStopsAtDoubleFailure | wordpress/wpdetector.py:190-196 | after a path fails over both schemes, no later path is requested or read |
| WordPress.NoUrlCheckRunsAfterFailure | wordpress/wpdetector.py:195-246 | after such a failure the no-url check still runs; its requests follow the loop's |
| WordPress.IsWordpressNeedsTwoPositives | wordpress/wpdetector.py:247-259 | an answer is positive exactly when the collected list has at least two positive signals |
| WordPress.WPDetector.constructor | wordpress/wpdetector.py:15-22 | the detector starts with an empty domain |
| WordPress.WPDetector.Detect | wordpress/wpdetector.py:83-92 | remembers the domain and answers ("WordPress", flag, text) from `is_wordpress` on the given or the default paths, or None |
| Joomla.ProbeLoop | JOOMLADetector.py:79-89 | no more probes than paths; every page but the last one requested let the loop go on; a True comes from the last page; an early stop is caused by the last page |
| Joomla.ProbeLoopRequestsInOrder | JOOMLADetector.py:79-82 | the probes are requested in url order, each path under the base |
| Joomla.ProbeLoopFindsFirstMention | JOOMLADetector.py:79-89 | the loop answers True exactly when some page names "joomla!" (any case) and every page before it answered 200 without it |
| Joomla.Oracle | JOOMLADetector.py:93-96 | the oracle says True exactly when its text contains 'Yes, this is Joomla!'; a failed oracle request raises |
| Joomla.OracleDecidesOtherwise | JOOMLADetector.py:68-96 | whenever the probes do not find Joomla!, the answer is the oracle's, except for a non-200 base page when no path is given |
| Joomla.RefusedProbeEndsSearch | JOOMLADetector.py:68-89 | a first probe answered with 403, 401 or any status but 200 ends the loop after that one request and leaves the answer to the oracle; without paths such a base page is a plain False |
| Joomla.JoomlaLoop | JOOMLADetector.py:79-89 | the loop computes its specification, breaking at the first missing or non-200 page |
| Joomla.IsJoomla | JOOMLADetector.py:66-96 | `is_joomla` computes its specification |
| Joomla.FirstArm | JOOMLADetector.py:112-156 | an if/elif chain takes the first arm whose test holds, and none exactly when no test holds |
| Joomla.ShadowedArmNeverTaken | JOOMLADetector.py:149-156 | an arm testing only texts an earlier arm tests is never taken |
| Joomla.DuplicateIniArmsUnreachable | JOOMLADetector.py:145-156 | en-GB.ini never yields 1.7.1 or 1.7.5 |
| Joomla.Cascade | JOOMLADetector.py:109-156 | the waterfall requests at most one page per stage, and every stage's page when none takes an arm; see `CascadePrecedence` |
| Joomla.CascadePrecedence | JOOMLADetector.py:109-156 | when stage k is the first to take an arm, its version is the answer and no later page is requested |
| Joomla.GetVersionPrecedence | JOOMLADetector.py:109-184 | base page, then system.css, mootools-more.js and en-GB.ini: the first stage that matches decides, and the manifests are not read |
| Joomla.Candidate | JOOMLADetector.py:172-174 | reading a manifest raises exactly when a `<version>` or `</version>` tag is missing |
| Joomla.CandidateBetweenTags | JOOMLADetector.py:172-174 | a manifest in which `<version>` first occurs after `p`, and `</version>` first occurs after the `v` following it, yields exactly `v`, whatever other markup surrounds them |
| Joomla.Keep | JOOMLADetector.py:175-181 | the kept version is the old one or the candidate; with a non-empty kept version it raises exactly when either has fewer than three components |
| Joomla.KeepComparesThirdComponents | JOOMLADetector.py:176-179 | the candidate replaces the kept version only when its third component is strictly greater as a string; a tie keeps the earlier one |
| Joomla.KeepAllKeepsACandidate | JOOMLADetector.py:163-183 | the kept version is empty exactly when every candidate was empty; otherwise it is one of the candidates |
| Joomla.KeepAllKeepsFirstMaximum | JOOMLADetector.py:159-181 | from an empty start, three-component candidates leave the first one with the greatest third component |
| Joomla.KeepAllFromKeepsFirstMaximum | JOOMLADetector.py:163-181 | the same, from a kept version of three components |
| Joomla.KeepOfThreeParts | JOOMLADetector.py:176-179 | two three-component versions are compared on their third components |
| Joomla.KeepAllExample | JOOMLADetector.py:163-181 | manifests announcing 3.4.1, 3.4.5 and 3.4.2 leave 3.4.5 |
| Joomla.XmlScan | JOOMLADetector.py:159-181 | the XML loop requests at most one manifest per path, and raises only after a request; see `XmlScanFoldsCandidates` |
| Joomla.XmlScanFoldsCandidates | JOOMLADetector.py:163-181 | the XML loop's answer is its candidates folded through `Keep`, up to the first missing or non-200 manifest |
| Joomla.XmlStageAnswers | JOOMLADetector.py:182-184 | "version not found" exactly when every candidate read was empty (or a candidate was that text); otherwise one of the candidates |
| Joomla.ScanManifests | JOOMLADetector.py:159-181 | the XML loop computes its specification, updating the kept version manifest by manifest |
| Joomla.GetVersion | JOOMLADetector.py:106-184 | `get_version` computes its specification: the waterfall, then the XML stage |
| Joomla.DetectVerdicts | JOOMLADetector.py:49-55 | ('True', version) exactly when `is_joomla` says True, the version being `get_version`'s; otherwise ('False', 'probably it is not a Joomla! website') |
| Joomla.JoomlaDetector.constructor | JOOMLADetector.py:17-23 | the detector keeps its domain |
| Joomla.JoomlaDetector.Detect | JOOMLADetector.py:45-55 | `detect` on the given or the default paths computes its specification |
| Drupal.VersionOf | drupal/drupaldetector.py:123-127 | 'version 7' exactly for '/sites' or 'drupal 7'; 'version 8' exactly for '/core' without them; otherwise "Could'nt detect version" |
| Drupal.SitesBeatsCore | drupal/drupaldetector.py:123-126 | a page naming both folders reads as version 7 |
| Drupal.GetVersion | drupal/drupaldetector.py:120-127 | the home page's version, raising on a failed request |
| Drupal.HeaderCheck | drupal/drupaldetector.py:153-159 | True exactly when X-Generator contains "Drupal" (case-sensitive); it raises exactly when the header is absent |
| Drupal.ResourcesDetector | drupal/drupaldetector.py:135-145 | True exactly when some script or a element has a truthy data-drupal-selector; an unparsable page gives False |
| Drupal.MentionsFolder | drupal/drupaldetector.py:84-86 | the folder loop is True exactly when some folder occurs in the text |
| Drupal.IsMarked | drupal/drupaldetector.py:82-86 | the body test: "drupal", '/core' or '/sites' in the lower-cased body |
| Drupal.UrlScan | drupal/drupaldetector.py:95-109 | True exactly when some probe answers 200 with a marked body; failed probes are skipped; without a hit every path is requested |
| Drupal.CheckOrder | drupal/drupaldetector.py:90-110 | with paths: the header check, then the resource check, then the url loop; it raises exactly when X-Generator is absent |
| Drupal.IsDrupalSpec | drupal/drupaldetector.py:73-110 | the home page is requested first, then at most one probe per path; None (falling off the end) only without paths; see `CheckOrder` and `NoUrlBranch` |
| Drupal.RefusedPagesGiveNo | drupal/drupaldetector.py:79-103 | a 403 home page gives False with and without paths, and a 403 path probe is skipped |
| Drupal.NoUrlBranch | drupal/drupaldetector.py:74-86 | without paths only a 200 home page can say True, exactly when marked; any other status says False |
| Drupal.ScanUrls | drupal/drupaldetector.py:95-109 | the url loop computes its specification |
| Drupal.IsDrupal | drupal/drupaldetector.py:73-110 | `is_drupal` computes its specification |
| Drupal.DetectVerdicts | drupal/drupaldetector.py:48-62 | positive exactly when `is_drupal` says True (a True answer has read the home page, so the version request for the same page succeeds), its text then a version answer; otherwise 'probably it is not a drupal website' |
| Drupal.DrupalDetector.constructor | drupal/drupaldetector.py:14-21 | the detector starts with an empty domain |
| Drupal.DrupalDetector.Detect | drupal/drupaldetector.py:48-62 | remembers the domain and computes `detect` on the given or the default paths |
| Squarespace.Prefixed | squarespace/squarespacedetector.py:25-28 | a url with a scheme is kept; the result always starts with a scheme |
| Squarespace.StripKeepsLead | squarespace/squarespacedetector.py:29-30 | stripping '/' never touches a leading 'h' |
| Squarespace.FormatUrl | squarespace/squarespacedetector.py:24-31 | `formaturl`; characterised by `FormatUrlStripsTrailing` and `FormatUrlIdempotent` |
| Squarespace.FormatUrlStripsTrailing | squarespace/squarespacedetector.py:24-31 | the result is the prefixed url without its trailing '/'s and never ends with '/'; a url with a scheme and no trailing '/' is kept, another gets 'http://' in front |
| Squarespace.FormatUrlIdempotent | squarespace/squarespacedetector.py:24-31 | formatting again changes nothing while the result still starts with a scheme |
| Squarespace.PublicRouteSearch | squarespace/squarespacedetector.py:83-86 | True exactly when the Squarespace comment, 'templateId' and 'templateVersion' all occur |
| Squarespace.NonPublicRouteSearch | squarespace/squarespacedetector.py:88-90 | True exactly when the Server header contains 'Squarespace'; an absent header raises |
| Squarespace.ServerMatchIsCaseSensitive | squarespace/squarespacedetector.py:89 | a lower-case 'squarespace' Server header does not count |
| Squarespace.IsSquarespaceSpec | squarespace/squarespacedetector.py:58-81 | a url list requests nothing (the falsy fall-through, read as false); otherwise exactly the formatted URL is requested; see `IsSquarespaceAnswers` |
| Squarespace.RefusedHomePageIsNo | squarespace/squarespacedetector.py:73-76 | a 403 (or any non-200) home page gives False after one request, and the negative verdict |
| Squarespace.IsSquarespaceAnswers | squarespace/squarespacedetector.py:67-81 | True exactly for a 200 page passing the public check or, failing it, the Server check; it raises on a failed request or a missing Server header |
| Squarespace.TemplateInfo | squarespace/squarespacedetector.py:102-108 | raises exactly when a token is missing or too near the end; otherwise the answer holds a ',' |
| Squarespace.SplitQuoteJoined | squarespace/squarespacedetector.py:103 | splitting quote-free pieces, each followed by a quote, gives those pieces first |
| Squarespace.TemplateInfoReadsPair | squarespace/squarespacedetector.py:102-108 | a page `<pre>"templateId":"<id>","templateVersion":"<version>"<post>` gives `<id>,<version>` whenever neither token is already a quote-separated piece of `pre` |
| Squarespace.GetInfoSpec | squarespace/squarespacedetector.py:96-110 | only `http://<domain>` is requested; a failed request or a non-200 status gives False (None); it raises exactly when the 200 page's template tokens cannot be read; an answer holds a ',' |
| Squarespace.TemplateInfoNeedsVersion | squarespace/squarespacedetector.py:104 | a page without the templateVersion token raises |
| Squarespace.DetectVerdicts | squarespace/squarespacedetector.py:44-55 | positive exactly when both steps succeed, with an id,version text; a raising `get_info` gives "Not running on SquareSpace platform", a False one "could'nt establish a connection"; a url list gives the negative verdict |
| Squarespace.SquarespaceDetector.constructor | squarespace/squarespacedetector.py:8-10 | the detector starts with an empty domain |
| Squarespace.SquarespaceDetector.Detect | squarespace/squarespacedetector.py:44-55 | remembers the domain and computes `detect` |

## Left out

- HTTP is not modelled: retries, time-outs, proxies (the `Proxy` wrapping in every constructor) and the aggressive mode only shape the requests. The fetcher is a fixed table, so one URL always gets the same answer, including when the program requests it twice.
- Header names are looked up by exact key. `requests` looks them up case-insensitively.
- Joomla's base URL is a `base` input. The program gets it by following the redirects of `http://<domain>` with `requests.get`, once in `is_joomla` and again in `get_version`; the model takes both to give the same URL.
- The jornot.com oracle request is not modelled; only the oracle's answer text (or a failed request) is an input.
- HTML parsing (BeautifulSoup, `find_all`) is not modelled: a response carries an abstract `Option<seq<Element>>`, and None means the parser failed. `urljoin` is left out: a WordPress resource's `src` is tested as written.
- A page body is one string. `str(response.content)` (the bytes' repr), `response.text` and `response.content` itself are not told apart. In the program, `__detect_version_logic` is always given `response.content`, which is bytes (wordpress/wpdetector.py:168, 210, 218, 220, 239, 346). Its wp-admin branch searches those bytes with a `str` argument (`data.find("'", …)`, wordpress/wpdetector.py:291), which raises a TypeError, and the `except` at wordpress/wpdetector.py:329-330 turns that into None.
- WordPress.AdminMarkerExtracts: states the extraction on the one-string body. In the program, a wp-admin page that holds the generator marker raises a TypeError on the bytes and gives None, never a version; a version is extracted only on the one-string reading. `WordPress.AdminJudgedByPageAlone` and `WordPress.DetectVersionLogic` likewise answer where the program gives None.
- `lower()` and `isdigit()` are ASCII-only.
- WordPress.OpmlMarkerYieldsNone: the OPML extraction is modelled on the one-string body only. Its outcome on the real bytes repr is not captured.
- WordPress.IsWordpress: because the OPML extraction gives None on the one-string body, `IsWordpress` and `WPDetector.Detect` answer None (through `NoneEntrySpoilsReduction`) for every site whose `/wp-links-opml.php` page holds `generator="WordPress/`, which is WordPress's stock OPML output, and `/wp-links-opml.php` is a default path. In the program the slice `data[start_index + 7:end]` is taken from the bytes with offsets found in their repr `str(data)`, so the three bytes it takes lie further on by two (the `b'` of the repr) plus one for every escaped character before the marker, such as a newline. `str` of that slice reads `b'…'`, `split("'")[1]` succeeds, and the branch appends a positive signal (True, t) instead: t is those three bytes when they are all digits and dots (a part of the version, such as "6.1" or ".1.", depending on how many escapes precede the marker), and the sentinel otherwise.
- Squarespace.FormatUrlIdempotent: requires the result to still start with a scheme. `formaturl("http://")` is `"http:"`, which formats to `"http://http:"`.
- `print` calls, and `is` on integers, which the model reads as `==`.
- `get_platform_name` is not modelled: it returns a constant.
