/** Which of the words the WordPress url loop tests for the default paths
    contain. Kept apart from the detector so that each fact is proved against
    the string library alone. */
module WordPressPaths {
  import opened PyStr

  // The default candidate paths of the WordPress detector.
  const AdminPath := "/wp-admin"
  const RssPath := "/feed"
  const AtomPath := "/feed/atom"
  const OpmlPath := "/wp-links-opml.php"
  const LicensePath := "/license.txt"
  const ReadmePath := "/readme.html"
  const UpgradePath := "/wp-admin/upgrade.php"
  const RobotsPath := "/robots.txt"

  /** The default atom path names feed and atom but none of the other tested words. */
  lemma AtomPathTests()
    ensures Contains(AtomPath, "feed") && Contains(AtomPath, "atom") && !Contains(AtomPath, "wp-admin")
    ensures !Contains(AtomPath, "licence") && !Contains(AtomPath, "readme") && !Contains(AtomPath, "wp-links-opml")
    ensures !Contains(AtomPath, "upgrade") && !Contains(AtomPath, "admin") && !Contains(AtomPath, "robots")
  {
    assert Contains(AtomPath, "feed") by { assert OccursAt(AtomPath, "feed", 1); }
    assert Contains(AtomPath, "atom") by { assert OccursAt(AtomPath, "atom", 6); }
    assert !Contains(AtomPath, "wp-admin") by { AbsentChar(AtomPath, "wp-admin", 0); }
    assert !Contains(AtomPath, "licence") by { AbsentChar(AtomPath, "licence", 0); }
    AtomPathAvoidsLaterBranches();
    assert !Contains(AtomPath, "readme") by { AbsentChar(AtomPath, "readme", 0); }
  }

  /** The atom path names none of the words of the opml, upgrade, admin and robots branches. */
  lemma AtomPathAvoidsLaterBranches()
    ensures !Contains(AtomPath, "wp-links-opml") && !Contains(AtomPath, "upgrade") && !Contains(AtomPath, "admin") && !Contains(AtomPath, "robots")
  {
    assert !Contains(AtomPath, "wp-links-opml") by { AbsentChar(AtomPath, "wp-links-opml", 0); }
    assert !Contains(AtomPath, "upgrade") by { AbsentChar(AtomPath, "upgrade", 0); }
    assert !Contains(AtomPath, "admin") by { AbsentChar(AtomPath, "admin", 3); }
    assert !Contains(AtomPath, "robots") by { AbsentChar(AtomPath, "robots", 0); }
  }

  /** The default rss path names feed but not atom, nor any other tested word. */
  lemma RssPathTests()
    ensures Contains(RssPath, "feed") && !Contains(RssPath, "atom") && !Contains(RssPath, "wp-admin")
    ensures !Contains(RssPath, "licence") && !Contains(RssPath, "readme") && !Contains(RssPath, "wp-links-opml")
    ensures !Contains(RssPath, "upgrade") && !Contains(RssPath, "admin") && !Contains(RssPath, "robots")
  {
    assert Contains(RssPath, "feed") by { assert OccursAt(RssPath, "feed", 1); }
    assert !Contains(RssPath, "atom") by { AbsentChar(RssPath, "atom", 0); }
    assert !Contains(RssPath, "wp-admin") by { AbsentChar(RssPath, "wp-admin", 0); }
    assert !Contains(RssPath, "licence") by { AbsentChar(RssPath, "licence", 0); }
    assert !Contains(RssPath, "readme") by { AbsentChar(RssPath, "readme", 0); }
    assert !Contains(RssPath, "wp-links-opml") by { AbsentChar(RssPath, "wp-links-opml", 0); }
    assert !Contains(RssPath, "upgrade") by { AbsentChar(RssPath, "upgrade", 0); }
    assert !Contains(RssPath, "admin") by { AbsentChar(RssPath, "admin", 0); }
    assert !Contains(RssPath, "robots") by { AbsentChar(RssPath, "robots", 0); }
  }

  /** The default robots.txt path names robots and none of the other tested words. */
  lemma RobotsPathTests()
    ensures Contains(RobotsPath, "robots")
    ensures !Contains(RobotsPath, "licence") && !Contains(RobotsPath, "readme") && !Contains(RobotsPath, "feed")
    ensures !Contains(RobotsPath, "wp-links-opml") && !Contains(RobotsPath, "upgrade") && !Contains(RobotsPath, "admin")
  {
    assert Contains(RobotsPath, "robots") by { assert OccursAt(RobotsPath, "robots", 1); }
    assert !Contains(RobotsPath, "licence") by { AbsentChar(RobotsPath, "licence", 2); }
    assert !Contains(RobotsPath, "readme") by { AbsentChar(RobotsPath, "readme", 3); }
    RobotsPathAvoidsMiddleBranches();
    assert !Contains(RobotsPath, "feed") by { AbsentChar(RobotsPath, "feed", 0); }
  }

  /** The robots path names none of the words of the opml, upgrade and admin branches. */
  lemma RobotsPathAvoidsMiddleBranches()
    ensures !Contains(RobotsPath, "wp-links-opml") && !Contains(RobotsPath, "upgrade") && !Contains(RobotsPath, "admin")
  {
    assert !Contains(RobotsPath, "wp-links-opml") by { AbsentChar(RobotsPath, "wp-links-opml", 0); }
    assert !Contains(RobotsPath, "upgrade") by { AbsentChar(RobotsPath, "upgrade", 0); }
    assert !Contains(RobotsPath, "admin") by { AbsentChar(RobotsPath, "admin", 0); }
  }

  /** The default readme path names readme and none of the other tested words. */
  lemma ReadmePathTests()
    ensures Contains(ReadmePath, "readme")
    ensures !Contains(ReadmePath, "licence") && !Contains(ReadmePath, "feed") && !Contains(ReadmePath, "wp-links-opml")
    ensures !Contains(ReadmePath, "upgrade") && !Contains(ReadmePath, "admin") && !Contains(ReadmePath, "robots")
  {
    assert Contains(ReadmePath, "readme") by { assert OccursAt(ReadmePath, "readme", 1); }
    assert !Contains(ReadmePath, "licence") by { AbsentChar(ReadmePath, "licence", 2); }
    assert !Contains(ReadmePath, "feed") by { AbsentChar(ReadmePath, "feed", 0); }
    ReadmePathAvoidsLaterBranches();
    assert !Contains(ReadmePath, "wp-links-opml") by { AbsentChar(ReadmePath, "wp-links-opml", 0); }
  }

  /** The readme path names none of the words of the upgrade, admin and robots branches. */
  lemma ReadmePathAvoidsLaterBranches()
    ensures !Contains(ReadmePath, "upgrade") && !Contains(ReadmePath, "admin") && !Contains(ReadmePath, "robots")
  {
    assert !Contains(ReadmePath, "upgrade") by { AbsentChar(ReadmePath, "upgrade", 0); }
    assert !Contains(ReadmePath, "admin") by { AbsentChar(ReadmePath, "admin", 3); }
    assert !Contains(ReadmePath, "robots") by { AbsentChar(ReadmePath, "robots", 2); }
  }

  /** The upgrade page names both upgrade and admin, so it feeds the upgrade
      and the admin branch, and none of the other tested words. */
  lemma UpgradePathTests()
    ensures Contains(UpgradePath, "upgrade") && Contains(UpgradePath, "admin")
    ensures !Contains(UpgradePath, "licence") && !Contains(UpgradePath, "readme") && !Contains(UpgradePath, "feed")
    ensures !Contains(UpgradePath, "wp-links-opml") && !Contains(UpgradePath, "robots")
  {
    assert Contains(UpgradePath, "upgrade") by { assert OccursAt(UpgradePath, "upgrade", 10); }
    assert Contains(UpgradePath, "admin") by { assert OccursAt(UpgradePath, "admin", 4); }
    UpgradePathAvoidsOtherBranches();
  }

  /** The upgrade path names none of the words of the licence, readme, feed, opml and robots branches. */
  lemma UpgradePathAvoidsOtherBranches()
    ensures !Contains(UpgradePath, "licence") && !Contains(UpgradePath, "readme") && !Contains(UpgradePath, "feed") && !Contains(UpgradePath, "wp-links-opml") && !Contains(UpgradePath, "robots")
  {
    assert !Contains(UpgradePath, "licence") by { AbsentChar(UpgradePath, "licence", 2); }
    assert !Contains(UpgradePath, "readme") by { PairAbsent(UpgradePath, "readme"); }
    assert !Contains(UpgradePath, "feed") by { AbsentChar(UpgradePath, "feed", 0); }
    assert !Contains(UpgradePath, "wp-links-opml") by { AbsentChar(UpgradePath, "wp-links-opml", 6); }
    assert !Contains(UpgradePath, "robots") by { AbsentChar(UpgradePath, "robots", 1); }
  }
}
