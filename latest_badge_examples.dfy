/**
 * The badge rewrite on the pages of the middleware's table test: one lemma
 * per case, stating the exact page the rewrite produces from the exact page
 * it is given.
 */
module LatestBadgeExamples {
  import opened Internal
  import opened LatestBadge

  const Open: string := "\n                <div class=\"DetailsHeader-badge "
  const Middle: string := ">\n                    <span>Latest</span>\n                    <a href=\""
  const Close: string := "\">Go to latest</a>\n                </div>"

  /** A rendered badge: the attribute text after the class, and the link around the version. */
  function BadgePage(attrs: string, hrefHead: string, hrefTail: string): seq<Token>
  {
    [Text(Open), ClassSlot, Text("\"" + attrs + Middle + hrefHead), VersionSlot, Text(hrefTail + Close)]
  }

  /** The text of a badge page with the given class and version texts. */
  lemma RenderBadgePage(attrs: string, hrefHead: string, hrefTail: string, classText: string, versionText: string)
    ensures RenderWith(BadgePage(attrs, hrefHead, hrefTail), classText, versionText)
            == Open + classText + "\"" + attrs + Middle + hrefHead + versionText + hrefTail + Close
  {
    var page := BadgePage(attrs, hrefHead, hrefTail);
    var c, v := classText, versionText;
    assert page[4..][1..] == [];
    assert RenderWith(page[4..], c, v) == hrefTail + Close;
    assert page[3..][1..] == page[4..];
    assert RenderWith(page[3..], c, v) == v + (hrefTail + Close);
    assert page[2..][1..] == page[3..];
    assert RenderWith(page[2..], c, v) == "\"" + attrs + Middle + hrefHead + (v + (hrefTail + Close));
    assert page[1..][1..] == page[2..];
    assert RenderWith(page[1..], c, v) == c + ("\"" + attrs + Middle + hrefHead + (v + (hrefTail + Close)));
    assert RenderWith(page, c, v) == Open + (c + ("\"" + attrs + Middle + hrefHead + (v + (hrefTail + Close))));
  }

  /** The lookup that answers `v` for every badge. */
  function Answer(v: string): LatestFunc
  {
    (packagePath: string, modulePath: string, pageType: string) => v
  }

  /** The rendered page before the rewrite shows both placeholders. */
  lemma BadgePageShowsPlaceholders(attrs: string, hrefHead: string, hrefTail: string)
    ensures Render(BadgePage(attrs, hrefHead, hrefTail))
            == Open + "$$GODISCOVERY_LATESTMINORCLASS$$" + "\"" + attrs + Middle + hrefHead
               + "$$GODISCOVERY_LATESTMINORVERSION$$" + hrefTail + Close
  {
    RenderBadgePage(attrs, hrefHead, hrefTail, ClassPlaceholder, VersionPlaceholder);
  }

  /** A matched badge page after the rewrite: the class and the looked-up version in place. */
  lemma RewriteBadgePage(attrs: string, hrefHead: string, hrefTail: string, badge: BadgeAttrs, latest: string)
    ensures Render(Rewrite(BadgePage(attrs, hrefHead, hrefTail), Some(badge), Answer(latest)))
            == Open + ClassName(Classify(UnescapeEntities(badge.version), latest)) + "\"" + attrs + Middle
               + hrefHead + latest + hrefTail + Close
  {
    var page := BadgePage(attrs, hrefHead, hrefTail);
    var cls := ClassName(Classify(UnescapeEntities(badge.version), latest));
    RenderFill(page, cls, latest);
    RenderBadgePage(attrs, hrefHead, hrefTail, cls, latest);
  }

  const PackageAttrs: string := "\n\t\t\t\t\t data-version=\"v1.0.0\" data-mpath=\"p1/p2\" data-ppath=\"p1/p2/p3\" data-pagetype=\"pkg\""

  /** "package version is not latest" */
  lemma PackageVersionIsNotLatest()
    ensures Render(Rewrite(BadgePage(PackageAttrs, "p1/p2@", "/p3"),
                           Some(BadgeAttrs("v1.0.0", "p1/p2", "p1/p2/p3", "pkg")), Answer("v1.2.3")))
            == Open + "DetailsHeader-badge--goToLatest" + "\"" + PackageAttrs + Middle + "p1/p2@" + "v1.2.3" + "/p3" + Close
  {
    RewriteBadgePage(PackageAttrs, "p1/p2@", "/p3", BadgeAttrs("v1.0.0", "p1/p2", "p1/p2/p3", "pkg"), "v1.2.3");
  }

  const LatestPackageAttrs: string := "\n\t\t\t\t\t data-version=\"v1.2.3\" data-mpath=\"p1/p2\" data-ppath=\"p1/p2/p3\" data-pagetype=\"pkg\""

  /** "package version is latest" */
  lemma PackageVersionIsLatest()
    ensures Render(Rewrite(BadgePage(LatestPackageAttrs, "p1/p2@", "/p3"),
                           Some(BadgeAttrs("v1.2.3", "p1/p2", "p1/p2/p3", "pkg")), Answer("v1.2.3")))
            == Open + "DetailsHeader-badge--latest" + "\"" + LatestPackageAttrs + Middle + "p1/p2@" + "v1.2.3" + "/p3" + Close
  {
    RewriteBadgePage(LatestPackageAttrs, "p1/p2@", "/p3", BadgeAttrs("v1.2.3", "p1/p2", "p1/p2/p3", "pkg"), "v1.2.3");
  }

  /** The escaped build version of the test decodes to the version the lookup returns. */
  lemma DecodeBuildVersion()
    ensures UnescapeEntities("v1.2.3&#43;build") == "v1.2.3+build"
  {
    calc {
      UnescapeEntities("v1.2.3&#43;build");
      { assert "v1.2.3&#43;build" == "v1.2.3" + ("&#43;" + "build"); }
      UnescapeEntities("v1.2.3" + ("&#43;" + "build"));
      { UnescapePlainPrefix("v1.2.3", "&#43;" + "build"); }
      "v1.2.3" + UnescapeEntities("&#43;" + "build");
      { assert "&#43;" == ['&', '#', '4', '3', ';'];
        UnescapeDecimalRef('4', '3', "build"); }
      "v1.2.3" + (['+'] + UnescapeEntities("build"));
      "v1.2.3" + (['+'] + "build");
      "v1.2.3+build";
    }
  }

  const BuildPackageAttrs: string := "\n\t\t\t\t\t data-version=\"v1.2.3&#43;build\" data-mpath=\"p1/p2\" data-ppath=\"p1/p2/p3\" data-pagetype=\"pkg\""

  /**
   * "package version with build is latest": the attribute is compared after
   * decoding, the link gets the undecoded latest version, and the attribute
   * text stays as written.
   */
  lemma PackageVersionWithBuildIsLatest()
    ensures Render(Rewrite(BadgePage(BuildPackageAttrs, "p1/p2@", "/p3"),
                           Some(BadgeAttrs("v1.2.3&#43;build", "p1/p2", "p1/p2/p3", "pkg")), Answer("v1.2.3+build")))
            == Open + "DetailsHeader-badge--latest" + "\"" + BuildPackageAttrs + Middle + "p1/p2@" + "v1.2.3+build" + "/p3" + Close
  {
    DecodeBuildVersion();
    RewriteBadgePage(BuildPackageAttrs, "p1/p2@", "/p3", BadgeAttrs("v1.2.3&#43;build", "p1/p2", "p1/p2/p3", "pkg"), "v1.2.3+build");
  }

  const ModuleAttrs: string := "\n\t\t\t\t\t data-version=\"v1.0.0\" data-mpath=\"p1/p2\" data-ppath=\"\" data-pagetype=\"pkg\""

  /** "module version is not latest": an empty package path is treated like any other. */
  lemma ModuleVersionIsNotLatest()
    ensures Render(Rewrite(BadgePage(ModuleAttrs, "mod/p1/p2@", ""),
                           Some(BadgeAttrs("v1.0.0", "p1/p2", "", "pkg")), Answer("v1.2.3")))
            == Open + "DetailsHeader-badge--goToLatest" + "\"" + ModuleAttrs + Middle + "mod/p1/p2@" + "v1.2.3" + "" + Close
  {
    RewriteBadgePage(ModuleAttrs, "mod/p1/p2@", "", BadgeAttrs("v1.0.0", "p1/p2", "", "pkg"), "v1.2.3");
  }

  const LatestModuleAttrs: string := "\n\t\t\t\t\t data-version=\"v1.2.3\" data-mpath=\"p1/p2\" data-ppath=\"\" data-pagetype=\"pkg\""

  /** "module version is latest" */
  lemma ModuleVersionIsLatest()
    ensures Render(Rewrite(BadgePage(LatestModuleAttrs, "mod/p1/p2@", ""),
                           Some(BadgeAttrs("v1.2.3", "p1/p2", "", "pkg")), Answer("v1.2.3")))
            == Open + "DetailsHeader-badge--latest" + "\"" + LatestModuleAttrs + Middle + "mod/p1/p2@" + "v1.2.3" + "" + Close
  {
    RewriteBadgePage(LatestModuleAttrs, "mod/p1/p2@", "", BadgeAttrs("v1.2.3", "p1/p2", "", "pkg"), "v1.2.3");
  }

  /** "latest func returns empty string": the class is unknown and the version placeholder becomes empty. */
  lemma LatestFuncReturnsEmptyString()
    ensures Render(Rewrite(BadgePage(LatestModuleAttrs, "mod/p1/p2@", ""),
                           Some(BadgeAttrs("v1.2.3", "p1/p2", "", "pkg")), Answer("")))
            == Open + "DetailsHeader-badge--unknown" + "\"" + LatestModuleAttrs + Middle + "mod/p1/p2@" + "" + "" + Close
  {
    RewriteBadgePage(LatestModuleAttrs, "mod/p1/p2@", "", BadgeAttrs("v1.2.3", "p1/p2", "", "pkg"), "");
  }

  /** "no regexp match": a badge without the data attributes leaves the page byte for byte as it was. */
  lemma NoRegexpMatch()
    ensures Render(Rewrite(BadgePage("", "mod/p1/p2@", ""), None, Answer("v1.2.3")))
            == Open + "$$GODISCOVERY_LATESTMINORCLASS$$" + "\"" + "" + Middle + "mod/p1/p2@"
               + "$$GODISCOVERY_LATESTMINORVERSION$$" + "" + Close
  {
    BadgePageShowsPlaceholders("", "mod/p1/p2@", "");
  }
}
