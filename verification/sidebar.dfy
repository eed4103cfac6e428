/**
 * The desktop sidebar: its five links, which of them is highlighted for the
 * current pathname, and the fallbacks shown for a user without a name or email.
 */
module Sidebar {
  import opened Wrappers
  import opened NavLinks

  const SidebarItems: seq<NavItem> := [
    NavItem("Home", "/"),
    NavItem("New Interview", "/interview"),
    NavItem("Scheduled", "/#scheduled"),
    NavItem("History", "/#history"),
    NavItem("Analytics", "/analytics")
  ]

  /** The links' hrefs are distinct non-empty keys, and none but "/" starts another. */
  lemma SidebarHrefsUnrelated()
    ensures |SidebarItems| == 5
    ensures forall i :: 0 <= i < |SidebarItems| ==> |SidebarItems[i].href| >= 1
    ensures forall i, j :: 0 <= i < |SidebarItems| && 0 <= j < |SidebarItems| && i != j ==>
              && SidebarItems[i].href != SidebarItems[j].href
              && (SidebarItems[i].href != "/" ==> !(SidebarItems[i].href <= SidebarItems[j].href))
  {
    forall i, j | 0 <= i < |SidebarItems| && 0 <= j < |SidebarItems| && i != j
      ensures && SidebarItems[i].href != SidebarItems[j].href
              && (SidebarItems[i].href != "/" ==> !(SidebarItems[i].href <= SidebarItems[j].href))
    {
      var a, b := SidebarItems[i].href, SidebarItems[j].href;
      if i == 0 || j == 0 {
        assert |a| != |b|;
      } else if (i == 2 && j == 3) || (i == 3 && j == 2) {
        DifferAt(a, b, 2);
      } else {
        DifferAt(a, b, 1);
      }
    }
  }

  /** Whatever the pathname, at most one sidebar link is highlighted. */
  lemma SidebarAtMostOneActive(pathname: string)
    ensures |ActiveLabels(SidebarItems, pathname)| <= 1
  {
    SidebarHrefsUnrelated();
    UnrelatedLinksExclusive(SidebarItems, pathname);
    ExclusiveAtMostOneActive(SidebarItems, pathname);
  }

  /**
   * On "/" only Home is highlighted; "/interview/abc" and, by plain prefix
   * matching, "/interviewx" highlight New Interview.
   */
  lemma SidebarActiveExamples()
    ensures ActiveLabels(SidebarItems, "/") == ["Home"]
    ensures ActiveLabels(SidebarItems, "/interview/abc") == ["New Interview"]
    ensures ActiveLabels(SidebarItems, "/interviewx") == ["New Interview"]
  {
    assert "/interview" <= "/interview/abc";
    assert "/interview" <= "/interviewx";
    DifferAt("/#scheduled", "/interview/abc", 1);
    DifferAt("/#history", "/interview/abc", 1);
    DifferAt("/analytics", "/interview/abc", 1);
    DifferAt("/#scheduled", "/interviewx", 1);
    DifferAt("/#history", "/interviewx", 1);
    DifferAt("/analytics", "/interviewx", 1);
  }

  /** The fragment links Scheduled and History are never highlighted on a router pathname. */
  lemma FragmentLinksNeverActive(pathname: string)
    requires '#' !in pathname
    ensures !IsActive(pathname, SidebarItems[2].href) && !IsActive(pathname, SidebarItems[3].href)
  {
    FragmentLinkInactive(pathname, SidebarItems[2].href, 1);
    FragmentLinkInactive(pathname, SidebarItems[3].href, 1);
  }

  /** The email shown for a user without one. */
  const EmailFallback := "user@example.com"

  /** Neither the name nor the email line of the sidebar is ever blank. */
  lemma ShownIdentityNeverBlank(userName: Option<string>, userEmail: Option<string>)
    ensures OrFallback(userName, NameFallback) != ""
    ensures OrFallback(userEmail, EmailFallback) != ""
  {
  }
}
