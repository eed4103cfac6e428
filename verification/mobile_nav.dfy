/**
 * The mobile header menu: its four links and the open/closed state that the
 * menu button, the overlay and the links change.
 */
module MobileNav {
  import opened NavLinks

  const MobileItems: seq<NavItem> := [
    NavItem("Home", "/"),
    NavItem("New Interview", "/interview"),
    NavItem("Scheduled", "/#scheduled"),
    NavItem("History", "/#history")
  ]

  /** At most one menu link is highlighted, whatever the pathname. */
  lemma MobileAtMostOneActive(pathname: string)
    ensures |MobileItems| == 4
    ensures |ActiveLabels(MobileItems, pathname)| <= 1
  {
    forall i, j | 0 <= i < |MobileItems| && 0 <= j < |MobileItems| && i != j
      ensures && MobileItems[i].href != MobileItems[j].href
              && (MobileItems[i].href != "/" ==> !(MobileItems[i].href <= MobileItems[j].href))
    {
      var a, b := MobileItems[i].href, MobileItems[j].href;
      if i == 0 || j == 0 {
        assert |a| != |b|;
      } else if (i == 2 && j == 3) || (i == 3 && j == 2) {
        DifferAt(a, b, 2);
      } else {
        DifferAt(a, b, 1);
      }
    }
    UnrelatedLinksExclusive(MobileItems, pathname);
    ExclusiveAtMostOneActive(MobileItems, pathname);
  }

  /** The `isOpen` state of the menu. */
  class Menu {
    var isOpen: bool

    /** The menu starts closed. */
    constructor ()
      ensures !isOpen
    {
      isOpen := false;
    }

    /** The overlay is rendered only while the menu is open. */
    predicate OverlayShown()
      reads this
    {
      isOpen
    }

    /** The menu button: `setIsOpen(!isOpen)`. */
    method ToggleButton()
      modifies this
      ensures isOpen == !old(isOpen)
    {
      isOpen := !isOpen;
    }

    /** A click on the overlay, which exists only while open, closes the menu. */
    method ClickOverlay()
      requires OverlayShown()
      modifies this
      ensures !isOpen && !OverlayShown()
    {
      isOpen := false;
    }

    /** A click on any menu link navigates to its href and closes the menu. */
    method ClickLink(item: NavItem) returns (target: string)
      modifies this
      ensures !isOpen
      ensures target == item.href
    {
      isOpen := false;
      target := item.href;
    }
  }
}
