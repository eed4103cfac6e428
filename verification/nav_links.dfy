/**
 * What the sidebar and the mobile menu share: a navigation entry, the
 * `isActive` rule that highlights it, and the fallback for a missing user name.
 */
module NavLinks {
  import opened Wrappers

  /** A navigation entry; its `href` is also its list key. */
  datatype NavItem = NavItem(caption: string, href: string)

  /** `String.prototype.startsWith`, compared character by character. */
  function StartsWith(s: string, prefix: string): (b: bool)
    ensures b <==> prefix <= s
  {
    if prefix == [] then true
    else s != [] && s[0] == prefix[0] && StartsWith(s[1..], prefix[1..])
  }

  /** `isActive`: the root link only on "/" itself, any other link on every path it starts. */
  function IsActive(pathname: string, href: string): bool {
    if href == "/" then pathname == "/" else StartsWith(pathname, href)
  }

  /** The two halves of `isActive`, in terms of sequence prefixes. */
  lemma IsActiveIff(pathname: string, href: string)
    ensures href == "/" ==> (IsActive(pathname, href) <==> pathname == "/")
    ensures href != "/" ==> (IsActive(pathname, href) <==> |href| <= |pathname| && pathname[..|href|] == href)
  {
  }

  /**
   * A link whose `href` carries a fragment is never active on a pathname
   * without one (the router's pathname never includes the fragment).
   */
  lemma FragmentLinkInactive(pathname: string, href: string, k: nat)
    requires k < |href| && href[k] == '#'
    requires '#' !in pathname
    ensures !IsActive(pathname, href)
  {
    if |href| <= |pathname| {
      assert pathname[k] != '#';
      assert pathname[..|href|][k] != href[k];
    }
  }

  /** The captions (the `label` field) of the active entries, in list order. */
  function ActiveLabels(items: seq<NavItem>, pathname: string): (r: seq<string>)
    ensures |r| <= |items|
    ensures forall c :: c in r <==> exists i :: 0 <= i < |items| && IsActive(pathname, items[i].href) && items[i].caption == c
  {
    if items == [] then []
    else
      var rest := ActiveLabels(items[1..], pathname);
      assert forall i :: 1 <= i < |items| ==> items[i] == items[1..][i - 1];
      assert forall i :: 0 <= i < |items| - 1 ==> items[1..][i] == items[i + 1];
      (if IsActive(pathname, items[0].href) then [items[0].caption] else []) + rest
  }

  /** Strings that differ at a common position are distinct and neither starts the other. */
  lemma DifferAt(a: string, b: string, k: nat)
    requires k < |a| && k < |b| && a[k] != b[k]
    ensures a != b && !(a <= b) && !(b <= a)
  {
  }

  /** No two entries of `items` are active on the same pathname. */
  predicate ExclusiveOn(items: seq<NavItem>, pathname: string) {
    forall i, j :: 0 <= i < j < |items| ==> !(IsActive(pathname, items[i].href) && IsActive(pathname, items[j].href))
  }

  /** Two prefixes of one string are prefixes of one another. */
  lemma PrefixesComparable(s: string, a: string, b: string)
    ensures a <= s && b <= s ==> a <= b || b <= a
  {
    if a <= s && b <= s {
      if |a| <= |b| {
        assert a == s[..|a|] == b[..|a|];
      } else {
        assert b == s[..|b|] == a[..|b|];
      }
    }
  }

  /**
   * Distinct non-empty links, none of which but "/" starts another, are never
   * active together ("/" is active only on "/" itself).
   */
  lemma UnrelatedLinksExclusive(items: seq<NavItem>, pathname: string)
    requires forall i :: 0 <= i < |items| ==> |items[i].href| >= 1
    requires forall i, j :: 0 <= i < |items| && 0 <= j < |items| && i != j ==>
               items[i].href != items[j].href && (items[i].href != "/" ==> !(items[i].href <= items[j].href))
    ensures ExclusiveOn(items, pathname)
  {
    forall i, j | 0 <= i < j < |items|
      ensures !(IsActive(pathname, items[i].href) && IsActive(pathname, items[j].href))
    {
      var a, b := items[i].href, items[j].href;
      PrefixesComparable(pathname, a, b);
      if pathname == "/" {
        assert a <= pathname ==> a == "/";
        assert b <= pathname ==> b == "/";
      }
    }
  }

  /** With mutually exclusive entries, at most one is highlighted. */
  lemma {:induction false} ExclusiveAtMostOneActive(items: seq<NavItem>, pathname: string)
    requires ExclusiveOn(items, pathname)
    ensures |ActiveLabels(items, pathname)| <= 1
  {
    if items != [] {
      var rest := items[1..];
      assert ExclusiveOn(rest, pathname) by {
        forall i, j | 0 <= i < j < |rest|
          ensures !(IsActive(pathname, rest[i].href) && IsActive(pathname, rest[j].href))
        {
          assert rest[i] == items[i + 1] && rest[j] == items[j + 1];
        }
      }
      ExclusiveAtMostOneActive(rest, pathname);
      if IsActive(pathname, items[0].href) {
        NoneActive(rest, pathname, items[0].href);
      }
    }
  }

  /** When `first` is active and exclusive with every entry of `items`, none of them is. */
  lemma {:induction false} NoneActive(items: seq<NavItem>, pathname: string, first: string)
    requires IsActive(pathname, first)
    requires forall j :: 0 <= j < |items| ==> !(IsActive(pathname, first) && IsActive(pathname, items[j].href))
    ensures ActiveLabels(items, pathname) == []
  {
    if items != [] {
      NoneActive(items[1..], pathname, first);
    }
  }

  /** The name shown for a user without one. */
  const NameFallback := "User"

  /**
   * `value || fallback` for an optional string: a missing or empty value gives
   * way to the fallback, any other value is shown as it is.
   */
  function OrFallback(value: Option<string>, fallback: string): (r: string)
    ensures value.Some? && value.value != "" ==> r == value.value
    ensures r == fallback <==> value.None? || value.value == "" || value.value == fallback
    ensures fallback != "" ==> r != ""
  {
    if value.Some? && value.value != "" then value.value else fallback
  }
}
