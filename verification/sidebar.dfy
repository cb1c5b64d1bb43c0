/** The application sidebar of src/components/app-sidebar.tsx: five
    navigation links which carry the selected design system along in the
    query string, and the highlighting of the current page. */
module Sidebar {
  import opened Seqs
  import opened Text
  import opened Urls

  datatype NavItem = NavItem(name: string, href: string)

  const Dashboard := "/app"

  /** `navigation`, in display order. */
  const Navigation: seq<NavItem> := [
    NavItem("Dashboard", "/app"),
    NavItem("Builder", "/app/builder"),
    NavItem("Tokens", "/app/tokens"),
    NavItem("Export", "/app/export"),
    NavItem("Projects", "/app/projects")
  ]

  /** `searchParams.get("designSystemId")` is truthy: present and
      non-empty. */
  predicate Selected(designSystemId: Option<string>)
  {
    designSystemId.Some? && designSystemId.value != ""
  }

  /** The link target of an item: the design system is passed on to every
      page but the dashboard. */
  function Href(item: NavItem, designSystemId: Option<string>): (r: string)
    ensures !Selected(designSystemId) || item.href == Dashboard ==> r == item.href
    ensures Selected(designSystemId) && item.href != Dashboard ==>
      r == item.href + "?" + "designSystemId=" + designSystemId.value
  {
    if Selected(designSystemId) && item.href != Dashboard then item.href + "?" + DesignSystemQuery(designSystemId.value)
    else item.href
  }

  /** `designSystemId=<id>`, the id inserted as is. */
  function DesignSystemQuery(id: string): string
  {
    "designSystemId=" + id
  }

  /** An item is highlighted iff the current pathname is its base href. */
  predicate IsActive(pathname: string, item: NavItem)
  {
    pathname == item.href
  }

  /** No navigation href carries a query string. */
  lemma NavigationHrefsArePlain(k: nat)
    requires k < |Navigation|
    ensures '?' !in Navigation[k].href
  {
  }

  /** A link built from a plain href leads to that href, and carries the
      selected design system as its whole query string when it carries one
      at all. */
  lemma HrefSplits(item: NavItem, designSystemId: Option<string>)
    requires '?' !in item.href
    ensures PathOf(Href(item, designSystemId)) == item.href
    ensures QueryOf(Href(item, designSystemId)) ==
      (if Selected(designSystemId) && item.href != Dashboard then Some("designSystemId=" + designSystemId.value) else None)
  {
    if Selected(designSystemId) && item.href != Dashboard {
      BuildThenSplit(item.href, DesignSystemQuery(designSystemId.value));
    }
  }

  /** Every link leads to its item's page, and the query it carries, if any,
      is exactly the selected design system: the link round-trips through
      pathname and query string. */
  lemma HrefRoundTrip(k: nat, designSystemId: Option<string>)
    requires k < |Navigation|
    ensures PathOf(Href(Navigation[k], designSystemId)) == Navigation[k].href
    ensures QueryOf(Href(Navigation[k], designSystemId)) ==
      (if Selected(designSystemId) && k != 0 then Some("designSystemId=" + designSystemId.value) else None)
  {
    NavigationHrefsArePlain(k);
    assert Navigation[k].href == Dashboard <==> k == 0 by {
      assert |Navigation[0].href| == 4 && |Navigation[1].href| == 12 && |Navigation[2].href| == 11;
      assert |Navigation[3].href| == 11 && |Navigation[4].href| == 13;
    }
    HrefSplits(Navigation[k], designSystemId);
  }

  /** Following a link highlights exactly the item it came from. */
  lemma FollowingLinkHighlightsIt(k: nat, j: nat, designSystemId: Option<string>)
    requires k < |Navigation| && j < |Navigation|
    ensures IsActive(PathOf(Href(Navigation[k], designSystemId)), Navigation[j]) <==> j == k
  {
    HrefRoundTrip(k, designSystemId);
    AtMostOneActive(Navigation[k].href, k, j);
  }

  /** At most one item is highlighted for any pathname. */
  lemma AtMostOneActive(pathname: string, k: nat, j: nat)
    requires k < |Navigation| && j < |Navigation|
    requires IsActive(pathname, Navigation[k])
    ensures IsActive(pathname, Navigation[j]) <==> j == k
  {
    assert |Navigation[0].href| == 4 && |Navigation[1].href| == 12 && |Navigation[2].href| == 11;
    assert |Navigation[3].href| == 11 && |Navigation[4].href| == 13;
    assert Navigation[2].href[5] == 't' && Navigation[3].href[5] == 'e';
  }
}
