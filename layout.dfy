/** The header navigation: a fixed table of links and the test that
    highlights the link for the current path. */
module Layout {

  datatype NavItem = NavItem(name: string, href: string)

  const Root := "/"

  /** `navigation`. */
  const Navigation: seq<NavItem> := [
    NavItem("Dashboard", "/"),
    NavItem("Clients", "/clients"),
    NavItem("Quotations", "/quotations")
  ]

  /** `isActive`: the path is the link itself, or, for any link but the root,
      the path starts with the link as a plain string. So the root link is
      highlighted on the root path only, and any other link on every path
      that starts with it, itself included. */
  predicate IsActive(pathname: string, href: string)
    ensures IsActive(pathname, href) ==> |href| <= |pathname|
    ensures href == Root ==> (IsActive(pathname, href) <==> pathname == Root)
    ensures href != Root ==> (IsActive(pathname, href) <==> href <= pathname)
  {
    pathname == href || (href != Root && href <= pathname)
  }

  /** The prefix test looks at characters, not path segments: a sub-page and
      a path that merely continues the name both highlight the link. */
  lemma PrefixExamples()
    ensures IsActive("/clients/42", "/clients")
    ensures IsActive("/clientsX", "/clients")
    ensures !IsActive("/clients", "/")
    ensures IsActive("/", "/") && !IsActive("/", "/clients") && !IsActive("/", "/quotations")
  {
    assert "/clients" == "/clients/42"[..8];
    assert "/clients" == "/clientsX"[..8];
  }

  /** For any path at most one link of the table is highlighted. */
  lemma AtMostOneActive(pathname: string, i: int, j: int)
    requires 0 <= i < j < |Navigation|
    ensures !(IsActive(pathname, Navigation[i].href) && IsActive(pathname, Navigation[j].href))
  {
    var hj := Navigation[j].href;
    if i == 0 {
      if pathname == Root {
        assert |hj| > |pathname|;
      }
    } else if Navigation[1].href <= pathname {
      assert pathname[1] == 'c' && hj[1] == 'q';
    }
  }
}
