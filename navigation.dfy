/** The top navigation bar: two fixed links, each highlighted when the current
    path is the link's own page or below it. */
module Navigation {
  import opened Wrappers
  import Text

  /** A link of the bar. */
  datatype NavLink = NavLink(href: string, caption: string)

  /** `links`. */
  const LINKS: seq<NavLink> := [NavLink("/", "Portfolio"), NavLink("/admin", "Admin")]

  /** `pathname === href || pathname?.startsWith(href + '/')`; with no
      pathname the optional call gives `undefined`, which is falsy. */
  function IsActive(pathname: Option<string>, href: string): (active: bool)
    ensures pathname.None? ==> !active
    ensures active ==> |href| <= |pathname.value| && pathname.value[..|href|] == href
  {
    pathname.Some? && (pathname.value == href || Text.StartsWith(pathname.value, href + "/"))
  }

  /** The admin link covers the admin page and every page below it, but not a
      page whose name merely begins with `admin`. */
  lemma AdminLinkScope(rest: string)
    ensures IsActive(Some("/admin"), "/admin")
    ensures IsActive(Some("/admin/" + rest), "/admin")
    ensures !IsActive(Some("/administrator"), "/admin")
  {
    assert ("/admin/" + rest)[..|"/admin/"|] == "/admin/";
    assert "/administrator"[..7] != "/admin/" by {
      assert "/administrator"[6] == 'i';
    }
  }

  /** The portfolio link is active on `/` itself; below it, the prefix it
      tests is `//`, so it is active for no ordinary page. */
  lemma PortfolioLinkScope(rest: string)
    ensures IsActive(Some("/"), "/")
    ensures IsActive(Some("/" + rest), "/") <==> rest == "" || rest[0] == '/'
  {
    var s := "/" + rest;
    if rest != "" && rest[0] == '/' {
      assert s[..2] == "//";
    }
    if |s| >= 2 && s[..2] == "//" {
      assert s[1] == rest[0];
    }
  }

  /** Whatever the path, at most one of the two links is highlighted. */
  lemma AtMostOneActive(pathname: Option<string>)
    ensures !(IsActive(pathname, LINKS[0].href) && IsActive(pathname, LINKS[1].href))
  {
    if IsActive(pathname, "/admin") {
      var s := pathname.value;
      assert s[..6] == "/admin";
      assert s[1] == 'a';
      assert s != "/";
      assert |s| >= 2 ==> s[..2] != "//" by {
        if |s| >= 2 {
          assert s[..2][1] == 'a';
        }
      }
    }
  }

  /** The rendered bar: each link with its highlight. */
  function Render(pathname: Option<string>): (bar: seq<(NavLink, bool)>)
    ensures |bar| == |LINKS|
    ensures forall k :: 0 <= k < |bar| ==> bar[k].0 == LINKS[k] && (bar[k].1 <==> IsActive(pathname, LINKS[k].href))
    ensures !(bar[0].1 && bar[1].1)
  {
    AtMostOneActive(pathname);
    seq(|LINKS|, k requires 0 <= k < |LINKS| => (LINKS[k], IsActive(pathname, LINKS[k].href)))
  }
}
