/**
 * The site layout's navigation (components/Layout.tsx): the list of links,
 * which link is highlighted for the current location, and what a click on a
 * link does. Scrolling, the history and the router are outside the model:
 * a click yields the list of effects it performs, in order.
 */
module Layout {
  import opened Wrappers
  import opened Text

  /** The router location: the path and the hash (`""` or starting with `#`). */
  datatype Location = Location(pathname: string, hash: string)

  /** A navigation link: the translation key of its name and its path. */
  datatype NavLink = NavLink(nameKey: string, path: string)

  const BaseLinks: seq<NavLink> := [
    NavLink("nav.home", "/"),
    NavLink("nav.about", "/#about"),
    NavLink("nav.services", "/#services"),
    NavLink("nav.contact", "/contact"),
    NavLink("nav.pricing", "/pricing")
  ]

  const AdminLink: NavLink := NavLink("nav.adminLink", "/admin")

  /** `navLinks`: the five base links, and the admin link last for an admin. */
  function NavLinks(role: Option<string>): (r: seq<NavLink>)
    ensures |r| == 5 || |r| == 6
    ensures r[..5] == BaseLinks
    ensures |r| == 6 <==> role == Some("admin")
    ensures |r| == 6 ==> r[5] == AdminLink
  {
    if role == Some("admin") then BaseLinks + [AdminLink] else BaseLinks
  }

  /** A link to a section of the home page. */
  predicate IsHashLink(path: string) {
    StartsWith(path, "/#")
  }

  /** `checkActive`: the home link needs the home page without a hash; a
      section link needs the home page with its own hash; any other link is
      active on its path and on the paths below it. */
  predicate CheckActive(linkPath: string, loc: Location)
    // An active link's page is the current one, or one above it.
    ensures CheckActive(linkPath, loc) ==> StartsWith(loc.pathname, if IsHashLink(linkPath) then "/" else linkPath)
    // An active section link's hash is the current hash.
    ensures CheckActive(linkPath, loc) && IsHashLink(linkPath) ==> StartsWith(loc.hash, "#") && "/" + loc.hash == linkPath
    // The home link is active exactly on the home page without a hash.
    ensures linkPath == "/" ==> (CheckActive(linkPath, loc) <==> loc.pathname == "/" && loc.hash == "")
    // A section link is active exactly on the home page with its own hash.
    ensures IsHashLink(linkPath) ==> (CheckActive(linkPath, loc) <==> loc.pathname == "/" && "/" + loc.hash == linkPath)
  {
    if linkPath == "/" then loc.pathname == "/" && loc.hash == ""
    else if IsHashLink(linkPath) then
      assert linkPath[..2] == "/#";
      assert linkPath == "/" + linkPath[1..] && linkPath[1..][0] == '#';
      loc.pathname == "/" && loc.hash == linkPath[1..]
    else
      assert StartsWith(loc.pathname, linkPath + "/") ==>
        loc.pathname[..|linkPath|] == (linkPath + "/")[..|linkPath|] == linkPath;
      loc.pathname == linkPath || StartsWith(loc.pathname, linkPath + "/")
  }

  /** A plain link is active exactly on its own path and below it, segment by
      segment: `/pricing` is not active on `/pricingx`. */
  lemma {:induction false} PlainLinkActive(linkPath: string, loc: Location)
    requires linkPath != "/" && !IsHashLink(linkPath)
    ensures CheckActive(linkPath, loc) <==>
      StartsWith(loc.pathname, linkPath) && (|loc.pathname| == |linkPath| || loc.pathname[|linkPath|] == '/')
  {
    if StartsWith(loc.pathname, linkPath) && |loc.pathname| > |linkPath| && loc.pathname[|linkPath|] == '/' {
      assert loc.pathname[..|linkPath| + 1] == linkPath + "/";
    }
    if StartsWith(loc.pathname, linkPath + "/") {
      assert loc.pathname[..|linkPath|] == (linkPath + "/")[..|linkPath|];
    }
  }

  /** A plain link of two or more characters is only active on a path that
      agrees with it on its second character. */
  lemma {:induction false} PlainActiveSecondChar(linkPath: string, loc: Location)
    requires |linkPath| >= 2 && !IsHashLink(linkPath)
    ensures CheckActive(linkPath, loc) ==> |loc.pathname| >= 2 && loc.pathname[1] == linkPath[1]
  {
    if StartsWith(loc.pathname, linkPath + "/") {
      assert loc.pathname[1] == (linkPath + "/")[1];
    }
  }

  /** Whatever the location, at most one of the navigation links is active. */
  lemma {:induction false} AtMostOneActive(role: Option<string>, loc: Location, i: nat, j: nat)
    requires i < j < |NavLinks(role)|
    ensures CheckActive(NavLinks(role)[i].path, loc) ==> !CheckActive(NavLinks(role)[j].path, loc)
  {
    var links := NavLinks(role);
    assert links[..5] == BaseLinks;
    assert forall k :: 0 <= k < 5 ==> links[k] == BaseLinks[k];
    assert IsHashLink("/#about") && IsHashLink("/#services");
    assert "/#about"[1..] == "#about" && "/#services"[1..] == "#services";
    assert "/contact"[1] == 'c' && "/pricing"[1] == 'p' && "/admin"[1] == 'a';
    PlainActiveSecondChar("/contact", loc);
    PlainActiveSecondChar("/pricing", loc);
    PlainActiveSecondChar("/admin", loc);
  }

  /** What a click does, in the order the handler does it. */
  datatype Effect =
    | CloseMenu
    | SmoothScrollTop
    | ScrollIntoView(id: string)
    | PushState(url: string)
    | Navigate(to: string, replace: bool)
    | ScrollTop

  predicate Navigates(effects: seq<Effect>) {
    exists i :: 0 <= i < |effects| && effects[i].Navigate?
  }

  /** `handleNavClick`. `elementExists` says whether the page has an element
      with the section's id. */
  function HandleNavClick(path: string, loc: Location, elementExists: bool): (r: seq<Effect>)
    ensures |r| >= 1 && r[0] == CloseMenu
    ensures forall i :: 1 <= i < |r| ==> r[i] != CloseMenu
    ensures path == "/" && loc.pathname == "/" && loc.hash == "" ==> r == [CloseMenu, SmoothScrollTop]
    ensures Navigates(r) <==>
      !(path == "/" && loc.pathname == "/" && loc.hash == "") && !(IsHashLink(path) && loc.pathname == "/" && !elementExists)
    ensures Navigate(path, true) in r <==> IsHashLink(path) && loc.pathname == "/" && elementExists
    ensures !IsHashLink(path) && !(path == "/" && loc.pathname == "/" && loc.hash == "") ==>
      r == [CloseMenu, Navigate(path, false), ScrollTop]
    // Every navigation goes to the clicked link's own path.
    ensures forall i :: 0 <= i < |r| && r[i].Navigate? ==> r[i].to == path
    // A section link: off home it navigates there; on home it scrolls to the
    // section, pushes the URL and replaces the route, or only closes the menu
    // when the section is not on the page.
    ensures IsHashLink(path) && loc.pathname != "/" ==> r == [CloseMenu, Navigate(path, false)]
    ensures IsHashLink(path) && loc.pathname == "/" && elementExists ==>
      r == [CloseMenu, ScrollIntoView(path[2..]), PushState(path), Navigate(path, true)]
    ensures IsHashLink(path) && loc.pathname == "/" && !elementExists ==> r == [CloseMenu]
  {
    if path == "/" && loc.pathname == "/" && loc.hash == "" then
      [CloseMenu, SmoothScrollTop]
    else if IsHashLink(path) then
      var id := path[2..];
      if loc.pathname == "/" then
        if elementExists then
          var r := [CloseMenu, ScrollIntoView(id), PushState(path), Navigate(path, true)];
          assert r[3].Navigate?;
          r
        else [CloseMenu]
      else
        var r := [CloseMenu, Navigate(path, false)];
        assert r[1].Navigate?;
        r
    else
      var r := [CloseMenu, Navigate(path, false), ScrollTop];
      assert r[1].Navigate?;
      r
  }
}
