/** The navigation of the app shell (`components/AppShell`): which sidebar entry
    is highlighted for the current path, and the title shown in the header. */
module AppShell {
  import opened Options

  datatype NavItem = NavItem(name: string, href: string)

  const Root := "/app"

  const Navigation: seq<NavItem> := [
    NavItem("Dashboard", Root),
    NavItem("Meal Plans", "/app/meal-plans"),
    NavItem("Progress", "/app/progress"),
    NavItem("Subscription", "/app/subscription")]

  /** `s.startsWith(prefix)`. */
  predicate StartsWith(s: string, prefix: string)
  {
    |prefix| <= |s| && s[..|prefix|] == prefix
  }

  /** An entry is active on its own path, and every entry but the root one also on any
      path its link is a prefix of. */
  function IsActive(pathname: string, item: NavItem): (active: bool)
    ensures pathname == item.href ==> active
    ensures active ==> StartsWith(pathname, item.href)
    ensures item.href != Root && StartsWith(pathname, item.href) ==> active
    ensures item.href == Root ==> (active <==> pathname == Root)
  {
    pathname == item.href || (item.href != Root && StartsWith(pathname, item.href))
  }

  /** The root entry is active only on exactly "/app". */
  lemma RootActiveOnlyExactly(pathname: string)
    ensures IsActive(pathname, Navigation[0]) <==> pathname == Root
  {
  }

  /** The prefix test has no segment boundary: "/app/progressX" highlights "Progress". */
  lemma PrefixWithoutBoundary()
    ensures IsActive("/app/progressX", Navigation[2])
  {
    assert "/app/progressX"[..|"/app/progress"|] == "/app/progress";
  }

  /** The root link is "/app"; the three others all continue past "/app/", each with a
      different character. */
  lemma NavigationShape()
    ensures Navigation[0].href == Root && |Root| == 4
    ensures forall i :: 1 <= i < |Navigation| ==> |Navigation[i].href| > 5
    ensures forall i, j :: 1 <= i < |Navigation| && 1 <= j < |Navigation| && i != j ==>
      Navigation[i].href[5] != Navigation[j].href[5]
  {
  }

  /** At most one entry is highlighted for any path. */
  lemma AtMostOneActive(pathname: string, i: int, j: int)
    requires 0 <= i < |Navigation| && 0 <= j < |Navigation|
    requires IsActive(pathname, Navigation[i]) && IsActive(pathname, Navigation[j])
    ensures i == j
  {
    NavigationShape();
    RootActiveOnlyExactly(pathname);
    assert i != 0 && j != 0 ==> pathname[5] == Navigation[i].href[5] && pathname[5] == Navigation[j].href[5];
  }

  /** `navigation.find(...)`: the first active entry. */
  function FindActive(items: seq<NavItem>, pathname: string): (r: Option<NavItem>)
    ensures r.None? <==> forall k :: 0 <= k < |items| ==> !IsActive(pathname, items[k])
    ensures r.Some? ==> exists k :: 0 <= k < |items| && items[k] == r.value && IsActive(pathname, items[k])
                                   && forall m :: 0 <= m < k ==> !IsActive(pathname, items[m])
  {
    if |items| == 0 then None
    else if IsActive(pathname, items[0]) then Some(items[0])
    else
      var r := FindActive(items[1..], pathname);
      assert forall k :: 1 <= k < |items| ==> items[k] == items[1..][k - 1];
      if r.Some? then
        var k :| 0 <= k < |items[1..]| && items[1..][k] == r.value && IsActive(pathname, items[1..][k])
          && forall m :: 0 <= m < k ==> !IsActive(pathname, items[1..][m]);
        assert items[k + 1] == r.value;
        r
      else r
  }

  /** The header title: the active entry's name, or "Dashboard" when none is active. */
  function HeaderTitle(pathname: string): (title: string)
    ensures (forall k :: 0 <= k < |Navigation| ==> !IsActive(pathname, Navigation[k])) ==> title == "Dashboard"
    ensures (exists k :: 0 <= k < |Navigation| && IsActive(pathname, Navigation[k])) ==>
      exists k :: 0 <= k < |Navigation| && IsActive(pathname, Navigation[k]) && title == Navigation[k].name
  {
    match FindActive(Navigation, pathname)
    case Some(item) => item.name
    case None => "Dashboard"
  }

  /** The header always names the highlighted entry, when there is one. */
  lemma HeaderTitleMatchesHighlight(pathname: string, i: int)
    requires 0 <= i < |Navigation| && IsActive(pathname, Navigation[i])
    ensures HeaderTitle(pathname) == Navigation[i].name
  {
    var r := FindActive(Navigation, pathname);
    var k :| 0 <= k < |Navigation| && Navigation[k] == r.value && IsActive(pathname, Navigation[k])
      && forall m :: 0 <= m < k ==> !IsActive(pathname, Navigation[m]);
    AtMostOneActive(pathname, i, k);
  }

  /** A path no entry matches is titled "Dashboard". */
  lemma HeaderTitleFallback(pathname: string)
    requires forall k :: 0 <= k < |Navigation| ==> !IsActive(pathname, Navigation[k])
    ensures HeaderTitle(pathname) == "Dashboard"
  {
  }
}
