/** The header navigation: which item is highlighted for the current
    location, the unread-alerts badge on the alerts item, and the test id
    each item carries. */
module Navigation {
  import opened Wrappers
  import opened Text
  import opened Seqs
  import opened Schema
  import opened DetailPanel

  /** The paths of the six navigation items, in display order. */
  const NavPaths: seq<string> := ["/", "/vehicles", "/history", "/geofences", "/alerts", "/reports"]

  /** `isActive`: the location is the item's path, or, for every item but
      the dashboard, lies below it. */
  predicate IsActive(location: string, path: string) {
    location == path || (path != "/" && StartsWith(location, path))
  }

  /** The dashboard item is highlighted only on "/"; any other item is
      highlighted exactly when its path is a prefix of the location. */
  lemma IsActiveByPrefix(location: string, path: string)
    ensures IsActive(location, "/") <==> location == "/"
    ensures path != "/" ==> (IsActive(location, path) <==> StartsWith(location, path))
  {
    if location == path {
      assert location[..|path|] == path;
    }
  }

  /** Whatever the location, at most one navigation item is highlighted:
      the non-root paths differ in their first letter after the slash. */
  lemma AtMostOneActive(location: string, i: nat, j: nat)
    requires i < |NavPaths| && j < |NavPaths|
    requires IsActive(location, NavPaths[i]) && IsActive(location, NavPaths[j])
    ensures i == j
  {
    if NavPaths[i] != "/" && NavPaths[j] != "/" {
      assert StartsWith(location, NavPaths[i]) && StartsWith(location, NavPaths[j]);
      assert location[1] == NavPaths[i][1] == NavPaths[j][1];
    }
  }

  /** A detail page below an item's path highlights that item. */
  lemma SubpageHighlightsItem(path: string, rest: string)
    requires path in NavPaths && path != "/"
    ensures IsActive(path + rest, path)
  {
    assert (path + rest)[..|path|] == path;
  }

  // ---------------------------------------------------------------------------
  // The alerts badge
  // ---------------------------------------------------------------------------

  predicate Unread(a: Alert) {
    !a.read
  }

  /** `unreadAlerts`: how many alerts, of any vehicle, are unread, each
      alert of the list counted once per position. */
  function UnreadCount(alerts: seq<Alert>): (n: nat)
    ensures n == CountWhere(alerts, Unread)
    ensures n <= |alerts|
    ensures n == 0 <==> forall a :: a in alerts ==> a.read
  {
    var unread := Filter(alerts, Unread);
    FilterLengthIsCount(alerts, Unread);
    assert |unread| > 0 ==> unread[0] in unread;
    |unread|
  }

  /** The unread count of the header covers every vehicle: it is never
      below the count on the detail panel's alerts tab. */
  lemma HeaderCountCoversPanel(alerts: seq<Alert>, v: Vehicle)
    ensures |UnreadAlerts(alerts, v)| <= UnreadCount(alerts)
  {
    FilterStricterCount(alerts, (a: Alert) => UnreadOf(a, v), Unread);
  }

  /** The `badge` of the alerts item: present exactly when some alert is
      unread, and then the unread count. */
  function AlertsBadge(alerts: seq<Alert>): (r: Option<nat>)
    ensures r.Some? <==> exists a :: a in alerts && !a.read
    ensures r.Some? ==> r.value == UnreadCount(alerts) && r.value >= 1
  {
    var n := UnreadCount(alerts);
    if n > 0 then Some(n) else None
  }

  /** What the badge reads: the count, or "99+" past 99. */
  datatype BadgeText = Exact(n: nat) | Capped

  function BadgeLabel(n: nat): (r: BadgeText)
    ensures r == Capped <==> n > 99
    ensures r.Exact? ==> r.n == n && r.n <= 99
  {
    if n > 99 then Capped else Exact(n)
  }

  // ---------------------------------------------------------------------------
  // Test ids
  // ---------------------------------------------------------------------------

  /** `s.replace(c, "")` with a one-character pattern: the first occurrence
      of `c` is removed, if there is one. */
  function RemoveFirst(s: string, c: char): (r: string)
    ensures c !in s ==> r == s
    ensures c in s ==> |r| == |s| - 1
    decreases |s|
  {
    if |s| == 0 then ""
    else if s[0] == c then s[1..]
    else
      assert c in s ==> c in s[1..] by {
        if c in s {
          var i :| 0 <= i < |s| && s[i] == c;
          assert s[1..][i - 1] == c;
        }
      }
      [s[0]] + RemoveFirst(s[1..], c)
  }

  /** What is removed is the first `c`: the text before it and the text
      after it, joined. */
  lemma {:induction false} RemoveFirstSplits(s: string, c: char)
    requires c in s
    ensures RemoveFirst(s, c) == BeforeFirst(s, c) + s[|BeforeFirst(s, c)| + 1..]
    decreases |s|
  {
    if s[0] != c {
      var i :| 0 <= i < |s| && s[i] == c;
      assert s[1..][i - 1] == c;
      RemoveFirstSplits(s[1..], c);
      var b := BeforeFirst(s[1..], c);
      assert RemoveFirst(s, c) == [s[0]] + RemoveFirst(s[1..], c);
      assert BeforeFirst(s, c) == [s[0]] + b;
      assert s[1..][|b| + 1..] == s[|b| + 2..];
      assert ([s[0]] + b) + s[|b| + 2..] == [s[0]] + (b + s[1..][|b| + 1..]);
    }
  }

  /** The `data-testid` of an item: "nav-" and the path without its slash,
      "nav-dashboard" for the root. */
  function NavTestId(path: string): (r: string)
    ensures path == "/" ==> r == "nav-dashboard"
    ensures |path| > 1 && path[0] == '/' ==> r == "nav-" + path[1..]
  {
    var stripped := RemoveFirst(path, '/');
    "nav-" + (if stripped == "" then "dashboard" else stripped)
  }

  /** The six items carry six different test ids. */
  lemma NavTestIdsDistinct(i: nat, j: nat)
    requires i < |NavPaths| && j < |NavPaths| && i != j
    ensures NavTestId(NavPaths[i]) != NavTestId(NavPaths[j])
  {
    TestIdLetter(i);
    TestIdLetter(j);
    IdLetterInjective(i, j);
  }

  lemma IdLetterInjective(i: nat, j: nat)
    requires i < 6 && j < 6 && i != j
    ensures IdLetter(i) != IdLetter(j)
  {
  }

  /** The fifth character of the `i`-th test id: "d" for the dashboard,
      then the first letter of each page. */
  function IdLetter(i: nat): char {
    if i == 0 then 'd' else if i == 1 then 'v' else if i == 2 then 'h'
    else if i == 3 then 'g' else if i == 4 then 'a' else 'r'
  }

  lemma TestIdLetter(i: nat)
    requires i < |NavPaths|
    ensures |NavTestId(NavPaths[i])| > 4 && NavTestId(NavPaths[i])[4] == IdLetter(i)
  {
    if i == 0 {
      assert NavTestId("/") == "nav-dashboard";
    } else {
      TestIdInitial(NavPaths[i]);
    }
  }

  /** Below the root, the fifth character of a test id is the first letter
      of the page's path. */
  lemma TestIdInitial(p: string)
    requires |p| > 1 && p[0] == '/'
    ensures |NavTestId(p)| > 4 && NavTestId(p)[4] == p[1]
  {
    assert ("nav-" + p[1..])[4] == p[1];
  }
}
