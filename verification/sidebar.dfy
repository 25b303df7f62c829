/** The admin sidebar: which navigation entry is highlighted for the
    current path, which collapsible entries start open, and how a click
    on a collapsible entry changes them. */
module Sidebar {
  import opened Js

  /** A navigation entry. `to` is "" when the entry has no link, and
      `subItems` holds the sub-entries' links when it has a sub-menu. */
  datatype NavItem = NavItem(name: string, to: string, subItems: Option<seq<string>>)

  /** The entries the admin sidebar shows. */
  const NavItems: seq<NavItem> :=
    [NavItem("Home", "/", None), NavItem("Stock", "/stock", None), NavItem("Stock Man", "/stock_man", None)]

  /** Whether one of the sub-entries' links is a prefix of the path. */
  predicate ParentActive(item: NavItem, path: string)
  {
    item.subItems.Some? && exists sub :: sub in item.subItems.value && StartsWith(path, sub)
  }

  /** The highlight rule: the home entry only on "/", a sub-menu when one
      of its links is a prefix, any other linked entry when its link is a
      prefix of the path. */
  predicate IsActive(item: NavItem, path: string)
  {
    if item.to == "/" then path == "/"
    else if item.subItems.Some? then ParentActive(item, path)
    else if item.to != "" then StartsWith(path, item.to)
    else false
  }

  /** The prefix rule is on characters, not path segments: the store
      keepers' pages also highlight the stores entry. */
  lemma StockHighlightedOnStockMan(rest: string)
    ensures IsActive(NavItems[1], "/stock_man" + rest)
    ensures IsActive(NavItems[2], "/stock_man" + rest)
    ensures !IsActive(NavItems[0], "/stock_man" + rest)
  {
    var path := "/stock_man" + rest;
    assert path[..|"/stock"|] == "/stock";
    assert path[..|"/stock_man"|] == "/stock_man";
  }

  /** Segment-wise matching, as the sidebar evidently means it: a link
      matches itself and the paths below it. */
  predicate Under(path: string, to: string)
  {
    path == to || StartsWith(path, to + "/")
  }

  /** The highlight rule with segment-wise matching. */
  predicate IsActiveFixed(item: NavItem, path: string)
  {
    if item.to == "/" then path == "/"
    else if item.subItems.Some? then exists sub :: sub in item.subItems.value && Under(path, sub)
    else if item.to != "" then Under(path, item.to)
    else false
  }

  lemma UnderStock(path: string)
    requires Under(path, "/stock")
    ensures |path| == 6 || (|path| > 6 && path[6] == '/')
  {
    if path != "/stock" {
      assert path[..7] == "/stock/";
      assert path[6] == path[..7][6];
    }
  }

  lemma UnderStockMan(path: string)
    requires Under(path, "/stock_man")
    ensures |path| >= 10 && path[6] == '_'
  {
    if path != "/stock_man" {
      assert path[..11] == "/stock_man/";
      assert path[6] == path[..11][6];
    }
  }

  /** With segment-wise matching at most one admin entry is highlighted,
      whatever the path, and each entry is highlighted on its own page. */
  lemma FixedHighlightsOneEntry(path: string)
    ensures forall i, j :: 0 <= i < j < |NavItems| ==>
      !(IsActiveFixed(NavItems[i], path) && IsActiveFixed(NavItems[j], path))
    ensures forall i :: 0 <= i < |NavItems| ==> IsActiveFixed(NavItems[i], NavItems[i].to)
  {
    if IsActiveFixed(NavItems[1], path) {
      UnderStock(path);
    }
    if IsActiveFixed(NavItems[2], path) {
      UnderStockMan(path);
    }
  }

  /** The open/closed flags set when the path changes: one per entry with a
      sub-menu, in order, a later entry overwriting an earlier one with the
      same name. */
  function InitialExpanded(items: seq<NavItem>, path: string): (r: map<string, bool>)
    decreases |items|
  {
    if |items| == 0 then map[]
    else
      var m := InitialExpanded(items[..|items| - 1], path);
      var last := items[|items| - 1];
      if last.subItems.Some? then m[last.name := ParentActive(last, path)] else m
  }

  /** The flags cover exactly the entries with a sub-menu, and each is
      open exactly when a sub-entry matches, going by the last entry that
      carries the name. */
  lemma {:induction false} InitialExpandedExact(items: seq<NavItem>, path: string)
    ensures forall l :: l in InitialExpanded(items, path) <==>
      exists i :: 0 <= i < |items| && items[i].subItems.Some? && items[i].name == l
    ensures forall i :: 0 <= i < |items| && items[i].subItems.Some? && LastWithLabel(items, i) ==>
      InitialExpanded(items, path)[items[i].name] == ParentActive(items[i], path)
    decreases |items|
  {
    if |items| > 0 {
      var n := |items|;
      var front := items[..n - 1];
      var last := items[n - 1];
      InitialExpandedExact(front, path);
      var m := InitialExpanded(front, path);
      var r := InitialExpanded(items, path);
      assert r == if last.subItems.Some? then m[last.name := ParentActive(last, path)] else m;
      assert forall i :: 0 <= i < n - 1 ==> front[i] == items[i];
      forall l | l in r
        ensures exists i :: 0 <= i < n && items[i].subItems.Some? && items[i].name == l
      {
        if l in m {
          var i :| 0 <= i < n - 1 && front[i].subItems.Some? && front[i].name == l;
          assert items[i] == front[i];
        } else {
          assert items[n - 1].subItems.Some? && items[n - 1].name == l;
        }
      }
      forall i | 0 <= i < n && items[i].subItems.Some?
        ensures items[i].name in r
      {
        if i < n - 1 {
          assert front[i].subItems.Some? && front[i].name == items[i].name;
        }
      }
      forall i | 0 <= i < n && items[i].subItems.Some? && LastWithLabel(items, i)
        ensures r[items[i].name] == ParentActive(items[i], path)
      {
        if i < n - 1 {
          assert LastWithLabel(front, i);
          assert front[i] == items[i];
          assert last.subItems.Some? ==> last.name != items[i].name;
        }
      }
    }
  }

  /** No later entry with a sub-menu carries the same name as entry `i`. */
  predicate LastWithLabel(items: seq<NavItem>, i: int)
    requires 0 <= i < |items|
  {
    forall j :: i < j < |items| && items[j].subItems.Some? ==> items[j].name != items[i].name
  }

  /** The admin entries have no sub-menus, so nothing starts open. */
  lemma AdminStartsCollapsed(path: string)
    ensures InitialExpanded(NavItems, path) == map[]
  {
    InitialExpandedExact(NavItems, path);
    var r := InitialExpanded(NavItems, path);
    assert forall l :: l !in r;
  }

  /** The first entry with the name, as `find` returns it. */
  function Find(items: seq<NavItem>, name: string): (r: Option<NavItem>)
    ensures r.Some? ==> r.value in items && r.value.name == name
    ensures r.None? <==> forall i :: 0 <= i < |items| ==> items[i].name != name
    ensures r.Some? ==> exists i :: 0 <= i < |items| && items[i] == r.value && FirstNamed(items, name, i)
  {
    if |items| == 0 then None
    else if items[0].name == name then Some(items[0])
    else Find(items[1..], name)
  }

  /** Entry `i` carries the name and no earlier entry does. */
  predicate FirstNamed(items: seq<NavItem>, name: string, i: int)
    requires 0 <= i < |items|
  {
    items[i].name == name && forall j :: 0 <= j < i ==> items[j].name != name
  }

  /** A click on a collapsible entry: an entry whose sub-menu matches the
      path stays open, any other entry flips (a missing flag counting as
      closed), and every other name keeps its flag. */
  function ToggleExpand(items: seq<NavItem>, path: string, prev: map<string, bool>, name: string): (r: map<string, bool>)
    ensures r.Keys == prev.Keys + {name}
    ensures var active := Find(items, name).Some? && ParentActive(Find(items, name).value, path);
      r[name] == (active || !(name in prev && prev[name]))
    ensures forall l :: l in prev && l != name ==> r[l] == prev[l]
  {
    var found := Find(items, name);
    var active := found.Some? && ParentActive(found.value, path);
    prev[name := if active then true else !(name in prev && prev[name])]
  }

  /** Away from its sub-menu's pages, two clicks on an entry put its flag
      back; on them the entry stays open however often it is clicked. */
  lemma ToggleTwice(items: seq<NavItem>, path: string, prev: map<string, bool>, name: string)
    ensures var once := ToggleExpand(items, path, prev, name);
      var twice := ToggleExpand(items, path, once, name);
      var active := Find(items, name).Some? && ParentActive(Find(items, name).value, path);
      && (!active ==> twice[name] == (name in prev && prev[name]))
      && (active ==> once[name] && twice[name])
  {
  }
}
