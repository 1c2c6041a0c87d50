/** The site map report (plugins/sitemap.py): a nested `<ul>` list of the
    site, built by a recursive walk from the base link that shares one set
    of explored URLs across the whole walk, claims a node's fresh children
    before descending into any of them, and stops expanding below a
    configured depth. */
module SiteMap {
  import opened Wrappers
  import opened Links
  import opened Seqs

  // ---------------------------------------------------------------------
  // Output
  // ---------------------------------------------------------------------

  /** One `print` of `explore`: the four tags, a bad link's bare URL, or the
      anchor the report library builds for a URL. */
  datatype Fragment =
    | OpenItem            // '<li>'
    | CloseItem           // '</li>'
    | OpenList            // '<ul>'
    | CloseList           // '</ul>'
    | BareUrl(url: Url)   // the URL as plain text
    | Anchor(url: Url)    // make_link(url, get_title(url))

  /** How a link is shown: a bad link is bare text unless the configuration
      asks for bad links to be anchored too. */
  function Label(url: Url, badLinks: set<Url>, anchorBadLinks: bool): (f: Fragment)
    ensures f.BareUrl? <==> url in badLinks && !anchorBadLinks
    ensures (f.BareUrl? || f.Anchor?) && f.url == url
  {
    if url in badLinks && !anchorBadLinks then BareUrl(url) else Anchor(url)
  }

  /** The URL a fragment shows, if any. */
  function Shown(f: Fragment): seq<Url>
  {
    if f.BareUrl? || f.Anchor? then [f.url] else []
  }

  /** The URLs a fragment stream shows, in the order shown. */
  function Labels(s: seq<Fragment>): seq<Url>
  {
    if s == [] then [] else Shown(s[0]) + Labels(s[1..])
  }

  lemma {:induction false} LabelsAppend(a: seq<Fragment>, b: seq<Fragment>)
    ensures Labels(a + b) == Labels(a) + Labels(b)
  {
    if a == [] {
      assert a + b == b;
    } else {
      assert (a + b)[0] == a[0] && (a + b)[1..] == a[1..] + b;
      LabelsAppend(a[1..], b);
    }
  }

  lemma LabelsOne(f: Fragment)
    ensures Labels([f]) == Shown(f)
  {
    assert [f][1..] == [];
  }

  // ---------------------------------------------------------------------
  // The list the walk produces, as a tree
  // ---------------------------------------------------------------------

  /** One list item: the link shown and the sub-list of the children it
      claimed, in the order they were visited. */
  datatype SiteTree = Node(url: Url, kids: seq<SiteTree>)

  /** The URLs of a list's items, in order. */
  function Roots(ts: seq<SiteTree>): (r: seq<Url>)
    ensures |r| == |ts| && forall j :: 0 <= j < |ts| ==> r[j] == ts[j].url
  {
    if ts == [] then [] else Roots(ts[..|ts| - 1]) + [ts[|ts| - 1].url]
  }

  function KidUrls(t: SiteTree): seq<Url>
  {
    Roots(t.kids)
  }

  /** The fragments printed for a list item: `<li>`, the label, a nested
      `<ul>` only when there are children, and `</li>`. */
  function Render(t: SiteTree, badLinks: set<Url>, anchorBadLinks: bool): seq<Fragment>
    decreases t, 1
  {
    [OpenItem, Label(t.url, badLinks, anchorBadLinks)]
    + (if t.kids == [] then [] else [OpenList] + RenderAll(t.kids, badLinks, anchorBadLinks) + [CloseList])
    + [CloseItem]
  }

  function RenderAll(ts: seq<SiteTree>, badLinks: set<Url>, anchorBadLinks: bool): seq<Fragment>
    decreases ts, 0
  {
    if ts == [] then []
    else RenderAll(ts[..|ts| - 1], badLinks, anchorBadLinks) + Render(ts[|ts| - 1], badLinks, anchorBadLinks)
  }

  /** The URLs of a tree in the order they are printed. */
  function Urls(t: SiteTree): seq<Url>
    decreases t, 1
  {
    [t.url] + UrlsAll(t.kids)
  }

  function UrlsAll(ts: seq<SiteTree>): seq<Url>
    decreases ts, 0
  {
    if ts == [] then [] else UrlsAll(ts[..|ts| - 1]) + Urls(ts[|ts| - 1])
  }

  /** The number of nested lists below the item: 0 for a leaf. */
  function MaxDepth(t: SiteTree): nat
    decreases t, 1
  {
    MaxDepthAll(t.kids)
  }

  function MaxDepthAll(ts: seq<SiteTree>): nat
    decreases ts, 0
  {
    if ts == [] then 0
    else
      var a, b := MaxDepthAll(ts[..|ts| - 1]), 1 + MaxDepth(ts[|ts| - 1]);
      if a < b then b else a
  }

  lemma {:induction false} LabelsRender(t: SiteTree, badLinks: set<Url>, anchorBadLinks: bool)
    ensures Labels(Render(t, badLinks, anchorBadLinks)) == Urls(t)
    decreases t, 1
  {
    var lbl := Label(t.url, badLinks, anchorBadLinks);
    var mid: seq<Fragment> :=
      if t.kids == [] then [] else [OpenList] + RenderAll(t.kids, badLinks, anchorBadLinks) + [CloseList];
    LabelsOne(OpenItem);
    LabelsOne(lbl);
    LabelsOne(CloseItem);
    LabelsAppend([OpenItem], [lbl]);
    assert [OpenItem] + [lbl] == [OpenItem, lbl];
    assert Labels(mid) == UrlsAll(t.kids) by {
      if t.kids != [] {
        var inner := RenderAll(t.kids, badLinks, anchorBadLinks);
        LabelsRenderAll(t.kids, badLinks, anchorBadLinks);
        LabelsOne(OpenList);
        LabelsOne(CloseList);
        LabelsAppend([OpenList], inner);
        LabelsAppend([OpenList] + inner, [CloseList]);
      }
    }
    LabelsAppend([OpenItem, lbl], mid);
    LabelsAppend([OpenItem, lbl] + mid, [CloseItem]);
  }

  lemma {:induction false} LabelsRenderAll(ts: seq<SiteTree>, badLinks: set<Url>, anchorBadLinks: bool)
    ensures Labels(RenderAll(ts, badLinks, anchorBadLinks)) == UrlsAll(ts)
    decreases ts, 0
  {
    if ts != [] {
      LabelsRenderAll(ts[..|ts| - 1], badLinks, anchorBadLinks);
      LabelsRender(ts[|ts| - 1], badLinks, anchorBadLinks);
      LabelsAppend(RenderAll(ts[..|ts| - 1], badLinks, anchorBadLinks), Render(ts[|ts| - 1], badLinks, anchorBadLinks));
    }
  }

  // ---------------------------------------------------------------------
  // Balanced markup
  // ---------------------------------------------------------------------

  datatype Tag = Li | Ul

  /** A reader of the markup: opening tags are pushed, a closing tag must
      match the innermost open one, text leaves the stack alone. */
  function Step(open: seq<Tag>, f: Fragment): Option<seq<Tag>>
  {
    match f
    case OpenItem => Some(open + [Li])
    case OpenList => Some(open + [Ul])
    case CloseItem => if open != [] && open[|open| - 1] == Li then Some(open[..|open| - 1]) else None
    case CloseList => if open != [] && open[|open| - 1] == Ul then Some(open[..|open| - 1]) else None
    case _ => Some(open)
  }

  function Run(open: seq<Tag>, s: seq<Fragment>): Option<seq<Tag>>
    decreases |s|
  {
    if s == [] then Some(open)
    else
      match Step(open, s[0])
      case None => None
      case Some(next) => Run(next, s[1..])
  }

  /** Every tag opened is closed by the matching tag, innermost first. */
  predicate Balanced(s: seq<Fragment>)
  {
    Run([], s) == Some([])
  }

  lemma {:induction false} RunAppend(open: seq<Tag>, a: seq<Fragment>, b: seq<Fragment>)
    ensures Run(open, a + b) == (if Run(open, a).None? then None else Run(Run(open, a).value, b))
    decreases |a|
  {
    if a == [] {
      assert a + b == b;
    } else {
      assert (a + b)[0] == a[0] && (a + b)[1..] == a[1..] + b;
      match Step(open, a[0])
      case None =>
        assert Run(open, a) == None;
        assert Run(open, a + b) == None;
      case Some(next) =>
        assert Run(open, a) == Run(next, a[1..]);
        assert Run(open, a + b) == Run(next, a[1..] + b);
        RunAppend(next, a[1..], b);
    }
  }

  /** A stream that runs from `open` runs the same way under more open tags. */
  lemma {:induction false} RunUnder(outer: seq<Tag>, open: seq<Tag>, s: seq<Fragment>)
    requires Run(open, s).Some?
    ensures Run(outer + open, s) == Some(outer + Run(open, s).value)
    decreases |s|
  {
    if s != [] {
      var next := Step(open, s[0]).value;
      assert Step(outer + open, s[0]) == Some(outer + next) by {
        if s[0].CloseItem? || s[0].CloseList? {
          assert (outer + open)[|outer + open| - 1] == open[|open| - 1];
          assert (outer + open)[..|outer + open| - 1] == outer + open[..|open| - 1];
        } else if s[0].OpenItem? || s[0].OpenList? {
          assert (outer + open) + [if s[0].OpenItem? then Li else Ul]
              == outer + (open + [if s[0].OpenItem? then Li else Ul]);
        }
      }
      RunUnder(outer, next, s[1..]);
    }
  }

  lemma BalancedConcat(a: seq<Fragment>, b: seq<Fragment>)
    requires Balanced(a) && Balanced(b)
    ensures Balanced(a + b)
  {
    RunAppend([], a, b);
  }

  lemma BalancedWrap(opening: Fragment, s: seq<Fragment>, closing: Fragment)
    requires (opening, closing) == (OpenItem, CloseItem) || (opening, closing) == (OpenList, CloseList)
    requires Balanced(s)
    ensures Balanced([opening] + s + [closing])
  {
    var tag := if opening == OpenItem then Li else Ul;
    RunAppend([], [opening], s);
    assert Run([], [opening]) == Some([tag]) by {
      assert opening == OpenItem || opening == OpenList;
      assert [] + [tag] == [tag];
      assert Step([], opening) == Some([tag]);
      assert [opening][1..] == [];
    }
    RunUnder([tag], [], s);
    assert [tag] + [] == [tag];
    RunAppend([], [opening] + s, [closing]);
    assert Run([tag], [closing]) == Some([]) by {
      assert [closing][1..] == [];
    }
  }

  /** Every `<li>` and `<ul>` printed for a tree is closed by the matching tag. */
  lemma {:induction false} RenderBalanced(t: SiteTree, badLinks: set<Url>, anchorBadLinks: bool)
    ensures Balanced(Render(t, badLinks, anchorBadLinks))
    decreases t, 1
  {
    var lbl := Label(t.url, badLinks, anchorBadLinks);
    var inner: seq<Fragment> := if t.kids == [] then [] else [OpenList] + RenderAll(t.kids, badLinks, anchorBadLinks) + [CloseList];
    assert Balanced(inner) by {
      if t.kids != [] {
        RenderAllBalanced(t.kids, badLinks, anchorBadLinks);
        BalancedWrap(OpenList, RenderAll(t.kids, badLinks, anchorBadLinks), CloseList);
      }
    }
    BalancedItem(lbl, inner);
  }

  /** An item holding a label and balanced markup is balanced. */
  lemma BalancedItem(lbl: Fragment, inner: seq<Fragment>)
    requires lbl.BareUrl? || lbl.Anchor?
    requires Balanced(inner)
    ensures Balanced([OpenItem, lbl] + inner + [CloseItem])
  {
    assert Balanced([lbl]) by { assert [lbl][1..] == []; }
    BalancedConcat([lbl], inner);
    BalancedWrap(OpenItem, [lbl] + inner, CloseItem);
    assert [OpenItem, lbl] + inner == [OpenItem] + ([lbl] + inner);
  }

  lemma {:induction false} RenderAllBalanced(ts: seq<SiteTree>, badLinks: set<Url>, anchorBadLinks: bool)
    ensures Balanced(RenderAll(ts, badLinks, anchorBadLinks))
    decreases ts, 0
  {
    if ts != [] {
      RenderAllBalanced(ts[..|ts| - 1], badLinks, anchorBadLinks);
      RenderBalanced(ts[|ts| - 1], badLinks, anchorBadLinks);
      BalancedConcat(RenderAll(ts[..|ts| - 1], badLinks, anchorBadLinks), Render(ts[|ts| - 1], badLinks, anchorBadLinks));
    }
  }

  // ---------------------------------------------------------------------
  // Claiming children (sitemap.py:49-56)
  // ---------------------------------------------------------------------

  /** The children of a node the walk will descend into: those not yet
      explored, each once, in their stored order. A child that occurs twice
      in the list is claimed at its first occurrence. */
  function Fresh(children: seq<Url>, explored: set<Url>): (r: seq<Url>)
    ensures NoDup(r)
    ensures Elems(r) == Elems(children) - explored
  {
    if children == [] then []
    else if children[0] in explored then
      Fresh(children[1..], explored)
    else
      var rest := Fresh(children[1..], explored + {children[0]});
      assert Elems(children) == {children[0]} + Elems(children[1..]);
      assert Elems([children[0]] + rest) == {children[0]} + Elems(rest);
      [children[0]] + rest
  }

  /** The claimed children keep their stored order. */
  lemma {:induction false} FreshInOrder(children: seq<Url>, explored: set<Url>)
    ensures IsSubsequence(Fresh(children, explored), children)
  {
    if children != [] {
      var rest := children[1..];
      if children[0] in explored {
        FreshInOrder(rest, explored);
      } else {
        FreshInOrder(rest, explored + {children[0]});
        assert Fresh(children, explored)[1..] == Fresh(rest, explored + {children[0]});
      }
    }
  }

  /** The loop that builds `to_explore`: every child not yet explored is
      marked explored and queued, before any of them is descended into. */
  method ClaimChildren(children: seq<Url>, explored: set<Url>)
    returns (toExplore: seq<Url>, explored': set<Url>)
    ensures toExplore == Fresh(children, explored)
    ensures explored' == explored + Elems(toExplore)
  {
    toExplore, explored' := [], explored;
    var k := 0;
    while k < |children|
      invariant 0 <= k <= |children|
      invariant explored' == explored + Elems(toExplore)
      invariant toExplore + Fresh(children[k..], explored') == Fresh(children, explored)
    {
      var i := children[k];
      assert children[k..][0] == i && children[k..][1..] == children[k + 1..];
      assert Fresh(children[k..], explored') == if i in explored' then Fresh(children[k + 1..], explored')
                                                else [i] + Fresh(children[k + 1..], explored' + {i});
      if i in explored' {
        k := k + 1;
        continue;
      }
      explored' := explored' + {i};
      toExplore := toExplore + [i];
      k := k + 1;
    }
  }

  // ---------------------------------------------------------------------
  // The walk (sitemap.py:31-65)
  // ---------------------------------------------------------------------

  /** Every node at a level no deeper than `maxLevel` had all of its
      children in `explored` by the end of the walk. */
  ghost predicate Expanded(g: Graph, t: SiteTree, level: int, maxLevel: int, explored: set<Url>)
    decreases t
  {
    && t.url in g
    && (level <= maxLevel ==> forall c :: c in g[t.url].children ==> c in explored)
    && forall k :: k in t.kids ==> Expanded(g, k, level + 1, maxLevel, explored)
  }

  /** Every nesting in the list is a link of the graph. */
  ghost predicate FollowsLinks(g: Graph, t: SiteTree)
    decreases t
  {
    && t.url in g
    && forall k :: k in t.kids ==> k.url in g[t.url].children && FollowsLinks(g, k)
  }

  /** `t` is the tree the walk builds when it enters `t.url` with
      `explored` as the explored set. At a level up to `maxLevel` the
      children are the fresh ones, all claimed before any is entered, and
      none below it. The children are then walked in turn from the set
      holding the parent and its claims. */
  ghost predicate Walked(g: Graph, t: SiteTree, level: int, maxLevel: int, explored: set<Url>)
    decreases t, 1
  {
    && t.url in g
    && KidUrls(t) == (if level <= maxLevel then Fresh(g[t.url].children, explored + {t.url}) else [])
    && WalkedAll(g, t.kids, level + 1, maxLevel, explored + {t.url} + Elems(KidUrls(t)))
  }

  /** Sibling trees walked in turn from `explored`: each one sees every URL
      the siblings before it printed. */
  ghost predicate WalkedAll(g: Graph, ts: seq<SiteTree>, level: int, maxLevel: int, explored: set<Url>)
    decreases ts, 0
  {
    ts != [] ==>
      && WalkedAll(g, ts[..|ts| - 1], level, maxLevel, explored)
      && Walked(g, ts[|ts| - 1], level, maxLevel, explored + Elems(UrlsAll(ts[..|ts| - 1])))
  }

  /** The walk's rule leaves no freedom: from the same link, level and
      explored set there is only one tree that follows it. */
  lemma {:induction false} WalkedUnique(g: Graph, t: SiteTree, t': SiteTree, level: int, maxLevel: int, explored: set<Url>)
    requires Walked(g, t, level, maxLevel, explored) && Walked(g, t', level, maxLevel, explored)
    requires t.url == t'.url
    ensures t == t'
    decreases t, 1
  {
    assert Roots(t.kids) == Roots(t'.kids);
    WalkedAllUnique(g, t.kids, t'.kids, level + 1, maxLevel, explored + {t.url} + Elems(KidUrls(t)));
  }

  lemma {:induction false} WalkedAllUnique(g: Graph, ts: seq<SiteTree>, ts': seq<SiteTree>, level: int, maxLevel: int, explored: set<Url>)
    requires WalkedAll(g, ts, level, maxLevel, explored) && WalkedAll(g, ts', level, maxLevel, explored)
    requires Roots(ts) == Roots(ts')
    ensures ts == ts'
    decreases ts, 0
  {
    if ts != [] {
      var n := |ts| - 1;
      assert |ts'| == |Roots(ts')| == |Roots(ts)| == |ts|;
      assert Roots(ts[..n]) == Roots(ts)[..n] == Roots(ts')[..n] == Roots(ts'[..n]);
      WalkedAllUnique(g, ts[..n], ts'[..n], level, maxLevel, explored);
      assert ts[n].url == Roots(ts)[n] == Roots(ts')[n] == ts'[n].url;
      WalkedUnique(g, ts[n], ts'[n], level, maxLevel, explored + Elems(UrlsAll(ts[..n])));
      TakeSnoc(ts, n);
      TakeSnoc(ts', n);
      assert ts == ts[..n + 1] && ts' == ts'[..n + 1];
    }
  }

  /** A node whose children were walked by the rule was walked by it. */
  lemma WalkedNode(g: Graph, url: Url, kids: seq<SiteTree>, level: int, maxLevel: int,
                   explored: set<Url>, claimed: set<Url>)
    requires url in g
    requires Roots(kids) == if level <= maxLevel then Fresh(g[url].children, explored + {url}) else []
    requires claimed == explored + {url} + Elems(Roots(kids))
    requires WalkedAll(g, kids, level + 1, maxLevel, claimed)
    ensures Walked(g, Node(url, kids), level, maxLevel, explored)
  {
  }

  /** One more child walked by the rule, from the set its elder siblings
      left behind. */
  lemma WalkedAppend(g: Graph, kids: seq<SiteTree>, c: SiteTree, level: int, maxLevel: int, claimed: set<Url>)
    requires WalkedAll(g, kids, level, maxLevel, claimed)
    requires Walked(g, c, level, maxLevel, claimed + Elems(UrlsAll(kids)))
    ensures WalkedAll(g, kids + [c], level, maxLevel, claimed)
  {
    assert (kids + [c])[..|kids|] == kids;
  }

  /** The explored set in the loop of `ExploreEach` is the claimed set and
      the URLs printed so far. */
  lemma EachExplored(toExplore: seq<Url>, k: nat, claimed: set<Url>, e: set<Url>, kids: seq<SiteTree>)
    requires k <= |toExplore| && Elems(toExplore) <= claimed <= e
    requires Elems(UrlsAll(kids)) == (e - claimed) + Elems(toExplore[..k])
    ensures e == claimed + Elems(UrlsAll(kids))
  {
    assert Elems(toExplore[..k]) <= Elems(toExplore) by {
      forall x | x in Elems(toExplore[..k]) ensures x in Elems(toExplore) {
        var m :| 0 <= m < k && toExplore[..k][m] == x;
        assert toExplore[m] == x;
      }
    }
  }

  lemma {:induction false} ExpandedMonotonic(g: Graph, t: SiteTree, level: int, maxLevel: int, e: set<Url>, e': set<Url>)
    requires Expanded(g, t, level, maxLevel, e) && e <= e'
    ensures Expanded(g, t, level, maxLevel, e')
    decreases t
  {
    forall k | k in t.kids
      ensures Expanded(g, k, level + 1, maxLevel, e')
    {
      ExpandedMonotonic(g, k, level + 1, maxLevel, e, e');
    }
  }

  lemma AppendKid(kids: seq<SiteTree>, c: SiteTree, badLinks: set<Url>, anchorBadLinks: bool)
    ensures RenderAll(kids + [c], badLinks, anchorBadLinks) == RenderAll(kids, badLinks, anchorBadLinks) + Render(c, badLinks, anchorBadLinks)
    ensures UrlsAll(kids + [c]) == UrlsAll(kids) + Urls(c)
    ensures MaxDepthAll(kids + [c]) == if MaxDepthAll(kids) < 1 + MaxDepth(c) then 1 + MaxDepth(c) else MaxDepthAll(kids)
  {
    assert (kids + [c])[..|kids|] == kids;
  }

  lemma {:induction false} SubsetCard<T>(a: set<T>, b: set<T>)
    requires a <= b
    ensures |a| <= |b|
    decreases b
  {
    if a != {} {
      var x :| x in a;
      SubsetCard(a - {x}, b - {x});
    }
  }

  /** Descending into a claimed child leaves fewer unexplored URLs. */
  lemma FewerUnexplored(keys: set<Url>, explored: set<Url>, before: set<Url>, x: Url)
    requires x in keys && x !in explored && x in before && explored <= before
    ensures |keys - before| < |keys - explored|
  {
    SubsetCard(keys - before, keys - explored - {x});
    assert keys - explored == (keys - explored - {x}) + {x};
  }

  /** The loop invariant of `Explore` survives one more child. */
  lemma ChildAdded(toExplore: seq<Url>, k: nat, kids: seq<SiteTree>, c: SiteTree,
                   claimed: set<Url>, before: set<Url>, e: set<Url>)
    requires k < |toExplore| && NoDup(toExplore) && Elems(toExplore) <= claimed <= before <= e
    requires NoDup(UrlsAll(kids)) && Elems(UrlsAll(kids)) == (before - claimed) + Elems(toExplore[..k])
    requires NoDup(Urls(c)) && Elems(Urls(c)) == (e - before) + {toExplore[k]}
    ensures NoDup(UrlsAll(kids) + Urls(c))
    ensures Elems(UrlsAll(kids) + Urls(c)) == (e - claimed) + Elems(toExplore[..k + 1])
  {
    var child := toExplore[k];
    assert toExplore[..k + 1] == toExplore[..k] + [child];
    assert Elems(toExplore[..k + 1]) == Elems(toExplore[..k]) + {child};
    assert child !in Elems(toExplore[..k]);
    assert Elems(toExplore[..k]) <= Elems(toExplore);
    assert Elems(UrlsAll(kids)) <= before;
    assert Elems(UrlsAll(kids)) !! Elems(Urls(c));
    NoDupAppend(UrlsAll(kids), Urls(c));
    assert Elems(UrlsAll(kids) + Urls(c)) == Elems(UrlsAll(kids)) + Elems(Urls(c));
  }

  /** The claimed children are links of the graph, and claiming one of them
      leaves fewer URLs unexplored: the measure that ends the walk. */
  lemma Claimed(g: Graph, url: Url, explored: set<Url>, toExplore: seq<Url>, claimed: set<Url>)
    requires ChildrenRegistered(g) && url in g
    requires toExplore == Fresh(g[url].children, explored + {url})
    requires claimed == explored + {url} + Elems(toExplore)
    ensures Elems(toExplore) <= g.Keys
    ensures toExplore != [] ==> |g.Keys - claimed| < |g.Keys - explored|
    ensures toExplore == [] ==> forall c :: c in g[url].children ==> c in claimed
  {
    forall x | x in Elems(toExplore) ensures x in g {
      assert x in Elems(g[url].children);
    }
    if toExplore != [] {
      assert toExplore[0] in Elems(toExplore);
      FewerUnexplored(g.Keys, explored, claimed, toExplore[0]);
    } else {
      forall c | c in g[url].children ensures c in claimed {
        assert c in Elems(g[url].children);
      }
    }
  }

  /** The postcondition of `Explore` from the state after its loop. */
  lemma ItemDone(g: Graph, badLinks: set<Url>, anchorBadLinks: bool, url: Url, kids: seq<SiteTree>,
                 toExplore: seq<Url>, explored: set<Url>, claimed: set<Url>, e: set<Url>,
                 level: int, maxLevel: int, o: seq<Fragment>)
    requires url in g && level <= maxLevel
    requires toExplore == Fresh(g[url].children, explored + {url})
    requires claimed == explored + {url} + Elems(toExplore) && Elems(toExplore) <= g.Keys
    requires toExplore != [] && o == RenderAll(kids, badLinks, anchorBadLinks)
    requires |kids| == |toExplore| && forall j :: 0 <= j < |kids| ==> kids[j].url == toExplore[j]
    requires claimed <= e <= claimed + g.Keys
    requires NoDup(UrlsAll(kids)) && Elems(UrlsAll(kids)) == (e - claimed) + Elems(toExplore)
    requires level + 1 + MaxDepthAll(kids) <= maxLevel + 2
    requires forall j :: 0 <= j < |kids| ==> Expanded(g, kids[j], level + 1, maxLevel, e) && FollowsLinks(g, kids[j])
    ensures [OpenItem, Label(url, badLinks, anchorBadLinks)] + ([OpenList] + o + [CloseList]) + [CloseItem] == Render(Node(url, kids), badLinks, anchorBadLinks)
    ensures explored + {url} <= e <= explored + g.Keys
    ensures KidUrls(Node(url, kids)) == toExplore
    ensures NoDup(Urls(Node(url, kids))) && Elems(Urls(Node(url, kids))) == (e - explored) + {url}
    ensures level + MaxDepth(Node(url, kids)) <= maxLevel + 1
    ensures Expanded(g, Node(url, kids), level, maxLevel, e) && FollowsLinks(g, Node(url, kids))
  {
    var t := Node(url, kids);
    assert url !in Elems(UrlsAll(kids));
    assert NoDup([url]);
    NoDupAppend([url], UrlsAll(kids));
    assert Elems(Urls(t)) == {url} + Elems(UrlsAll(kids));
    assert Elems(toExplore) !! explored;
    forall k | k in kids
      ensures Expanded(g, k, level + 1, maxLevel, e) && k.url in g[url].children && FollowsLinks(g, k)
    {
      var j :| 0 <= j < |kids| && kids[j] == k;
      assert k.url in Elems(toExplore);
    }
    forall c | c in g[url].children
      ensures c in e
    {
      assert c in Elems(g[url].children);
    }
  }

  /** The postcondition of `Explore` for an item without a nested list:
      below `maxLevel`, or with every child already explored. */
  lemma LeafDone(g: Graph, badLinks: set<Url>, anchorBadLinks: bool, url: Url,
                 explored: set<Url>, level: int, maxLevel: int)
    requires url in g
    requires level <= maxLevel ==> forall c :: c in g[url].children ==> c in explored + {url}
    ensures [OpenItem, Label(url, badLinks, anchorBadLinks)] + [CloseItem] == Render(Node(url, []), badLinks, anchorBadLinks)
    ensures explored + {url} <= explored + {url} <= explored + g.Keys
    ensures KidUrls(Node(url, [])) == []
    ensures NoDup(Urls(Node(url, []))) && Elems(Urls(Node(url, []))) == (explored + {url} - explored) + {url}
    ensures level + MaxDepth(Node(url, [])) <= if level <= maxLevel then maxLevel + 1 else level
    ensures Expanded(g, Node(url, []), level, maxLevel, explored + {url}) && FollowsLinks(g, Node(url, []))
  {
    assert Urls(Node(url, [])) == [url];
  }

  /** `explore(link, explored, level)`. The walk marks `url` explored, prints
      its item, and, while `level <= maxLevel`, claims the fresh children and
      descends into each in turn, passing on the same explored set.

      What one call guarantees:
      - the item printed is the tree's rendering, rooted at `url`;
      - `explored` only grows, and only by URLs of the graph;
      - the children descended into are `Fresh(children, explored + {url})`,
        in stored order, and none at all below `maxLevel`;
      - no URL is printed twice, and the URLs printed are exactly `url`
        and the URLs the call added to `explored`;
      - no nested list reaches deeper than `maxLevel + 1` levels below the
        top of the walk;
      - every node printed at a level up to `maxLevel` has all of its
        children explored, and every nesting follows a link of the graph;
      - the tree is the one `Walked` fixes, which `WalkedUnique` shows is
        the only tree the walk's rule allows. */
  method Explore(g: Graph, badLinks: set<Url>, anchorBadLinks: bool, maxLevel: int,
                 url: Url, explored: set<Url>, level: int)
    returns (explored': set<Url>, out: seq<Fragment>, ghost tree: SiteTree)
    requires ChildrenRegistered(g) && url in g
    ensures tree.url == url && out == Render(tree, badLinks, anchorBadLinks)
    ensures explored + {url} <= explored' <= explored + g.Keys
    ensures KidUrls(tree) == if level <= maxLevel then Fresh(g[url].children, explored + {url}) else []
    ensures NoDup(Urls(tree)) && Elems(Urls(tree)) == (explored' - explored) + {url}
    ensures level + MaxDepth(tree) <= if level <= maxLevel then maxLevel + 1 else level
    ensures Expanded(g, tree, level, maxLevel, explored') && FollowsLinks(g, tree)
    ensures Walked(g, tree, level, maxLevel, explored)
    decreases |g.Keys - explored|, 0
  {
    explored' := explored + {url};
    out := [OpenItem, Label(url, badLinks, anchorBadLinks)];
    if level <= maxLevel {
      var toExplore;
      toExplore, explored' := ClaimChildren(g[url].children, explored');
      ghost var claimed := explored';
      Claimed(g, url, explored, toExplore, claimed);
      if |toExplore| > 0 {
        var o; ghost var kids;
        explored', o, kids := ExploreEach(g, badLinks, anchorBadLinks, maxLevel, toExplore, explored', level + 1);
        ItemDone(g, badLinks, anchorBadLinks, url, kids, toExplore, explored, claimed, explored', level, maxLevel, o);
        WalkedNode(g, url, kids, level, maxLevel, explored, claimed);
        out := out + ([OpenList] + o + [CloseList]) + [CloseItem];
        tree := Node(url, kids);
      } else {
        LeafDone(g, badLinks, anchorBadLinks, url, explored, level, maxLevel);
        WalkedNode(g, url, [], level, maxLevel, explored, explored + {url});
        out := out + [CloseItem];
        tree := Node(url, []);
      }
    } else {
      LeafDone(g, badLinks, anchorBadLinks, url, explored, level, maxLevel);
      WalkedNode(g, url, [], level, maxLevel, explored, explored + {url});
      out := out + [CloseItem];
      tree := Node(url, []);
    }
  }

  /** The walks before a child stay expanded when the child's walk adds to
      the explored set. */
  lemma ExpandedAppend(g: Graph, kids: seq<SiteTree>, c: SiteTree, level: int, maxLevel: int,
                       before: set<Url>, e: set<Url>)
    requires before <= e
    requires forall j :: 0 <= j < |kids| ==> Expanded(g, kids[j], level, maxLevel, before) && FollowsLinks(g, kids[j])
    requires Expanded(g, c, level, maxLevel, e) && FollowsLinks(g, c)
    ensures forall j :: 0 <= j < |kids + [c]| ==>
              Expanded(g, (kids + [c])[j], level, maxLevel, e) && FollowsLinks(g, (kids + [c])[j])
  {
    var kids' := kids + [c];
    forall j | 0 <= j < |kids'|
      ensures Expanded(g, kids'[j], level, maxLevel, e) && FollowsLinks(g, kids'[j])
    {
      if j < |kids| {
        assert kids'[j] == kids[j];
        ExpandedMonotonic(g, kids[j], level, maxLevel, before, e);
      } else {
        assert kids'[j] == c;
      }
    }
  }

  /** The state of the loop in `ExploreEach` after the first `k` claimed
      children have been walked. */
  ghost predicate EachInv(g: Graph, badLinks: set<Url>, anchorBadLinks: bool, maxLevel: int,
                          toExplore: seq<Url>, explored: set<Url>, level: int, k: nat,
                          e: set<Url>, out: seq<Fragment>, kids: seq<SiteTree>)
  {
    && k <= |toExplore|
    && |kids| == k && (forall j :: 0 <= j < k ==> kids[j].url == toExplore[j])
    && explored <= e <= explored + g.Keys
    && out == RenderAll(kids, badLinks, anchorBadLinks)
    && NoDup(UrlsAll(kids))
    && Elems(UrlsAll(kids)) == (e - explored) + Elems(toExplore[..k])
    && level + MaxDepthAll(kids) <= maxLevel + 2
    && (forall j :: 0 <= j < k ==> Expanded(g, kids[j], level, maxLevel, e) && FollowsLinks(g, kids[j]))
    && WalkedAll(g, kids, level, maxLevel, explored)
  }

  /** One turn of the loop in `ExploreEach`: the child's walk keeps the
      loop invariant. */
  lemma {:induction false} EachStep(g: Graph, badLinks: set<Url>, anchorBadLinks: bool, maxLevel: int,
                 toExplore: seq<Url>, explored: set<Url>, level: int, k: nat,
                 before: set<Url>, out: seq<Fragment>, kids: seq<SiteTree>,
                 e: set<Url>, o: seq<Fragment>, c: SiteTree)
    requires level <= maxLevel + 1
    requires k < |toExplore| && NoDup(toExplore) && Elems(toExplore) <= explored
    requires EachInv(g, badLinks, anchorBadLinks, maxLevel, toExplore, explored, level, k, before, out, kids)
    requires c.url == toExplore[k] && o == Render(c, badLinks, anchorBadLinks)
    requires before + {toExplore[k]} <= e <= before + g.Keys
    requires NoDup(Urls(c)) && Elems(Urls(c)) == (e - before) + {toExplore[k]}
    requires level + MaxDepth(c) <= if level <= maxLevel then maxLevel + 1 else level
    requires Expanded(g, c, level, maxLevel, e) && FollowsLinks(g, c)
    requires Walked(g, c, level, maxLevel, before)
    ensures EachInv(g, badLinks, anchorBadLinks, maxLevel, toExplore, explored, level, k + 1, e, out + o, kids + [c])
  {
    AppendKid(kids, c, badLinks, anchorBadLinks);
    ChildAdded(toExplore, k, kids, c, explored, before, e);
    ExpandedAppend(g, kids, c, level, maxLevel, before, e);
    EachExplored(toExplore, k, explored, before, kids);
    WalkedAppend(g, kids, c, level, maxLevel, explored);
  }

  /** The loop in `ExploreEach` has walked every claimed child. */
  lemma EachDone(g: Graph, badLinks: set<Url>, anchorBadLinks: bool, maxLevel: int,
                 toExplore: seq<Url>, explored: set<Url>, level: int,
                 e: set<Url>, out: seq<Fragment>, kids: seq<SiteTree>)
    requires EachInv(g, badLinks, anchorBadLinks, maxLevel, toExplore, explored, level, |toExplore|, e, out, kids)
    ensures out == RenderAll(kids, badLinks, anchorBadLinks)
    ensures |kids| == |toExplore| && forall j :: 0 <= j < |kids| ==> kids[j].url == toExplore[j]
    ensures explored <= e <= explored + g.Keys
    ensures NoDup(UrlsAll(kids)) && Elems(UrlsAll(kids)) == (e - explored) + Elems(toExplore)
    ensures level + MaxDepthAll(kids) <= maxLevel + 2
    ensures forall j :: 0 <= j < |kids| ==> Expanded(g, kids[j], level, maxLevel, e) && FollowsLinks(g, kids[j])
    ensures WalkedAll(g, kids, level, maxLevel, explored)
  {
    assert toExplore[..|toExplore|] == toExplore;
  }

  /** `for i in to_explore: explore(linkMap[i], explored, level)`: the claimed
      children walked in turn, each seeing what the walks before it explored. */
  method ExploreEach(g: Graph, badLinks: set<Url>, anchorBadLinks: bool, maxLevel: int,
                     toExplore: seq<Url>, explored: set<Url>, level: int)
    returns (explored': set<Url>, out: seq<Fragment>, ghost kids: seq<SiteTree>)
    requires ChildrenRegistered(g) && level <= maxLevel + 1
    requires NoDup(toExplore) && Elems(toExplore) <= explored && Elems(toExplore) <= g.Keys
    ensures out == RenderAll(kids, badLinks, anchorBadLinks)
    ensures |kids| == |toExplore| && forall j :: 0 <= j < |kids| ==> kids[j].url == toExplore[j]
    ensures explored <= explored' <= explored + g.Keys
    ensures NoDup(UrlsAll(kids)) && Elems(UrlsAll(kids)) == (explored' - explored) + Elems(toExplore)
    ensures level + MaxDepthAll(kids) <= maxLevel + 2
    ensures forall j :: 0 <= j < |kids| ==> Expanded(g, kids[j], level, maxLevel, explored') && FollowsLinks(g, kids[j])
    ensures WalkedAll(g, kids, level, maxLevel, explored)
    decreases |g.Keys - explored|, 1
  {
    explored', out, kids := explored, [], [];
    var k := 0;
    while k < |toExplore|
      invariant EachInv(g, badLinks, anchorBadLinks, maxLevel, toExplore, explored, level, k, explored', out, kids)
    {
      ghost var before := explored';
      SubsetCard(g.Keys - before, g.Keys - explored);
      assert toExplore[k] in Elems(toExplore);
      var e, o, c := Explore(g, badLinks, anchorBadLinks, maxLevel, toExplore[k], explored', level);
      EachStep(g, badLinks, anchorBadLinks, maxLevel, toExplore, explored, level, k, before, out, kids, e, o, c);
      explored', out := e, out + o;
      kids := kids + [c];
      k := k + 1;
    }
    EachDone(g, badLinks, anchorBadLinks, maxLevel, toExplore, explored, level, explored', out, kids);
  }

  /** `generate()`: the walk from the base link inside one outer `<ul>`.
      In the source the explored set is a mutable default argument of
      `explore`, created once and kept between calls; here it is the
      parameter `explored`, empty for the first report of a run. */
  method Generate(g: Graph, badLinks: set<Url>, anchorBadLinks: bool, maxLevel: int,
                  base: Url, explored: set<Url>)
    returns (explored': set<Url>, out: seq<Fragment>, ghost tree: SiteTree)
    requires ChildrenRegistered(g) && base in g
    ensures tree.url == base && out == [OpenList] + Render(tree, badLinks, anchorBadLinks) + [CloseList]
    ensures Balanced(out)
    ensures Labels(out) == Urls(tree) && Labels(out)[0] == base
    ensures NoDup(Labels(out))
    ensures Elems(Labels(out)) == (explored' - explored) + {base}
    ensures explored == {} ==> Elems(Labels(out)) == explored'
    ensures 0 + MaxDepth(tree) <= if 0 <= maxLevel then maxLevel + 1 else 0
    ensures Expanded(g, tree, 0, maxLevel, explored') && FollowsLinks(g, tree)
    ensures Walked(g, tree, 0, maxLevel, explored)
    ensures KidUrls(tree) == if 0 <= maxLevel then Fresh(g[base].children, explored + {base}) else []
    ensures (forall c :: c in g[base].children ==> c in explored) ==>
              out == [OpenList, OpenItem, Label(base, badLinks, anchorBadLinks), CloseItem, CloseList]
  {
    var o;
    explored', o, tree := Explore(g, badLinks, anchorBadLinks, maxLevel, base, explored, 0);
    out := [OpenList] + o + [CloseList];
    Wrapped(g, badLinks, anchorBadLinks, maxLevel, base, explored, explored', o, tree);
  }

  /** What the list around the walk from the base page shows. */
  lemma Wrapped(g: Graph, badLinks: set<Url>, anchorBadLinks: bool, maxLevel: int,
                base: Url, explored: set<Url>, explored': set<Url>, o: seq<Fragment>, tree: SiteTree)
    requires ChildrenRegistered(g) && base in g
    requires tree.url == base && o == Render(tree, badLinks, anchorBadLinks)
    requires KidUrls(tree) == if 0 <= maxLevel then Fresh(g[base].children, explored + {base}) else []
    ensures var out := [OpenList] + o + [CloseList];
            && Balanced(out)
            && Labels(out) == Urls(tree) && Labels(out)[0] == base
            && ((forall c :: c in g[base].children ==> c in explored) ==>
                  out == [OpenList, OpenItem, Label(base, badLinks, anchorBadLinks), CloseItem, CloseList])
  {
    WrapBalanced(tree, badLinks, anchorBadLinks);
    WrapLabels(tree, badLinks, anchorBadLinks);
    if forall c :: c in g[base].children ==> c in explored {
      LoneBase(g, badLinks, anchorBadLinks, maxLevel, base, explored, tree);
    }
  }

  lemma WrapBalanced(tree: SiteTree, badLinks: set<Url>, anchorBadLinks: bool)
    ensures Balanced([OpenList] + Render(tree, badLinks, anchorBadLinks) + [CloseList])
  {
    RenderBalanced(tree, badLinks, anchorBadLinks);
    BalancedWrap(OpenList, Render(tree, badLinks, anchorBadLinks), CloseList);
  }

  lemma WrapLabels(tree: SiteTree, badLinks: set<Url>, anchorBadLinks: bool)
    ensures var out := [OpenList] + Render(tree, badLinks, anchorBadLinks) + [CloseList];
            Labels(out) == Urls(tree) && Labels(out)[0] == tree.url
  {
    var o := Render(tree, badLinks, anchorBadLinks);
    LabelsRender(tree, badLinks, anchorBadLinks);
    LabelsAppend([OpenList], o);
    LabelsAppend([OpenList] + o, [CloseList]);
    assert Labels([OpenList]) == [] by { assert [OpenList][..0] == []; }
    assert Labels([CloseList]) == [] by { assert [CloseList][..0] == []; }
  }

  /** With every child of the base page already explored, the map is the
      base page alone. */
  lemma LoneBase(g: Graph, badLinks: set<Url>, anchorBadLinks: bool, maxLevel: int,
                 base: Url, explored: set<Url>, tree: SiteTree)
    requires ChildrenRegistered(g) && base in g
    requires tree.url == base
    requires KidUrls(tree) == if 0 <= maxLevel then Fresh(g[base].children, explored + {base}) else []
    requires forall c :: c in g[base].children ==> c in explored
    ensures [OpenList] + Render(tree, badLinks, anchorBadLinks) + [CloseList]
            == [OpenList, OpenItem, Label(base, badLinks, anchorBadLinks), CloseItem, CloseList]
  {
    assert Elems(g[base].children) <= explored;
    NoDupCard(KidUrls(tree));
  }
}
