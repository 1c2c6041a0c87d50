/** The "What's New" report (plugins/whatsnew.py): the URLs of the crawl,
    ordered by the age comparison, keeping the HTML pages whose age is
    known and at most the configured limit, one table row per page.

    The comparison `sort_by_age` and the anchor `make_link(url,
    get_title(url))` come from a module that is not part of this model:
    they are the parameters `le` and `anchor`. The report prints to
    standard output; the model returns the printed lines. */
module WhatsNew {
  import opened Wrappers
  import opened Links
  import opened Seqs
  import opened Text

  /** A link gets a row: an HTML page whose age is known and at most `limit`. */
  predicate Listed(link: Link, limit: int)
  {
    link.html && link.age.Some? && link.age.value <= limit
  }

  /** The URLs of `urls` that get a row, in the order of `urls`. */
  function ListedUrls(g: Graph, urls: seq<Url>, limit: int): (r: seq<Url>)
    requires forall u :: u in urls ==> u in g
    ensures forall u :: u in r ==> u in urls && Listed(g[u], limit)
  {
    if urls == [] then []
    else
      var last := urls[|urls| - 1];
      ListedUrls(g, urls[..|urls| - 1], limit) + (if Listed(g[last], limit) then [last] else [])
  }

  /** `'%s' % link.author`: the author, or `None` when there is none. */
  function AuthorText(author: Option<string>): string
  {
    if author.None? then "None" else author.value
  }

  /** The row of a listed URL. The first two cells are printed with a
      trailing comma, so Python puts a space before the next cell. The
      author is printed as recorded, not escaped. */
  function Row(g: Graph, url: Url, anchor: Url -> string): string
    requires url in g && g[url].age.Some?
  {
    "  <tr><td>" + anchor(url) + "</td>" + " " + "<td>" + AuthorText(g[url].author) + "</td>" + " "
    + "<td class=\"time\">" + Decimal(g[url].age.value) + "</td></tr>\n"
  }

  /** The rows of listed URLs, in order. */
  function Rows(g: Graph, urls: seq<Url>, anchor: Url -> string): seq<string>
    requires forall u :: u in urls ==> u in g && g[u].age.Some?
  {
    if urls == [] then [] else Rows(g, urls[..|urls| - 1], anchor) + [Row(g, urls[|urls| - 1], anchor)]
  }

  const Header := ["<div class=\"table\">\n", "<table border=0 cellpadding=2 cellspacing=2 width=\"75%\">\n",
                   "  <tr><th>Link</th><th>Author</th><th>Age</th></tr>\n"]
  const Footer := ["</table>\n", "</div>\n"]

  /** Every URL `ListedUrls` keeps is a listed page of `urls`. */
  lemma {:induction false} ListedMembers(g: Graph, urls: seq<Url>, limit: int)
    requires forall u :: u in urls ==> u in g
    ensures forall u :: u in ListedUrls(g, urls, limit) <==> u in urls && Listed(g[u], limit)
  {
    if urls != [] {
      var init, last := urls[..|urls| - 1], urls[|urls| - 1];
      assert urls == init + [last];
      ListedMembers(g, init, limit);
    }
  }

  /** `generate()`: sorts the URL keys with the age comparison, then prints
      the table header, one row per listed page in sorted order, and the
      closing tags. `keys` is `linkMap.keys()`: every registered URL once. */
  method Generate(g: Graph, keys: seq<Url>, le: (Url, Url) -> bool, limit: int, anchor: Url -> string)
    returns (lines: seq<string>)
    requires NoDup(keys) && Elems(keys) == g.Keys
    ensures var urls := SortBy(keys, le);
            (forall u :: u in urls ==> u in g)
            && lines == Header + Rows(g, ListedUrls(g, urls, limit), anchor) + Footer
  {
    lines := ["<div class=\"table\">\n"];
    lines := lines + ["<table border=0 cellpadding=2 cellspacing=2 width=\"75%\">\n"];
    lines := lines + ["  <tr><th>Link</th><th>Author</th><th>Age</th></tr>\n"];
    assert lines == Header;
    var urls := keys;
    urls := SortBy(urls, le);
    SortedKeysRegistered(g, keys, le);
    var rows := PrintRows(g, urls, limit, anchor);
    lines := lines + rows;
    assert lines == Header + rows;
    ghost var table := lines;
    lines := lines + ["</table>\n"];
    lines := lines + ["</div>\n"];
    AppendAssoc(table, ["</table>\n"], ["</div>\n"]);
  }

  /** The loop of `generate` over the sorted URLs: a row for each listed
      page, in order. */
  method PrintRows(g: Graph, urls: seq<Url>, limit: int, anchor: Url -> string) returns (rows: seq<string>)
    requires forall u :: u in urls ==> u in g
    ensures rows == Rows(g, ListedUrls(g, urls, limit), anchor)
  {
    rows := [];
    for k := 0 to |urls|
      invariant rows == Rows(g, ListedUrls(g, urls[..k], limit), anchor)
    {
      ListedStep(g, urls, k, limit, anchor);
      var url := urls[k];
      var link := g[url];
      if !link.html {
        continue;
      }
      var age := link.age;
      if age.Some? && age.value <= limit {
        var row := PrintRow(g, url, anchor);
        rows := rows + [row];
      }
    }
    assert urls[..|urls|] == urls;
  }

  /** The three `print` statements of one row, the first two ending in a
      comma. */
  method PrintRow(g: Graph, url: Url, anchor: Url -> string) returns (row: string)
    requires url in g && g[url].age.Some?
    ensures row == Row(g, url, anchor)
  {
    var link := g[url];
    row := "  <tr><td>" + anchor(url) + "</td>" + " ";
    row := row + "<td>" + AuthorText(link.author) + "</td>" + " ";
    row := row + "<td class=\"time\">" + Decimal(link.age.value) + "</td></tr>\n";
  }

  /** One more URL adds its row exactly when it is listed. */
  lemma ListedStep(g: Graph, urls: seq<Url>, k: nat, limit: int, anchor: Url -> string)
    requires k < |urls| && forall u :: u in urls ==> u in g
    ensures Listed(g[urls[k]], limit) ==>
              && ListedUrls(g, urls[..k + 1], limit) == ListedUrls(g, urls[..k], limit) + [urls[k]]
              && Rows(g, ListedUrls(g, urls[..k + 1], limit), anchor)
                 == Rows(g, ListedUrls(g, urls[..k], limit), anchor) + [Row(g, urls[k], anchor)]
    ensures !Listed(g[urls[k]], limit) ==> ListedUrls(g, urls[..k + 1], limit) == ListedUrls(g, urls[..k], limit)
  {
    var prefix := urls[..k + 1];
    assert prefix[..k] == urls[..k] && prefix[k] == urls[k];
    var before := ListedUrls(g, urls[..k], limit);
    if Listed(g[urls[k]], limit) {
      RowsSnoc(g, before, urls[k], anchor);
    } else {
      assert before + [] == before;
    }
  }

  lemma RowsSnoc(g: Graph, urls: seq<Url>, u: Url, anchor: Url -> string)
    requires forall v :: v in urls ==> v in g && g[v].age.Some?
    requires u in g && g[u].age.Some?
    ensures Rows(g, urls + [u], anchor) == Rows(g, urls, anchor) + [Row(g, u, anchor)]
  {
    PrefixOfSnoc(urls, u, |urls|);
  }

  // ---------------------------------------------------------------------
  // Properties of the listing
  // ---------------------------------------------------------------------

  /** Sorting the keys keeps them, so every sorted URL is registered. */
  lemma SortedKeysRegistered(g: Graph, keys: seq<Url>, le: (Url, Url) -> bool)
    requires Elems(keys) == g.Keys
    ensures forall u :: u in SortBy(keys, le) ==> u in g
  {
    var urls := SortBy(keys, le);
    forall u | u in urls ensures u in g {
      assert u in multiset(urls);
      assert u in Elems(keys);
    }
  }

  /** A URL gets a row exactly when it is registered and its link is a
      listed page; pages that are not HTML, or whose age is unknown or
      above the limit, never do. */
  lemma ListedExactly(g: Graph, keys: seq<Url>, le: (Url, Url) -> bool, limit: int, u: Url)
    requires Elems(keys) == g.Keys
    ensures forall v :: v in SortBy(keys, le) ==> v in g
    ensures u in ListedUrls(g, SortBy(keys, le), limit) <==> u in g && Listed(g[u], limit)
  {
    var urls := SortBy(keys, le);
    SortedKeysRegistered(g, keys, le);
    ListedMembers(g, urls, limit);
    if u in g {
      assert u in Elems(keys);
      assert u in multiset(keys);
      assert u in urls by {
        assert u in multiset(urls);
      }
    }
  }

  /** The listed URLs are the sorted URLs with some left out, the rest in
      the same order. */
  lemma {:induction false} ListedSubsequence(g: Graph, urls: seq<Url>, limit: int)
    requires forall u :: u in urls ==> u in g
    ensures IsSubsequence(ListedUrls(g, urls, limit), urls)
  {
    if urls != [] {
      var init, last := urls[..|urls| - 1], urls[|urls| - 1];
      assert urls == init + [last];
      var before := ListedUrls(g, init, limit);
      ListedSubsequence(g, init, limit);
      SubsequenceSnoc(before, init, last);
      if !Listed(g[last], limit) {
        assert before + [] == before;
      }
    }
  }

  /** No URL is listed twice when the input has none twice. */
  lemma {:induction false} ListedNoDup(g: Graph, urls: seq<Url>, limit: int)
    requires forall u :: u in urls ==> u in g
    requires NoDup(urls)
    ensures NoDup(ListedUrls(g, urls, limit))
  {
    if urls != [] {
      var init, last := urls[..|urls| - 1], urls[|urls| - 1];
      assert urls == init + [last];
      assert NoDup(init);
      ListedNoDup(g, init, limit);
      ListedMembers(g, init, limit);
      if Listed(g[last], limit) {
        assert last !in init;
        NoDupAppend(ListedUrls(g, init, limit), [last]);
      }
    }
  }

  /** A listing of a sorted sequence is sorted. */
  lemma {:induction false} ListedSorted(g: Graph, urls: seq<Url>, limit: int, le: (Url, Url) -> bool)
    requires forall u :: u in urls ==> u in g
    requires SortedBy(urls, le)
    ensures SortedBy(ListedUrls(g, urls, limit), le)
  {
    if urls != [] {
      var init, last := urls[..|urls| - 1], urls[|urls| - 1];
      var before := ListedUrls(g, init, limit);
      assert SortedBy(init, le) by {
        assert forall i :: 0 <= i < |init| ==> init[i] == urls[i];
      }
      ListedSorted(g, init, limit, le);
      if Listed(g[last], limit) {
        forall y | y in before
          ensures le(y, last)
        {
          var m :| 0 <= m < |init| && init[m] == y;
          assert urls[m] == y;
        }
        SortedSnoc(before, last, le);
      } else {
        assert before + [] == before;
      }
    }
  }

  /** With a total and transitive age comparison, the rows come in the
      order of the comparison, each listed URL once. */
  lemma RowsInAgeOrder(g: Graph, keys: seq<Url>, le: (Url, Url) -> bool, limit: int)
    requires NoDup(keys) && Elems(keys) == g.Keys
    requires Total(le) && Transitive(le)
    ensures forall u :: u in SortBy(keys, le) ==> u in g
    ensures var listed := ListedUrls(g, SortBy(keys, le), limit);
            SortedBy(listed, le) && NoDup(listed)
  {
    var urls := SortBy(keys, le);
    SortedKeysRegistered(g, keys, le);
    SortBySorted(keys, le);
    MultisetNoDup(urls, keys);
    ListedSorted(g, urls, limit, le);
    ListedNoDup(g, urls, limit);
  }

  /** Each row ends with the age cell, and the age read back from that cell
      is the link's age, within the limit. */
  lemma RowShowsAge(g: Graph, url: Url, anchor: Url -> string, limit: int)
    requires url in g && Listed(g[url], limit)
    ensures var r, cell := Row(g, url, anchor), Decimal(g[url].age.value);
            |r| >= |cell| + 11
            && r[|r| - |cell| - 11..|r| - 11] == cell
            && ParseInt(cell) == g[url].age.value <= limit
  {
    var r, cell := Row(g, url, anchor), Decimal(g[url].age.value);
    var front := "  <tr><td>" + anchor(url) + "</td>" + " " + "<td>" + AuthorText(g[url].author) + "</td>" + " "
                 + "<td class=\"time\">";
    assert r == front + cell + "</td></tr>\n";
    SliceMiddle(front, cell, "</td></tr>\n");
    DecimalRoundTrip(g[url].age.value);
  }
}
