# webcheck report plugins in Dafny

webcheck crawls a web site and writes an HTML report about it, one page
per report plugin. This project models the part of webcheck that writes
those pages:

- the helpers every plugin shares (`plugins/__init__.py`):
  - the title shown for a link;
  - a size in readable units;
  - the hover summary of a link;
  - the anchor to a link;
  - the list of pages that refer to a link;
- the driver in the same file:
  - it names each report's page file;
  - it builds the navigation bar;
  - it asks before overwriting an existing file;
  - it writes every page;
- the site map report (`plugins/sitemap.py`);
- the "What's New" report (`plugins/whatsnew.py`).

Modules:

- `Wrappers` (wrappers.dfy): `Option`.
- `Links` (links.dfy): the crawled link record and the site graph. The graph maps each URL to its link; a link's children and parents are URLs.
- `Seqs` (seqs.dfy): general facts about sequences. It includes the stable insertion sort that stands in for Python's `list.sort`.
- `Text` (text.dfy): the Python and library string operations the reports use:
  - `xml.sax.saxutils.escape` and `quoteattr`;
  - `'%d'`;
  - `str.strip`;
  - string comparison.
- `Plugins` (plugins.dfy): `get_title`, `get_size`, `get_info`, `make_link` and `print_parents`.
- `Driver` (driver.dfy): page file names, the navigation bar, `open_file` and `generate`.
  - The output directory is a class. It holds a map from file name to the strings written to that file, and the overwrite-all setting.
  - The sequence of openings and writes is specified by the function `RunFrom`.
- `SiteMap` (sitemap.dfy): `explore` and `generate`.
  - The printed output is a sequence of fragments: the four tags, a bare URL, or an anchor.
  - A ghost tree records the shape of the walk.
- `WhatsNew` (whatsnew.dfy): `generate`. The printed lines are returned.

`plugins/sitemap.py` and `plugins/whatsnew.py` are written against an
older interface than `plugins/__init__.py`:

- they use `link.URL`, `webcheck.Link.linkMap` and `rptlib`;
- `rptlib` is not part of this model.

The model follows each file's own code. The URL-to-link map is one graph
shared by all three files. Where `rptlib` builds an anchor or compares
ages, the model takes the result as a parameter: `anchor`, `le`, or the
`Anchor` fragment.

## Model

| member | source | states |
|---|---|---|
| Plugins.GetTitle | plugins/__init__.py:30-34 | The shown title is the link's title when it is present and non-empty, and the URL otherwise. |
| Plugins.GetSizeShown | plugins/__init__.py:44-56 | Below 1024 the size is printed as decimal digits that read back as the number. From 1024 on, the size is scaled to K, M or G by the thresholds 1024, 1024·999 and 1024·1024·999, and the unit letter follows. |
| Plugins.ScaledSizeInRange | plugins/__init__.py:49-54 | For the K and M ranges, the scaled count lies in (0.975, 999]. So at most three integer digits reach `_floatformat`. |
| Plugins.GetInfo | plugins/__init__.py:58-93 | The summary is built by the source's appends in order, one line function per conditional append, and then stripped. It equals the reference text `Info`. |
| Plugins.InfoUpToPrefix | plugins/__init__.py:60-91 | Every append only extends the text: the text after m appends is a prefix of the text after n ≥ m appends. |
| Plugins.InfoStartsWithUrl | plugins/__init__.py:60-93 | The stripped summary still begins with `url: URL` and a line break. |
| Plugins.InfoKindAt | plugins/__init__.py:67-74 | The unstripped text holds "internal link" or "external link" according to `isinternal`. A comma follows it exactly when the link was not checked. |
| Plugins.InfoKindShown | plugins/__init__.py:67-74 | The stripped summary holds "internal link" or "external link" according to `isinternal`. A comma follows it exactly when the link was not checked. |
| Plugins.InfoIsTrimmed | plugins/__init__.py:60-93 | Stripping only cuts white space from the end of the text. The summary is a non-empty prefix of the unstripped text that ends in a visible character, and only white space follows it. |
| Plugins.InfoPartAt | plugins/__init__.py:60-91 | Every appended part appears in the unstripped text, at the offset filled by the parts before it. |
| Plugins.RedirectShown | plugins/__init__.py:75-79 | The text has a redirect line exactly when `redirectdepth > 0`. The line names the first child, or says "redirect (not followed)" when there are no children. |
| Plugins.ParentCountShown | plugins/__init__.py:80-83 | There is no parent line for 0 parents and "linked from 1 page" for one parent. For n > 1 the line is "linked from D pages", where D reads back as n. |
| Plugins.InfoEndsWithProblems | plugins/__init__.py:90-91 | The problem lines, in recorded order, end the unstripped text. |
| Plugins.ProblemLineEscaped | plugins/__init__.py:90-91 | A problem line is `problem: ` followed by the escaped problem and a line break. Its body has no `<` or `>`, and unescaping it gives the problem back. |
| Plugins.MakeLink | plugins/__init__.py:95-107 | The anchor starts with `<a href="URL` and the class `internal` or `external`, matching `isinternal`. It ends with `>`, the escaped shown title, and `</a>`. |
| Plugins.AnchorMarkup | plugins/__init__.py:103-107 | The anchor is `<a href="URL`, then `" class="CLASS"`, then ` title=` and the quoted summary, then `>`, the text and `</a>`. Each part sits at the offset the parts before it fill. |
| Plugins.AnchorTextRoundTrip | plugins/__init__.py:103-107 | The anchor text has no raw `<` or `>`. Unescaping it gives the given title, or the link's shown title when none is given. |
| Text.EscapeRoundTrip | plugins/__init__.py:107-107 | Unescaping the output of `escape` gives the original text. |
| Text.EscapeNoTags | plugins/__init__.py:107-107 | Escaped text contains no `<` and no `>`. |
| Text.QuoteAttrWellFormed | plugins/__init__.py:106-106 | `quoteattr` with the `&#10;` entity gives one attribute value. It opens and closes with the same quote and holds no copy of that quote, no `<`, no `>` and no line break. |
| Text.StripSpec | plugins/__init__.py:93-93 | `strip` yields a slice of the text. Only white space is cut from each end, and the result neither starts nor ends with white space. |
| Text.DecimalRoundTrip | plugins/__init__.py:56-56 | Reading back the digits `'%d'` prints gives the number. |
| Text.LexLeTotal | plugins/__init__.py:115-115 | String comparison orders any two titles. |
| Text.LexLeTransitive | plugins/__init__.py:115-115 | String comparison is transitive. |
| Plugins.ByTitleOrder | plugins/__init__.py:115-115 | Comparing parents by title, with a missing title first, is total and transitive. So the sort orders the parents. |
| Plugins.PrintParents | plugins/__init__.py:109-126 | A link without parents gives no output. Otherwise the parents are sorted by title and written in that order: the header, one `<li>` with `make_link(parent)` per parent, then the footer. |
| Plugins.ListParents | plugins/__init__.py:120-123 | The loop writes one list item per parent, in the order given. |
| Plugins.ParentsInTitleOrder | plugins/__init__.py:115-115 | The sorted parents are a permutation of the recorded parents, and their titles ascend. |
| Driver.FileNameIndex | plugins/__init__.py:168-171 | A report's file is `index.html` exactly when its name equals the first report's name, or is `index`. |
| Driver.FileNamesDistinct | plugins/__init__.py:168-171 | When the report names are distinct and no later report is named `index`, distinct reports get distinct files. |
| Driver.BuildNavBar | plugins/__init__.py:152-165 | The loop builds `<ul class="navbar">`, one item per report in order, then `</ul>`. Each item links to the report's file and shows its escaped title and description. |
| Driver.NavBarListsEvery | plugins/__init__.py:153-164 | The navigation bar contains every report's item, at the offset the reports before it fill. |
| Driver.Decide | plugins/__init__.py:136-146 | Without asking, a file is opened when it is missing or overwriting is allowed. Otherwise a reply starting with a/A opens it and allows all later overwrites, and a reply starting with y/Y opens it. Any other reply aborts, and so does an empty reply. |
| Driver.OutputDir.OpenFile | plugins/__init__.py:128-147 | The method follows `Decide`. An opened file is empty, a refusal changes nothing, and the overwrite-all setting is updated. |
| Driver.OutputDir.Write | plugins/__init__.py:191-191 | Appends the text to the open file and leaves the rest of the directory as it was. |
| Driver.WritePage | plugins/__init__.py:174-210 | A page holds the head, the navigation bar, the escaped heading, the description (when present), the content block and the footer, in that order. |
| Driver.Generate | plugins/__init__.py:149-210 | Returns the navigation bar. The directory, the overwrite setting and the aborted flag it leaves are those of the reference run `RunFrom` over all reports. |
| Driver.WritePages | plugins/__init__.py:166-210 | The second loop opens and writes each page in turn, and stops at the first refusal. |
| Driver.OverwriteAllNeverAborts | plugins/__init__.py:136-143 | Once overwriting is allowed, the run never asks and never aborts. |
| Driver.RunKeepsOtherFiles | plugins/__init__.py:166-210 | A file that no remaining report writes keeps its presence and its content. |
| Driver.RunWritesEveryPage | plugins/__init__.py:166-210 | With distinct page files, a run that is not aborted leaves each report's complete page in that report's file. |
| Driver.RunAbortsOnlyOnExisting | plugins/__init__.py:136-146 | With distinct page files, a run aborts only if overwriting was not allowed and some remaining report's file already existed. |
| Driver.RunAbortsOnRefusal | plugins/__init__.py:136-146 | The converse. With distinct page files and overwriting not allowed, suppose report i's file exists and no earlier report's file does. If the reply starts with neither a nor y, the run aborts and file i keeps its content. |
| SiteMap.Label | plugins/sitemap.py:39-42 | A link is printed as a bare URL exactly when it is bad and bad links are not anchored. Otherwise it is an anchor to the same URL. |
| SiteMap.Fresh | plugins/sitemap.py:49-56 | The children to explore have no duplicates and are exactly the children not yet explored. |
| SiteMap.FreshInOrder | plugins/sitemap.py:49-56 | The children to explore keep the order of the link's children. |
| SiteMap.ClaimChildren | plugins/sitemap.py:49-56 | The loop yields the fresh children and marks them explored before any of them is descended into. |
| SiteMap.Explore | plugins/sitemap.py:31-65 | The output is the rendering of a tree rooted at the link, and the tree is the one the walk rule `Walked` fixes. At every node up to the configured level, the children are the link's unexplored children in stored order, all claimed before any is entered. Each child is walked from the explored set its elder siblings left. The root's children are exactly `Fresh(children, explored + {url})`. The URLs are distinct and are exactly the URLs the call newly explored, plus the root. Depth stays within the configured level plus one, and every explored URL is in the graph. |
| SiteMap.WalkedUnique | plugins/sitemap.py:31-65 | From the same link, level and explored set, only one tree follows the walk rule. So the rule fixes the site map completely. |
| SiteMap.ExploreEach | plugins/sitemap.py:59-63 | Each child to explore becomes one subtree, in order. Together the subtrees list every newly explored URL once. |
| SiteMap.LabelsRender | plugins/sitemap.py:36-65 | The URLs printed are the tree's URLs in pre-order. |
| SiteMap.RenderBalanced | plugins/sitemap.py:38-65 | The output's `<li>`/`</li>` and `<ul>`/`</ul>` tags nest properly. |
| SiteMap.Generate | plugins/sitemap.py:68-71 | The site map is one balanced `<ul>` whose first URL is the base, around the tree the walk rule fixes from the base at level 0. The base's children are exactly its fresh children. Every URL appears once. A first run lists exactly the URLs it explored. |
| SiteMap.LoneBase | plugins/sitemap.py:31-36 | If the shared `explored` set already holds every child of the base, as it does on a second call that reuses the default, the map shows only the base. |
| WhatsNew.ListedUrls | plugins/whatsnew.py:43-47 | Every URL listed comes from the input and is an HTML page whose age is known and within the limit. |
| WhatsNew.ListedMembers | plugins/whatsnew.py:45-47 | A URL is listed if and only if it is in the input and is such a page. |
| WhatsNew.ListedExactly | plugins/whatsnew.py:41-47 | After sorting the crawl's URLs, a URL is listed if and only if its link is such a page. |
| WhatsNew.ListedSubsequence | plugins/whatsnew.py:43-47 | The listed URLs keep their order in the input. |
| WhatsNew.ListedNoDup | plugins/whatsnew.py:41-47 | No URL is listed twice. |
| WhatsNew.ListedSorted | plugins/whatsnew.py:42-47 | Filtering keeps the order the sort established. |
| WhatsNew.RowsInAgeOrder | plugins/whatsnew.py:41-50 | For a total and transitive age comparison, the rows follow that order and list each page once. |
| WhatsNew.RowShowsAge | plugins/whatsnew.py:46-50 | A row's last cell shows the page's age in digits that read back as an age within the limit. |
| WhatsNew.Generate | plugins/whatsnew.py:37-52 | The output is the table header, one row per listed URL in sorted order, and the table footer. |
| WhatsNew.PrintRows | plugins/whatsnew.py:43-50 | The loop skips unlisted URLs and prints one row for each listed URL. |
| WhatsNew.PrintRow | plugins/whatsnew.py:48-50 | A row holds the anchor, the author (or `None`) and the age. The cells are separated by the single spaces that `print`'s trailing comma adds. |

## Left out

- Output is not written to real files or standard output.
  - `fp.write` appends to a map entry, and `print` returns the printed lines or fragments.
  - The creation of the output directory (`os.mkdir`) is not modelled.
  - `sys.exit(0)` on refusal is the `aborted` result.
  - `debugio` logging is not modelled.
- The clock and floats are parameters rather than modelled.
  - The text `time.ctime` gives for a timestamp is `ctime`.
  - The current time shown in the footer is `now`. Driver.Generate uses one `now` for every page.
  - `_floatformat` is the parameter `floatFormat`. `ScaledSizeInRange` only bounds its argument.
- The user's reply in `open_file` is the function `answerFor`, because `raw_input` is I/O.
- Plugin modules are not imported dynamically. `__import__` is replaced by a `Plugin` record that holds the module name, `__title__`, `__doc__`, the optional `__description__`, and the text the plugin's `generate(fp, site)` writes.
- `rptlib.make_link`, `rptlib.get_title` and `sort_by_age` are parameters, because `rptlib` is not part of this model.
  - The What's New anchor is `anchor`.
  - The age order is `le`.
  - The site map anchor is the `Anchor(url)` fragment.
- Plugins.PrintParents: the in-place `parents.sort` is returned as a new sorted sequence.
  - The source mutates `link.parents`.
  - The model's sort is a stable insertion sort. Python's sort is also stable, so the two orders agree for a total, transitive comparison.
- WhatsNew.Generate: `urls.sort` is likewise returned as a new sequence. The keys of `linkMap` are the parameter `keys`, whose elements are exactly the graph's URLs.
- Driver.Lower: lower-cases ASCII letters only. Python 2's `str.lower` on the byte string `raw_input` returns does the same.
- The What's New author cell and the `href` of `make_link` print their text unescaped, exactly as the source does. The model claims no escaping for them.
- SiteMap.Generate: the mutable default `explored={}` is an explicit parameter. `LoneBase` states what a second call that reuses it prints.
- Driver.Generate: requires the site's base URL to be in the graph, because the source indexes `site.linkMap[site.base]`.
- Driver.Generate: uses one clock reading for every footer. The source formats `time.ctime(time.time())` again for each page (plugins/__init__.py:207), so its pages can show different times.
- Driver.Generate: the reply to a prompt is `answerFor(file)`, a function of the file name. The source reads a fresh line at every prompt, so two prompts for the same file could get different replies. This can only happen when two reports share a file.
- SiteMap.Explore: requires `ChildrenRegistered`, every child URL being a key of the graph. This rules out the `KeyError` that `linkMap[i]` raises in the source (plugins/sitemap.py:62) for an unregistered child.
- SiteMap.Explore: marks the graph key `url` as explored, where the source marks `link.URL` (plugins/sitemap.py:36). The two agree when each link's URL is its key in `linkMap`, which the model takes as given.
- Links.Link: `age` is an optional integer. The source prints the age with `'%s'` (plugins/whatsnew.py:50), so any value would do there. A non-integer age is not modelled.
- Plugins.GetInfo: each conditional append is an append of a line function that is empty when the condition fails. This gives the same text as the source's `if` statements.
