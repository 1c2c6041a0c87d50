/** The report driver of plugins/__init__.py: the page file each report is
    written to, the navigation bar listing every report, the question asked
    before an existing file is overwritten, and `generate`, which writes one
    page per report.

    The output directory is a map from file name to the strings written to
    that file, in order. The reply the user would type when asked about a
    file is the parameter `answerFor`; the clock reading shown in the page
    footer is the parameter `now`; what each report writes between the
    page's head and foot is the report's `content`. */
module Driver {
  import opened Wrappers
  import opened Links
  import opened Seqs
  import opened Text
  import opened Plugins

  /** A report plugin as `generate` sees it once imported: its module name,
      `__title__`, `__doc__`, optional `__description__`, and the text its
      own `generate(fp, site)` writes. */
  datatype Plugin = Plugin(name: string, title: string, doc: string, description: Option<string>, content: string)

  // ---------------------------------------------------------------------
  // Page file names (plugins/__init__.py:152-156, 168-171)
  // ---------------------------------------------------------------------

  /** The file the report at position `i` is written to: `index.html` for a
      report with the same name as the first one, `<name>.html` otherwise. */
  function FileName(plugins: seq<Plugin>, i: nat): string
    requires i < |plugins|
  {
    if plugins[i].name == plugins[0].name then "index.html" else plugins[i].name + ".html"
  }

  /** Adding `.html` to two names gives the same file only for the same name. */
  lemma HtmlSuffixInjective(a: string, b: string)
    ensures a + ".html" == b + ".html" <==> a == b
  {
    if a + ".html" == b + ".html" {
      assert a == (a + ".html")[..|a|];
      assert b == (b + ".html")[..|b|];
    }
  }

  /** A report goes to `index.html` exactly when it has the first report's
      name or is itself called `index`. */
  lemma FileNameIndex(plugins: seq<Plugin>, i: nat)
    requires i < |plugins|
    ensures FileName(plugins, i) == "index.html" <==> plugins[i].name == plugins[0].name || plugins[i].name == "index"
  {
    HtmlSuffixInjective(plugins[i].name, "index");
  }

  /** The names of the reports in order. */
  function Names(plugins: seq<Plugin>): (r: seq<string>)
    ensures |r| == |plugins| && forall i :: 0 <= i < |plugins| ==> r[i] == plugins[i].name
  {
    if plugins == [] then [] else Names(plugins[..|plugins| - 1]) + [plugins[|plugins| - 1].name]
  }

  /** Reports with distinct names, none after the first called `index`. */
  predicate DistinctPages(plugins: seq<Plugin>)
  {
    NoDup(Names(plugins)) && forall i :: 0 < i < |plugins| ==> plugins[i].name != "index"
  }

  /** Under those conditions no two reports are written to the same file,
      so no report's page overwrites another's. */
  lemma FileNamesDistinct(plugins: seq<Plugin>, i: nat, j: nat)
    requires DistinctPages(plugins)
    requires i < j < |plugins|
    ensures FileName(plugins, i) != FileName(plugins, j)
  {
    var names := Names(plugins);
    assert names[i] != names[j] && names[0] != names[j];
    FileNameIndex(plugins, i);
    FileNameIndex(plugins, j);
    HtmlSuffixInjective(plugins[i].name, plugins[j].name);
  }

  // ---------------------------------------------------------------------
  // The navigation bar (plugins/__init__.py:149-166)
  // ---------------------------------------------------------------------

  const NavOpen := "  <ul class=\"navbar\">\n"
  const NavClose := "  </ul>\n"

  /** The entry for one report: a link to its file, titled with its escaped
      doc string and showing its escaped title. */
  function NavItem(file: string, p: Plugin): string
  {
    "   <li><a href=\"" + file + "\" title=\"" + Escape(p.doc) + "\">" + Escape(p.title) + "</a></li>\n"
  }

  /** The entries of the first `n` reports, in order. */
  function NavEntries(plugins: seq<Plugin>, n: nat): (r: seq<string>)
    requires n <= |plugins|
    ensures |r| == n
  {
    if n == 0 then [] else NavEntries(plugins, n - 1) + [NavItem(FileName(plugins, n - 1), plugins[n - 1])]
  }

  /** The navigation bar shared by every page. */
  function NavBar(plugins: seq<Plugin>): string
  {
    NavOpen + Flatten(NavEntries(plugins, |plugins|)) + NavClose
  }

  /** The first loop of `generate`, which appends one entry per report. */
  method BuildNavBar(plugins: seq<Plugin>) returns (navbar: string)
    ensures navbar == NavBar(plugins)
  {
    navbar := "  <ul class=\"navbar\">\n";
    for i := 0 to |plugins|
      invariant navbar == NavOpen + Flatten(NavEntries(plugins, i))
    {
      var filename := plugins[i].name + ".html";
      if plugins[i].name == plugins[0].name {
        filename := "index.html";
      }
      FlattenSnoc(NavEntries(plugins, i), NavItem(filename, plugins[i]));
      AppendAssoc(NavOpen, Flatten(NavEntries(plugins, i)), NavItem(filename, plugins[i]));
      navbar := navbar + NavItem(filename, plugins[i]);
    }
    navbar := navbar + "  </ul>\n";
  }

  /** The entries of a longer prefix of the reports begin with those of a
      shorter one, and the entry at `i` is the one for report `i`. */
  lemma {:induction false} NavEntriesAt(plugins: seq<Plugin>, n: nat, i: nat)
    requires i <= n <= |plugins|
    ensures NavEntries(plugins, n)[..i] == NavEntries(plugins, i)
    decreases n
  {
    if i < n {
      var init := NavEntries(plugins, n - 1);
      PrefixOfSnoc(init, NavItem(FileName(plugins, n - 1), plugins[n - 1]), i);
      NavEntriesAt(plugins, n - 1, i);
    }
  }

  /** `t` occurs in `s` at offset `k`. */
  predicate OccursAt(s: string, t: string, k: nat)
  {
    k + |t| <= |s| && s[k..k + |t|] == t
  }

  /** Every report has its entry in the navigation bar, after the entries
      of the reports before it: each page links to every report page. */
  lemma NavBarListsEvery(plugins: seq<Plugin>, i: nat)
    requires i < |plugins|
    ensures OccursAt(NavBar(plugins), NavItem(FileName(plugins, i), plugins[i]), |NavOpen| + |Flatten(NavEntries(plugins, i))|)
  {
    var entries := NavEntries(plugins, |plugins|);
    var item := NavItem(FileName(plugins, i), plugins[i]);
    var before, after := Flatten(NavEntries(plugins, i)), Flatten(entries[i + 1..]);
    assert entries[..i] == NavEntries(plugins, i) && entries[i] == item by {
      NavEntriesAt(plugins, |plugins|, i + 1);
      PrefixOfSnoc(NavEntries(plugins, i), item, i);
      assert entries[..i] == entries[..i + 1][..i];
      assert entries[i] == entries[..i + 1][i];
    }
    assert NavBar(plugins) == (NavOpen + before) + item + (after + NavClose) by {
      FlattenAt(entries, i);
      Regroup(NavOpen, before, item, after, NavClose);
    }
    SliceMiddle(NavOpen + before, item, after + NavClose);
  }

  // ---------------------------------------------------------------------
  // open_file (plugins/__init__.py:128-147)
  // ---------------------------------------------------------------------

  /** `c.lower()` for an ASCII letter. */
  function LowerChar(c: char): char
  {
    if 'A' <= c <= 'Z' then (c as int + 32) as char else c
  }

  /** `s.lower()` over ASCII text. */
  function Lower(s: string): (r: string)
    ensures |r| == |s| && forall i :: 0 <= i < |s| ==> r[i] == LowerChar(s[i])
  {
    if s == [] then [] else [LowerChar(s[0])] + Lower(s[1..])
  }

  /** What `open_file` settles: whether the file is opened, and the new
      value of the overwrite-all setting. */
  datatype Decision = Decision(proceed: bool, overwriteAll: bool)

  /** The decision for a file that is present or not, under the overwrite-all
      setting, given the reply the user types if asked. The file is opened
      without a question when it does not exist or overwriting is allowed;
      otherwise a reply starting with `a` or `A` opens it and allows every
      later overwrite, one starting with `y` or `Y` opens it, and any other
      reply, the empty one included, aborts. */
  function Decide(present: bool, overwriteAll: bool, answer: string): (d: Decision)
    ensures d.proceed <==> !present || overwriteAll || (|answer| > 0 && answer[0] in "aAyY")
    ensures d.overwriteAll <==> overwriteAll || (present && |answer| > 0 && answer[0] in "aA")
  {
    var ow := Lower(answer) + " ";
    if !present || overwriteAll then Decision(true, overwriteAll)
    else if ow[0] == 'a' then Decision(true, true)
    else if ow[0] == 'y' then Decision(true, false)
    else Decision(false, false)
  }

  /** The output directory: the files in it, each as the strings written to
      it, and the overwrite-all setting `config.OVERWRITE_FILES`. */
  class OutputDir {
    var files: map<string, seq<string>>
    var overwriteFiles: bool

    constructor (files0: map<string, seq<string>>, overwrite: bool)
      ensures files == files0 && overwriteFiles == overwrite
    {
      files := files0;
      overwriteFiles := overwrite;
    }

    /** `open_file(filename)`: asks before replacing an existing file unless
        overwriting is allowed; an opened file is empty. */
    method OpenFile(filename: string, answer: string) returns (proceed: bool)
      modifies this
      ensures var d := Decide(filename in old(files), old(overwriteFiles), answer);
              && proceed == d.proceed
              && overwriteFiles == d.overwriteAll
              && files == (if d.proceed then old(files)[filename := []] else old(files))
    {
      if filename in files && !overwriteFiles {
        var ow := Lower(answer) + " ";
        if ow[0] == 'a' {
          overwriteFiles := true;
        } else if ow[0] != 'y' {
          return false;
        }
      }
      files := files[filename := []];
      return true;
    }

    /** `fp.write(s)` on an opened file. */
    method Write(filename: string, s: string)
      requires filename in files
      modifies this
      ensures files == old(files)[filename := old(files)[filename] + [s]]
      ensures overwriteFiles == old(overwriteFiles)
    {
      files := files[filename := files[filename] + [s]];
    }
  }

  // ---------------------------------------------------------------------
  // The pages (plugins/__init__.py:172-210)
  // ---------------------------------------------------------------------

  const XmlDeclaration := "<?xml version=\"1.0\" encoding=\"UTF-8\" standalone=\"yes\"?>\n"
  const DocType := "<!DOCTYPE html PUBLIC \"-//W3C//DTD XHTML 1.1//EN\" \"http://www.w3.org/TR/xhtml11/DTD/xhtml11.dtd\">\n"
  const HtmlOpen := "<html xmlns=\"http://www.w3.org/1999/xhtml\">\n"
  const StyleSheet := "  <link rel=\"stylesheet\" type=\"text/css\" href=\"webcheck.css\" />\n"
  const ContentOpen := "  <div class=\"content\">\n"
  const ContentClose := "  </div>\n"

  /** The head of every page, for the escaped site title, the site URL and
      the version. */
  function Head(siteTitle: string, siteUrl: string, version: string): string
  {
    XmlDeclaration + DocType + HtmlOpen
    + " <head>\n"
    + "  <title>Webcheck report for " + siteTitle + "</title>\n"
    + StyleSheet
    + "  <meta name=\"Generator\" content=\"webcheck " + version + "\" />\n"
    + " </head>\n"
    + " <body>\n"
    + "  <h1 class=\"basename\">Webcheck report for <a href=\"" + siteUrl + "\">" + siteTitle + "</a></h1>\n"
  }

  /** The foot of every page, for the escaped time, the home page and the
      escaped version. */
  function Footer(time: string, homepage: string, version: string): string
  {
    "  <p class=\"footer\">\n"
    + "   Generated " + time + " by <a href=\"" + homepage + "\">webcheck " + version + "</a>\n"
    + "  </p>\n"
    + " </body>\n"
    + "</html>\n"
  }

  function Heading(title: string): string
  {
    "  <h2>" + Escape(title) + "</h2>\n"
  }

  function DescriptionPara(description: string): string
  {
    "  <p class=\"description\">\n    " + Escape(description) + "\n  </p>\n"
  }

  /** The parts every page shares. */
  datatype Layout = Layout(head: string, navbar: string, footer: string)

  /** The shared parts for a site: its title is the title of the link at its
      base URL. */
  function SiteLayout(g: Graph, base: Url, version: string, homepage: string, now: string, plugins: seq<Plugin>): Layout
    requires base in g
  {
    Layout(Head(Escape(GetTitle(g[base])), base, version), NavBar(plugins), Footer(Escape(now), homepage, Escape(version)))
  }

  /** The strings written to a report's page, in order. */
  function Page(layout: Layout, p: Plugin): seq<string>
  {
    var top := [layout.head] + [layout.navbar] + [Heading(p.title)];
    var described := if p.description.Some? then top + [DescriptionPara(p.description.value)] else top;
    described + [ContentOpen] + [p.content] + [ContentClose] + [layout.footer]
  }

  /** The state `generate` leaves: the output directory, the overwrite-all
      setting, and whether the user aborted. */
  datatype Outcome = Outcome(files: map<string, seq<string>>, overwriteAll: bool, aborted: bool)

  /** The pages of the reports from position `k` on, written to `files`
      one after the other until every page is written or the user aborts. */
  function RunFrom(plugins: seq<Plugin>, k: nat, layout: Layout, answerFor: string -> string,
                   files: map<string, seq<string>>, overwriteAll: bool): Outcome
    requires k <= |plugins|
    decreases |plugins| - k
  {
    if k == |plugins| then Outcome(files, overwriteAll, false)
    else
      var file := FileName(plugins, k);
      var d := Decide(file in files, overwriteAll, answerFor(file));
      if !d.proceed then Outcome(files, overwriteAll, true)
      else RunFrom(plugins, k + 1, layout, answerFor, files[file := Page(layout, plugins[k])], d.overwriteAll)
  }

  /** Writes one report's page to the opened file `file`. */
  method WritePage(out: OutputDir, file: string, layout: Layout, p: Plugin)
    requires file in out.files && out.files[file] == []
    modifies out
    ensures out.files == old(out.files)[file := Page(layout, p)]
    ensures out.overwriteFiles == old(out.overwriteFiles)
  {
    ghost var files := old(out.files);
    ghost var written: seq<string> := [];
    out.Write(file, layout.head);
    EmptyAppend([layout.head]);
    UpdateTwice(files, file, written, [layout.head]);
    written := [layout.head];
    out.Write(file, layout.navbar);
    UpdateTwice(files, file, written, written + [layout.navbar]);
    written := written + [layout.navbar];
    out.Write(file, Heading(p.title));
    UpdateTwice(files, file, written, written + [Heading(p.title)]);
    written := written + [Heading(p.title)];
    if p.description.Some? {
      out.Write(file, DescriptionPara(p.description.value));
      UpdateTwice(files, file, written, written + [DescriptionPara(p.description.value)]);
      written := written + [DescriptionPara(p.description.value)];
    }
    out.Write(file, ContentOpen);
    UpdateTwice(files, file, written, written + [ContentOpen]);
    written := written + [ContentOpen];
    out.Write(file, p.content);
    UpdateTwice(files, file, written, written + [p.content]);
    written := written + [p.content];
    out.Write(file, ContentClose);
    UpdateTwice(files, file, written, written + [ContentClose]);
    written := written + [ContentClose];
    out.Write(file, layout.footer);
    UpdateTwice(files, file, written, written + [layout.footer]);
  }

  /** `generate(site, plugins)`: builds the navigation bar, then opens and
      writes each report's page in turn; returns the navigation bar and
      whether the user aborted. The directory and setting it leaves are
      those `RunFrom` describes. */
  method Generate(out: OutputDir, g: Graph, base: Url, version: string, homepage: string, now: string,
                  plugins: seq<Plugin>, answerFor: string -> string)
    returns (navbar: string, aborted: bool)
    requires base in g
    modifies out
    ensures navbar == NavBar(plugins)
    ensures var o := RunFrom(plugins, 0, SiteLayout(g, base, version, homepage, now, plugins), answerFor,
                             old(out.files), old(out.overwriteFiles));
            out.files == o.files && out.overwriteFiles == o.overwriteAll && aborted == o.aborted
  {
    navbar := BuildNavBar(plugins);
    var head := Head(Escape(GetTitle(g[base])), base, version);
    var footer := Footer(Escape(now), homepage, Escape(version));
    var layout := Layout(head, navbar, footer);
    aborted := WritePages(out, plugins, layout, answerFor);
  }

  /** The second loop of `generate`: opens each report's file in turn and
      writes its page, until every page is written or the user aborts. */
  method WritePages(out: OutputDir, plugins: seq<Plugin>, layout: Layout, answerFor: string -> string)
    returns (aborted: bool)
    modifies out
    ensures var o := RunFrom(plugins, 0, layout, answerFor, old(out.files), old(out.overwriteFiles));
            out.files == o.files && out.overwriteFiles == o.overwriteAll && aborted == o.aborted
  {
    for k := 0 to |plugins|
      invariant RunFrom(plugins, k, layout, answerFor, out.files, out.overwriteFiles)
                == RunFrom(plugins, 0, layout, answerFor, old(out.files), old(out.overwriteFiles))
    {
      var filename := plugins[k].name + ".html";
      if plugins[k].name == plugins[0].name {
        filename := "index.html";
      }
      assert filename == FileName(plugins, k);
      ghost var before := out.files;
      RunStep(plugins, k, layout, answerFor, before, out.overwriteFiles);
      var proceed := out.OpenFile(filename, answerFor(filename));
      if !proceed {
        return true;
      }
      WritePage(out, filename, layout, plugins[k]);
      UpdateTwice(before, filename, [], Page(layout, plugins[k]));
    }
    aborted := false;
  }

  /** One step of the run: the report at `k` is asked about, then written
      or the run is aborted. */
  lemma RunStep(plugins: seq<Plugin>, k: nat, layout: Layout, answerFor: string -> string,
                files: map<string, seq<string>>, overwriteAll: bool)
    requires k < |plugins|
    ensures var file := FileName(plugins, k);
            var d := Decide(file in files, overwriteAll, answerFor(file));
            RunFrom(plugins, k, layout, answerFor, files, overwriteAll)
            == if !d.proceed then Outcome(files, overwriteAll, true)
               else RunFrom(plugins, k + 1, layout, answerFor, files[file := Page(layout, plugins[k])], d.overwriteAll)
  {
  }

  // ---------------------------------------------------------------------
  // Properties of a run
  // ---------------------------------------------------------------------

  /** Once overwriting every file is allowed it stays allowed, and the run
      never stops to ask. */
  lemma {:induction false} OverwriteAllNeverAborts(plugins: seq<Plugin>, k: nat, layout: Layout, answerFor: string -> string,
                                                   files: map<string, seq<string>>)
    requires k <= |plugins|
    ensures var o := RunFrom(plugins, k, layout, answerFor, files, true);
            !o.aborted && o.overwriteAll
    decreases |plugins| - k
  {
    if k < |plugins| {
      var file := FileName(plugins, k);
      OverwriteAllNeverAborts(plugins, k + 1, layout, answerFor, files[file := Page(layout, plugins[k])]);
    }
  }

  /** A file no report is written to is left as it was, whether or not the
      run is aborted. */
  lemma {:induction false} RunKeepsOtherFiles(plugins: seq<Plugin>, k: nat, layout: Layout, answerFor: string -> string,
                                              files: map<string, seq<string>>, overwriteAll: bool, f: string)
    requires k <= |plugins|
    requires forall i :: k <= i < |plugins| ==> FileName(plugins, i) != f
    ensures var o := RunFrom(plugins, k, layout, answerFor, files, overwriteAll);
            (f in o.files <==> f in files) && (f in files ==> o.files[f] == files[f])
    decreases |plugins| - k
  {
    if k < |plugins| {
      var file := FileName(plugins, k);
      var d := Decide(file in files, overwriteAll, answerFor(file));
      if d.proceed {
        RunKeepsOtherFiles(plugins, k + 1, layout, answerFor, files[file := Page(layout, plugins[k])], d.overwriteAll, f);
      }
    }
  }

  /** When every page gets its own file, a run that is not aborted leaves
      each report's page, complete, in that report's file. */
  lemma {:induction false} RunWritesEveryPage(plugins: seq<Plugin>, k: nat, layout: Layout, answerFor: string -> string,
                                              files: map<string, seq<string>>, overwriteAll: bool, i: nat)
    requires DistinctPages(plugins)
    requires k <= i < |plugins|
    requires !RunFrom(plugins, k, layout, answerFor, files, overwriteAll).aborted
    ensures var o := RunFrom(plugins, k, layout, answerFor, files, overwriteAll);
            FileName(plugins, i) in o.files && o.files[FileName(plugins, i)] == Page(layout, plugins[i])
    decreases |plugins| - k
  {
    var file := FileName(plugins, k);
    var d := Decide(file in files, overwriteAll, answerFor(file));
    var files' := files[file := Page(layout, plugins[k])];
    if i == k {
      forall j | k < j < |plugins| ensures FileName(plugins, j) != file {
        FileNamesDistinct(plugins, k, j);
      }
      RunKeepsOtherFiles(plugins, k + 1, layout, answerFor, files', d.overwriteAll, file);
    } else {
      RunWritesEveryPage(plugins, k + 1, layout, answerFor, files', d.overwriteAll, i);
    }
  }

  /** When every page gets its own file, the run is aborted only if
      overwriting was not allowed and the file of some remaining report
      already existed: a run into fresh files never asks. */
  lemma {:induction false} RunAbortsOnlyOnExisting(plugins: seq<Plugin>, k: nat, layout: Layout, answerFor: string -> string,
                                                   files: map<string, seq<string>>, overwriteAll: bool)
    requires DistinctPages(plugins)
    requires k <= |plugins|
    requires RunFrom(plugins, k, layout, answerFor, files, overwriteAll).aborted
    ensures !overwriteAll
    ensures exists i :: k <= i < |plugins| && FileName(plugins, i) in files
    decreases |plugins| - k
  {
    OverwriteAllNeverAborts(plugins, k, layout, answerFor, files);
    var file := FileName(plugins, k);
    var d := Decide(file in files, overwriteAll, answerFor(file));
    if d.proceed {
      var files' := files[file := Page(layout, plugins[k])];
      RunAbortsOnlyOnExisting(plugins, k + 1, layout, answerFor, files', d.overwriteAll);
      var i :| k + 1 <= i < |plugins| && FileName(plugins, i) in files';
      FileNamesDistinct(plugins, k, i);
      assert FileName(plugins, i) in files;
    } else {
      assert FileName(plugins, k) in files;
    }
  }

  /** The converse: with overwriting not allowed, a run whose first
      existing file belongs to the report at `i` asks about that file, and
      a reply starting with neither `a` nor `y` aborts the run with that
      file as it was. */
  lemma {:induction false} RunAbortsOnRefusal(plugins: seq<Plugin>, k: nat, layout: Layout, answerFor: string -> string,
                                              files: map<string, seq<string>>, i: nat)
    requires DistinctPages(plugins)
    requires k <= i < |plugins|
    requires FileName(plugins, i) in files
    requires forall j :: k <= j < i ==> FileName(plugins, j) !in files
    requires var answer := answerFor(FileName(plugins, i)); !(|answer| > 0 && answer[0] in "aAyY")
    ensures var o := RunFrom(plugins, k, layout, answerFor, files, false);
            && o.aborted
            && FileName(plugins, i) in o.files && o.files[FileName(plugins, i)] == files[FileName(plugins, i)]
    decreases i - k
  {
    if k < i {
      var file := FileName(plugins, k);
      var files' := files[file := Page(layout, plugins[k])];
      forall j | k + 1 <= j < i
        ensures FileName(plugins, j) !in files'
      {
        FileNamesDistinct(plugins, k, j);
      }
      RunAbortsOnRefusal(plugins, k + 1, layout, answerFor, files', i);
    }
  }
}
