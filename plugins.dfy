/** The helpers every report plugin shares (plugins/__init__.py): the title
    shown for a link, the size in readable units, the hover summary of a
    link, the anchor to a link and the list of pages referring to a link.
    The driver that names and writes the report pages is module Driver.

    Clock readings and the float formatting of sizes are not modelled: the
    text `time.ctime` gives for a timestamp is the parameter `ctime`, and
    the text `_floatformat` gives for a number is the parameter
    `floatFormat`. */
module Plugins {
  import opened Wrappers
  import opened Links
  import opened Seqs
  import opened Text

  // ---------------------------------------------------------------------
  // get_title (plugins/__init__.py:30-34)
  // ---------------------------------------------------------------------

  /** Python's truth value of an optional string: present and not empty. */
  predicate Truthy(s: Option<string>)
  {
    s.Some? && s.value != ""
  }

  /** The text shown for a link: its title, or its URL when the title is
      missing or empty. */
  function GetTitle(link: Link): (r: string)
    ensures !Truthy(link.title) ==> r == link.url
    ensures Truthy(link.title) ==> r == link.title.value
    ensures r == [] ==> link.url == []
  {
    if link.title.None? || link.title.value == "" then link.url else link.title.value
  }

  // ---------------------------------------------------------------------
  // get_size (plugins/__init__.py:44-56)
  // ---------------------------------------------------------------------

  const Kilo: int := 1024
  const Mega: int := Kilo * 1024
  const Giga: int := Mega * 1024

  /** A byte count as readable text: the plain number below 1024 bytes,
      otherwise the count scaled to kilo-, mega- or gigabytes and formatted
      by `floatFormat`, followed by the unit letter. The thresholds put
      999 K below one megabyte and 999 M below one gigabyte, so the scaled
      number shown with `K` or `M` is never above 999. */
  function GetSize(i: int, floatFormat: real -> string): string
  {
    if i > 1024 * 1024 * 999 then floatFormat((i as real) / (Giga as real)) + "G"
    else if i > 1024 * 999 then floatFormat((i as real) / (Mega as real)) + "M"
    else if i >= 1024 then floatFormat((i as real) / (Kilo as real)) + "K"
    else Decimal(i)
  }

  /** Below 1024 the size is the number itself, in digits that read back as
      it; above, the unit letter follows the count divided by the unit. */
  lemma GetSizeShown(i: int, floatFormat: real -> string)
    ensures var r := GetSize(i, floatFormat);
            && (i < 1024 ==> ParseInt(r) == i && forall k :: 0 <= k < |r| ==> IsDigit(r[k]) || (k == 0 && r[k] == '-'))
            && (1024 <= i <= 1024 * 999 ==> r == floatFormat(i as real / Kilo as real) + "K")
            && (1024 * 999 < i <= 1024 * 1024 * 999 ==> r == floatFormat(i as real / Mega as real) + "M")
            && (1024 * 1024 * 999 < i ==> r == floatFormat(i as real / Giga as real) + "G")
  {
    if i < 1024 {
      DecimalRoundTrip(i);
      DecimalDigits(i);
    }
  }

  /** The number scaled for `K` or `M` lies between 0.975 and 999. */
  lemma ScaledSizeInRange(i: int)
    requires 1024 <= i <= 1024 * 1024 * 999
    ensures var q := if i <= 1024 * 999 then i as real / Kilo as real else i as real / Mega as real;
            0.975 < q <= 999.0
  {
    if i <= 1024 * 999 {
      assert (i as real) / 1024.0 >= 1.0;
    } else {
      assert (i as real) / 1048576.0 > (1024 * 999) as real / 1048576.0;
    }
  }

  // ---------------------------------------------------------------------
  // get_info (plugins/__init__.py:58-93)
  // ---------------------------------------------------------------------

  /** Python's truth value of an optional number: present and not zero. */
  predicate NonZero(n: Option<int>)
  {
    n.Some? && n.value != 0
  }

  function UrlLine(link: Link): string
  {
    "url: " + link.url + "\n"
  }

  /** The status line, only when the status is set. */
  function StatusLine(link: Link): string
  {
    if Truthy(link.status) then link.status.value + "\n" else ""
  }

  /** The title line, with the title stripped, only when the title is set. */
  function TitleLine(link: Link): string
  {
    if Truthy(link.title) then "title: " + Strip(link.title.value) + "\n" else ""
  }

  /** The author line, with the name stripped, only when the author is set. */
  function AuthorLine(link: Link): string
  {
    if Truthy(link.author) then "author: " + Strip(link.author.value) + "\n" else ""
  }

  function KindText(link: Link): string
  {
    if link.isinternal then "internal link" else "external link"
  }

  function YankText(link: Link): string
  {
    if link.isyanked then ", not checked\n" else "\n"
  }

  /** Where a redirect leads: its first child, or a note that it was not
      followed; nothing for a link that is not a redirect. */
  function RedirectLine(link: Link): string
  {
    if link.redirectdepth > 0 then
      if |link.children| > 0 then "redirect: " + link.children[0] + "\n"
      else "redirect (not followed)\n"
    else ""
  }

  /** How many pages refer to the link: nothing for none, the singular for
      one, the count in decimal otherwise. */
  function ParentLine(n: nat): string
  {
    if n == 1 then "linked from 1 page\n"
    else if n > 1 then "linked from " + Decimal(n) + " pages\n"
    else ""
  }

  /** The modification time as `ctime` shows it, only when it is set. */
  function MtimeLine(link: Link, ctime: int -> string): string
  {
    if NonZero(link.mtime) then "last modified: " + ctime(link.mtime.value) + "\n" else ""
  }

  /** The size in readable units, only when it is set. */
  function SizeLine(link: Link, floatFormat: real -> string): string
  {
    if NonZero(link.size) then "size: " + GetSize(link.size.value, floatFormat) + "\n" else ""
  }

  /** The MIME type, only when it is set. */
  function MimeLine(link: Link): string
  {
    if Truthy(link.mimetype) then "mime-type: " + link.mimetype.value + "\n" else ""
  }

  function ProblemLine(problem: string): string
  {
    "problem: " + Escape(problem) + "\n"
  }

  /** One line per problem, in the order recorded. */
  function ProblemLines(problems: seq<string>): seq<string>
  {
    if problems == [] then []
    else ProblemLines(problems[..|problems| - 1]) + [ProblemLine(problems[|problems| - 1])]
  }

  /** The parts `get_info` appends, in the order it appends them. */
  function InfoPart(link: Link, ctime: int -> string, floatFormat: real -> string, k: nat): string
  {
    match k
    case 0 => UrlLine(link)
    case 1 => StatusLine(link)
    case 2 => TitleLine(link)
    case 3 => AuthorLine(link)
    case 4 => KindText(link)
    case 5 => YankText(link)
    case 6 => RedirectLine(link)
    case 7 => ParentLine(|link.parents|)
    case 8 => MtimeLine(link, ctime)
    case 9 => SizeLine(link, floatFormat)
    case 10 => MimeLine(link)
    case _ => Flatten(ProblemLines(link.linkproblems))
  }

  const InfoParts: nat := 12

  /** The text after the first `n` appends. */
  function InfoUpTo(link: Link, ctime: int -> string, floatFormat: real -> string, n: nat): string
  {
    if n == 0 then "" else InfoUpTo(link, ctime, floatFormat, n - 1) + InfoPart(link, ctime, floatFormat, n - 1)
  }

  /** The text `get_info` builds before stripping it. */
  function InfoText(link: Link, ctime: int -> string, floatFormat: real -> string): string
  {
    InfoUpTo(link, ctime, floatFormat, InfoParts)
  }

  /** The summary of a link, without its surrounding white space. */
  function Info(link: Link, ctime: int -> string, floatFormat: real -> string): string
  {
    Strip(InfoText(link, ctime, floatFormat))
  }

  /** `get_info(link)`: the text built by successive appends to a local,
      then stripped. Each conditional append of the source is the line
      function of that part, which is empty when the condition fails. */
  method GetInfo(link: Link, ctime: int -> string, floatFormat: real -> string) returns (info: string)
    ensures info == Info(link, ctime, floatFormat)
  {
    info := UrlLine(link);
    InfoFirst(link, ctime, floatFormat, info);
    ghost var prev := info;
    info := info + StatusLine(link);
    InfoNext(link, ctime, floatFormat, 1, prev, info);
    prev := info;
    info := info + TitleLine(link);
    InfoNext(link, ctime, floatFormat, 2, prev, info);
    prev := info;
    info := info + AuthorLine(link);
    InfoNext(link, ctime, floatFormat, 3, prev, info);
    prev := info;
    info := info + KindText(link);
    InfoNext(link, ctime, floatFormat, 4, prev, info);
    prev := info;
    info := info + YankText(link);
    InfoNext(link, ctime, floatFormat, 5, prev, info);
    prev := info;
    info := info + RedirectLine(link);
    InfoNext(link, ctime, floatFormat, 6, prev, info);
    prev := info;
    info := info + ParentLine(|link.parents|);
    InfoNext(link, ctime, floatFormat, 7, prev, info);
    prev := info;
    info := info + MtimeLine(link, ctime);
    InfoNext(link, ctime, floatFormat, 8, prev, info);
    prev := info;
    info := info + SizeLine(link, floatFormat);
    InfoNext(link, ctime, floatFormat, 9, prev, info);
    prev := info;
    info := info + MimeLine(link);
    InfoNext(link, ctime, floatFormat, 10, prev, info);
    ghost var before := info;
    var problems := link.linkproblems;
    for k := 0 to |problems|
      invariant info == before + Flatten(ProblemLines(problems[..k]))
    {
      ProblemStep(before, problems, k);
      info := info + ProblemLine(problems[k]);
    }
    assert problems[..|problems|] == problems;
    assert info == InfoUpTo(link, ctime, floatFormat, 12);
    info := Strip(info);
  }

  lemma InfoFirst(link: Link, ctime: int -> string, floatFormat: real -> string, next: string)
    requires next == UrlLine(link)
    ensures next == InfoUpTo(link, ctime, floatFormat, 1)
  {
  }

  /** One more part appended to the text built so far. */
  lemma InfoNext(link: Link, ctime: int -> string, floatFormat: real -> string, k: nat, prev: string, next: string)
    requires prev == InfoUpTo(link, ctime, floatFormat, k)
    requires next == prev + InfoPart(link, ctime, floatFormat, k)
    ensures next == InfoUpTo(link, ctime, floatFormat, k + 1)
  {
  }

  /** One more problem line appended to the text built so far. */
  lemma ProblemStep(before: string, problems: seq<string>, k: nat)
    requires k < |problems|
    ensures before + Flatten(ProblemLines(problems[..k])) + ProblemLine(problems[k])
            == before + Flatten(ProblemLines(problems[..k + 1]))
  {
    var lines := ProblemLines(problems[..k]);
    assert problems[..k + 1][..k] == problems[..k];
    assert ProblemLines(problems[..k + 1]) == lines + [ProblemLine(problems[k])];
    FlattenSnoc(lines, ProblemLine(problems[k]));
  }

  /** Later appends never change what is already there. */
  lemma {:induction false} InfoUpToPrefix(link: Link, ctime: int -> string, floatFormat: real -> string, m: nat, n: nat)
    requires m <= n
    ensures var a, b := InfoUpTo(link, ctime, floatFormat, m), InfoUpTo(link, ctime, floatFormat, n);
            |a| <= |b| && b[..|a|] == a
  {
    if m < n {
      InfoUpToPrefix(link, ctime, floatFormat, m, n - 1);
      var a, c := InfoUpTo(link, ctime, floatFormat, m), InfoUpTo(link, ctime, floatFormat, n - 1);
      var b := InfoUpTo(link, ctime, floatFormat, n);
      assert b == c + InfoPart(link, ctime, floatFormat, n - 1);
      assert b[..|a|] == c[..|a|];
    }
  }

  /** Where the internal/external text starts: after the URL, status, title
      and author lines. */
  function KindAt(link: Link, ctime: int -> string, floatFormat: real -> string): nat
  {
    |InfoUpTo(link, ctime, floatFormat, 4)|
  }

  /** The text after the status, title and author lines says whether the
      link is internal, and what follows it whether it was left unchecked. */
  lemma InfoKindAt(link: Link, ctime: int -> string, floatFormat: real -> string)
    ensures var s, p := InfoText(link, ctime, floatFormat), KindAt(link, ctime, floatFormat);
            && |s| >= p + 14
            && s[p..p + 13] == (if link.isinternal then "internal link" else "external link")
            && (s[p + 13] == ',' <==> link.isyanked)
  {
    KindYankParts(link, ctime, floatFormat);
    KindYankAt(InfoText(link, ctime, floatFormat), KindAt(link, ctime, floatFormat),
               |InfoUpTo(link, ctime, floatFormat, 5)|, KindText(link), YankText(link));
  }

  /** Where the internal/external text and the unchecked mark sit. */
  lemma KindYankParts(link: Link, ctime: int -> string, floatFormat: real -> string)
    ensures var s, p, q := InfoText(link, ctime, floatFormat), KindAt(link, ctime, floatFormat), |InfoUpTo(link, ctime, floatFormat, 5)|;
            var k, y := KindText(link), YankText(link);
            && q == p + |k| && q + |y| <= |s|
            && s[p..p + |k|] == k && s[q..q + |y|] == y
  {
    assert InfoPart(link, ctime, floatFormat, 4) == KindText(link);
    assert InfoPart(link, ctime, floatFormat, 5) == YankText(link);
    InfoPartAt(link, ctime, floatFormat, 4);
    InfoPartAt(link, ctime, floatFormat, 5);
  }

  /** Reading the kind and the unchecked mark back from where they sit. */
  lemma KindYankAt(s: string, p: nat, q: nat, k: string, y: string)
    requires k == "internal link" || k == "external link"
    requires y == ", not checked\n" || y == "\n"
    requires q == p + |k| && q + |y| <= |s|
    requires s[p..p + |k|] == k && s[q..q + |y|] == y
    ensures |s| >= p + 14 && s[p..p + 13] == k && (s[p + 13] == ',' <==> y == ", not checked\n")
  {
    assert s[q] == y[0];
  }

  /** The URL line opens the text, and a letter follows it at the
      internal/external text. */
  lemma InfoTextOpening(link: Link, ctime: int -> string, floatFormat: real -> string)
    ensures var s, u, p := InfoText(link, ctime, floatFormat), UrlLine(link), KindAt(link, ctime, floatFormat);
            && 0 < |u| <= p < |s| && s[..|u|] == u && !IsSpace(s[p])
  {
    var s := InfoText(link, ctime, floatFormat);
    var u := InfoUpTo(link, ctime, floatFormat, 1);
    assert u == InfoUpTo(link, ctime, floatFormat, 0) + UrlLine(link);
    InfoUpToPrefix(link, ctime, floatFormat, 1, InfoParts);
    InfoUpToPrefix(link, ctime, floatFormat, 1, 4);
    InfoKindAt(link, ctime, floatFormat);
    var p := KindAt(link, ctime, floatFormat);
    assert s[p] == s[p..p + 13][0];
  }

  /** The summary always opens with the URL line, whatever the other fields
      hold: stripping cannot reach it, since the internal/external text
      after it starts with a letter. */
  lemma InfoStartsWithUrl(link: Link, ctime: int -> string, floatFormat: real -> string)
    ensures var info, head := Info(link, ctime, floatFormat), "url: " + link.url + "\n";
            |info| >= |head| && info[..|head|] == head
  {
    InfoTextOpening(link, ctime, floatFormat);
    var s, u := InfoText(link, ctime, floatFormat), UrlLine(link);
    assert s[0] == u[0];
    StripKeepsPrefix(s, |u|, KindAt(link, ctime, floatFormat));
  }

  /** `info.strip()` only drops white space at the end of the text: the
      summary is a non-empty prefix of the assembled text, it ends in a
      visible character, and only white space follows it there. */
  lemma InfoIsTrimmed(link: Link, ctime: int -> string, floatFormat: real -> string)
    ensures var s, r := InfoText(link, ctime, floatFormat), Info(link, ctime, floatFormat);
            && 0 < |r| <= |s| && r == s[..|r|] && !IsSpace(r[|r| - 1])
            && forall i :: |r| <= i < |s| ==> IsSpace(s[i])
  {
    InfoTextOpening(link, ctime, floatFormat);
    var s, u := InfoText(link, ctime, floatFormat), UrlLine(link);
    assert s[0] == u[0];
    StripTrailingOnly(s);
  }

  /** The summary shows whether the link is internal, and a comma right
      after that text exactly when the link was left unchecked. */
  lemma InfoKindShown(link: Link, ctime: int -> string, floatFormat: real -> string)
    ensures var r, p := Info(link, ctime, floatFormat), KindAt(link, ctime, floatFormat);
            && |r| >= p + 13
            && r[p..p + 13] == (if link.isinternal then "internal link" else "external link")
            && ((|r| > p + 13 && r[p + 13] == ',') <==> link.isyanked)
  {
    InfoIsTrimmed(link, ctime, floatFormat);
    InfoKindAt(link, ctime, floatFormat);
    KindInTrimmed(InfoText(link, ctime, floatFormat), Info(link, ctime, floatFormat), KindAt(link, ctime, floatFormat),
                  if link.isinternal then "internal link" else "external link");
  }

  /** The internal/external text and the character after it survive the
      removal of trailing white space, unless that character is white
      space itself. */
  lemma KindInTrimmed(s: string, r: string, p: nat, k: string)
    requires |s| >= p + 14 && |r| <= |s| && r == s[..|r|]
    requires forall i :: |r| <= i < |s| ==> IsSpace(s[i])
    requires k == "internal link" || k == "external link"
    requires s[p..p + 13] == k
    ensures |r| >= p + 13 && r[p..p + 13] == k
    ensures (|r| > p + 13 && r[p + 13] == ',') <==> s[p + 13] == ','
  {
    assert s[p + 12] == k[12];
  }

  /** The problem lines close the text, each problem escaped, in order. */
  lemma InfoEndsWithProblems(link: Link, ctime: int -> string, floatFormat: real -> string)
    ensures var s, p := InfoText(link, ctime, floatFormat), Flatten(ProblemLines(link.linkproblems));
            |s| >= |p| && s[|s| - |p|..] == p
  {
    var s := InfoText(link, ctime, floatFormat);
    assert s == InfoUpTo(link, ctime, floatFormat, 11) + InfoPart(link, ctime, floatFormat, 11);
  }

  /** A problem line carries the problem escaped: no raw `<` or `>`, and the
      reader of the markup gets the message back unchanged. */
  lemma ProblemLineEscaped(problem: string)
    ensures var line := ProblemLine(problem);
            var body := line[9..|line| - 1];
            && line[..9] == "problem: " && line[|line| - 1] == '\n'
            && '<' !in body && '>' !in body
            && Unescape(body) == problem
  {
    var line := ProblemLine(problem);
    assert line[9..|line| - 1] == Escape(problem);
    EscapeRoundTrip(problem);
    EscapeNoTags(problem);
  }

  /** The parent line names the number of parents, in digits that read back
      as that number, and is absent when there are none. */
  lemma ParentCountShown(n: nat)
    ensures n == 0 <==> ParentLine(n) == ""
    ensures n == 1 ==> ParentLine(n) == "linked from 1 page\n"
    ensures n > 1 ==> exists d :: ParentLine(n) == "linked from " + d + " pages\n" && ParseInt(d) == n
  {
    if n > 1 {
      DecimalRoundTrip(n);
    }
  }

  /** Each append survives into the finished text, at the place the
      appends before it fill. */
  lemma InfoPartAt(link: Link, ctime: int -> string, floatFormat: real -> string, k: nat)
    requires k < InfoParts
    ensures var s, p, part := InfoText(link, ctime, floatFormat), |InfoUpTo(link, ctime, floatFormat, k)|, InfoPart(link, ctime, floatFormat, k);
            p + |part| <= |s| && s[p..p + |part|] == part
  {
    InfoUpToPrefix(link, ctime, floatFormat, k + 1, InfoParts);
    var a, part := InfoUpTo(link, ctime, floatFormat, k), InfoPart(link, ctime, floatFormat, k);
    var b := InfoUpTo(link, ctime, floatFormat, k + 1);
    assert b == a + part;
    SliceMiddle(a, part, []);
  }

  /** The summary shows a redirect only for a link that is one: the first
      child it leads to, or a note that it was not followed. */
  lemma RedirectShown(link: Link, ctime: int -> string, floatFormat: real -> string)
    ensures var s, p, line := InfoText(link, ctime, floatFormat), |InfoUpTo(link, ctime, floatFormat, 6)|, RedirectLine(link);
            && p + |line| <= |s| && s[p..p + |line|] == line
            && (link.redirectdepth <= 0 <==> line == "")
            && (link.redirectdepth > 0 && link.children != [] ==> line == "redirect: " + link.children[0] + "\n")
            && (link.redirectdepth > 0 && link.children == [] ==> line == "redirect (not followed)\n")
  {
    InfoPartAt(link, ctime, floatFormat, 6);
  }

  // ---------------------------------------------------------------------
  // make_link (plugins/__init__.py:95-107)
  // ---------------------------------------------------------------------

  function CssClass(link: Link): string
  {
    if link.isinternal then "internal" else "external"
  }

  /** The markup of an anchor, from its four variable parts, and where the
      parts sit in it. */
  function AnchorMarkup(url: string, cssClass: string, attr: string, text: string): (r: string)
    ensures var p := 9 + |url|;
            && |r| == p + 9 + |cssClass| + 8 + |attr| + 1 + |text| + 4
            && r[..p] == "<a href=\"" + url
            && r[p..p + 9 + |cssClass| + 1] == "\" class=\"" + cssClass + "\""
            && r[|r| - |text| - 5..] == ">" + text + "</a>"
            && r[|r| - |text| - 4..|r| - 4] == text
            && r[p + 9 + |cssClass| + 1..|r| - |text| - 5] == " title=" + attr
  {
    var a := "<a href=\"" + url;
    var b := "\" class=\"" + cssClass + "\"";
    var c := " title=" + attr;
    var d := ">" + text + "</a>";
    FourParts(a, b, c, d);
    AnchorTextAt(a + b + c + d, text);
    a + b + c + d
  }

  /** `<a href="URL" class="internal|external" title=INFO>TITLE</a>`: the
      URL goes into `href` as it is, the summary into a quoted attribute,
      and the shown text (the given title, or the link's display title when
      none is given) is escaped. */
  function MakeLink(link: Link, title: Option<string>, ctime: int -> string, floatFormat: real -> string): (r: string)
    ensures var p := 9 + |link.url|;
            && |r| >= p + 18
            && r[..p] == "<a href=\"" + link.url
            && r[p..p + 18] == "\" class=\"" + CssClass(link) + "\""
    ensures var text := Escape(title.GetOr(GetTitle(link)));
            && |r| >= |text| + 5
            && r[|r| - |text| - 5..] == ">" + text + "</a>"
            && r[|r| - |text| - 4..|r| - 4] == text
  {
    var shown := if title.None? then GetTitle(link) else title.value;
    AnchorMarkup(link.url, CssClass(link), QuoteAttr(Info(link, ctime, floatFormat)), Escape(shown))
  }

  /** The anchor text holds no raw `<` or `>`, so no title can inject markup,
      and reading it back gives the title shown. */
  lemma AnchorTextRoundTrip(link: Link, title: Option<string>, ctime: int -> string, floatFormat: real -> string)
    ensures var r, shown := MakeLink(link, title, ctime, floatFormat), title.GetOr(GetTitle(link));
            var n := |Escape(shown)|;
            && |r| >= n + 4
            && '<' !in r[|r| - n - 4..|r| - 4] && '>' !in r[|r| - n - 4..|r| - 4]
            && Unescape(r[|r| - n - 4..|r| - 4]) == shown
  {
    EscapedTextAt(MakeLink(link, title, ctime, floatFormat), title.GetOr(GetTitle(link)));
  }

  /** Text escaped into a markup string before its last four characters
      holds no tag and reads back as the original. */
  lemma EscapedTextAt(r: string, shown: string)
    requires |r| >= |Escape(shown)| + 4
    requires r[|r| - |Escape(shown)| - 4..|r| - 4] == Escape(shown)
    ensures var n := |Escape(shown)|;
            && '<' !in r[|r| - n - 4..|r| - 4] && '>' !in r[|r| - n - 4..|r| - 4]
            && Unescape(r[|r| - n - 4..|r| - 4]) == shown
  {
    EscapeRoundTrip(shown);
    EscapeNoTags(shown);
  }

  /** An anchor ending in `>TEXT</a>` carries TEXT just before its last four
      characters. */
  /** Where each of four joined texts sits in the result. */
  lemma FourParts(a: string, b: string, c: string, d: string)
    ensures var r := a + b + c + d;
            && |r| == |a| + |b| + |c| + |d|
            && r[..|a|] == a
            && r[|a|..|a| + |b|] == b
            && r[|a| + |b|..|a| + |b| + |c|] == c
            && r[|a| + |b| + |c|..] == d
  {
    assert a + b + c + d == a + (b + c + d) == (a + b) + (c + d) == (a + b + c) + d;
  }

  lemma AnchorTextAt(r: string, text: string)
    requires |r| >= |text| + 5 && r[|r| - |text| - 5..] == ">" + text + "</a>"
    ensures r[|r| - |text| - 4..|r| - 4] == text
  {
    var n := |text|;
    assert r[|r| - n - 4..|r| - 4] == r[|r| - n - 5..][1..n + 1];
  }

  // ---------------------------------------------------------------------
  // print_parents (plugins/__init__.py:109-126)
  // ---------------------------------------------------------------------

  /** The title of the link registered for `u`; `None` for an unknown URL. */
  function TitleOf(g: Graph, u: Url): Option<string>
  {
    if u in g then g[u].title else None
  }

  /** `cmp(a, b) <= 0` in Python 2 for two titles: `None` before every
      string, strings in character order. */
  predicate TitleLe(a: Option<string>, b: Option<string>)
  {
    a.None? || (b.Some? && LexLe(a.value, b.value))
  }

  /** The comparison `print_parents` sorts the parents with. */
  function ByTitle(g: Graph): (Url, Url) -> bool
  {
    (a: Url, b: Url) => TitleLe(TitleOf(g, a), TitleOf(g, b))
  }

  /** The title comparison is a total preorder, so sorting by it orders the
      parents. */
  lemma ByTitleOrder(g: Graph)
    ensures Total(ByTitle(g)) && Transitive(ByTitle(g))
  {
    var le := ByTitle(g);
    forall a: Url, b: Url ensures le(a, b) || le(b, a) {
      var ta, tb := TitleOf(g, a), TitleOf(g, b);
      if ta.Some? && tb.Some? {
        LexLeTotal(ta.value, tb.value);
      }
    }
    forall a: Url, b: Url, c: Url | le(a, b) && le(b, c) ensures le(a, c) {
      var ta, tb, tc := TitleOf(g, a), TitleOf(g, b), TitleOf(g, c);
      if ta.Some? {
        LexLeTransitive(ta.value, tb.value, tc.value);
      }
    }
  }

  function ParentsHeader(indent: string): string
  {
    indent + "<div class=\"parents\">\n" + indent + " referenced from:\n" + indent + " <ul>\n"
  }

  function ParentsFooter(indent: string): string
  {
    indent + " </ul>\n" + indent + "</div>\n"
  }

  /** The list item for one parent: an anchor to it with its default title. */
  function ParentItem(g: Graph, p: Url, indent: string, ctime: int -> string, floatFormat: real -> string): string
    requires p in g
  {
    indent + "  <li>" + MakeLink(g[p], None, ctime, floatFormat) + "</li>\n"
  }

  /** One list item per parent, in the order given. */
  function ParentItems(g: Graph, ps: seq<Url>, indent: string, ctime: int -> string, floatFormat: real -> string): (r: seq<string>)
    requires forall p :: p in ps ==> p in g
    ensures |r| == |ps|
  {
    if ps == [] then []
    else ParentItems(g, ps[..|ps| - 1], indent, ctime, floatFormat) + [ParentItem(g, ps[|ps| - 1], indent, ctime, floatFormat)]
  }

  /** `print_parents(fp, link, indent)`: nothing for a link without parents;
      otherwise the parents sorted by title (returned, as the source sorts
      `link.parents` in place) and the writes made to `fp`: the opening of
      the list, one item per parent in sorted order, and the closing. */
  method PrintParents(g: Graph, link: Link, indent: string, ctime: int -> string, floatFormat: real -> string)
    returns (parents: seq<Url>, writes: seq<string>)
    requires forall p :: p in link.parents ==> p in g
    ensures link.parents == [] ==> parents == [] && writes == []
    ensures link.parents != [] ==>
              && parents == SortBy(link.parents, ByTitle(g))
              && (forall p :: p in parents ==> p in g)
              && writes == [ParentsHeader(indent)] + ParentItems(g, parents, indent, ctime, floatFormat) + [ParentsFooter(indent)]
  {
    parents := link.parents;
    if |parents| == 0 {
      writes := [];
      return;
    }
    parents := SortBy(parents, ByTitle(g));
    assert forall p :: p in parents ==> p in g by {
      forall p | p in parents ensures p in g {
        assert p in multiset(parents);
      }
    }
    var items := ListParents(g, parents, indent, ctime, floatFormat);
    writes := [ParentsHeader(indent)] + items;
    writes := writes + [ParentsFooter(indent)];
  }

  /** The loop of `print_parents` that writes one list item per parent. */
  method ListParents(g: Graph, parents: seq<Url>, indent: string, ctime: int -> string, floatFormat: real -> string)
    returns (items: seq<string>)
    requires forall p :: p in parents ==> p in g
    ensures items == ParentItems(g, parents, indent, ctime, floatFormat)
  {
    items := [];
    for k := 0 to |parents|
      invariant items == ParentItems(g, parents[..k], indent, ctime, floatFormat)
    {
      ParentItemsSnoc(g, parents, k, indent, ctime, floatFormat);
      items := items + [ParentItem(g, parents[k], indent, ctime, floatFormat)];
    }
    assert parents[..|parents|] == parents;
  }

  /** One more parent adds its item at the end of the list. */
  lemma ParentItemsSnoc(g: Graph, ps: seq<Url>, k: nat, indent: string, ctime: int -> string, floatFormat: real -> string)
    requires k < |ps| && forall p :: p in ps ==> p in g
    ensures ParentItems(g, ps[..k + 1], indent, ctime, floatFormat)
            == ParentItems(g, ps[..k], indent, ctime, floatFormat) + [ParentItem(g, ps[k], indent, ctime, floatFormat)]
  {
    assert ps[..k + 1][..k] == ps[..k];
  }

  /** The parents are listed in title order, each as often as recorded. */
  lemma ParentsInTitleOrder(g: Graph, link: Link)
    ensures var ps := SortBy(link.parents, ByTitle(g));
            && multiset(ps) == multiset(link.parents)
            && forall i, j :: 0 <= i < j < |ps| ==> TitleLe(TitleOf(g, ps[i]), TitleOf(g, ps[j]))
  {
    ByTitleOrder(g);
    SortBySorted(link.parents, ByTitle(g));
  }
}
