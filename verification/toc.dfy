/** The chapter table of contents (script.js:201-284): a heading per chapter
    with its verse count and a list of verse links, shown whole for chapters of
    at most 30 verses and page by page, 30 verses a page, for longer ones. */
module PrakaranToc {
  import opened Text
  import opened Document

  /** `VACHAN_PAGE_SIZE` (script.js:30). */
  const PageSize: nat := 30
  /** Characters of verse text a link shows (script.js:218, 272). */
  const LinkTextLength: nat := 35


  /** A verse link: its target and its text. */
  datatype Link = Link(href: string, vachanId: string, text: string)

  /** `${vachan.number}. ${vachan.text.substring(0, 35)}...` */
  function LinkText(v: Vachan): (s: string)
    ensures |s| <= |NatStr(v.number)| + 2 + LinkTextLength + 3
  {
    NatStr(v.number) + ". " + v.text[..Min(LinkTextLength, |v.text|)] + "..."
  }

  /** A link text reads back: its leading digits are the verse number, and what
      lies between the ". " after them and the closing ellipsis is the start of
      the verse text, 35 characters of it or all of a shorter one. */
  lemma LinkTextReadsBack(v: Vachan)
    ensures var s := LinkText(v);
      var n := DigitRun(s);
      DigitsValue(s[..n]) == v.number &&
      n + 5 <= |s| && s[n..n + 2] == ". " &&
      v.text[..Min(LinkTextLength, |v.text|)] == s[n + 2..|s| - 3] &&
      |s[n + 2..|s| - 3]| == Min(LinkTextLength, |v.text|)
  {
    var d, shown := NatStr(v.number), v.text[..Min(LinkTextLength, |v.text|)];
    var s := LinkText(v);
    assert s == d + (". " + shown + "...");
    DigitRunOf(d, ". " + shown + "...");
    assert s[..|d|] == d;
    NatStrRoundTrip(v.number);
    assert s[|d|..|d| + 2] == ". ";
    assert s[|d| + 2..|s| - 3] == shown;
  }

  function LinkFor(v: Vachan): Link {
    Link("#" + v.id, v.id, LinkText(v))
  }

  function LinksFor(vs: seq<Vachan>): (links: seq<Link>)
    ensures |links| == |vs| && forall j :: 0 <= j < |vs| ==> links[j] == LinkFor(vs[j])
  {
    seq(|vs|, j requires 0 <= j < |vs| => LinkFor(vs[j]))
  }

  /** Every link leads to the anchor of its own verse, so distinct verse ids give
      distinct links. */
  lemma LinkTargets(vs: seq<Vachan>)
    ensures forall j :: 0 <= j < |vs| ==>
      LinksFor(vs)[j].href[1..] == vs[j].id && LinksFor(vs)[j].vachanId == vs[j].id
  {
    forall j | 0 <= j < |vs|
      ensures LinksFor(vs)[j].href[1..] == vs[j].id
    {
      assert ("#" + vs[j].id)[1..] == vs[j].id;
    }
  }

  /** `Math.ceil(n / VACHAN_PAGE_SIZE)` (script.js:206). */
  function TotalPages(n: nat): (t: nat)
    ensures (t - 1) * PageSize < n <= t * PageSize || (n == 0 && t == 0)
  {
    (n + PageSize - 1) / PageSize
  }

  /** `vachans.slice(page * 30, page * 30 + 30)` (script.js:210-212); `slice`
      clips both ends to the list. */
  function PageSlice(vs: seq<Vachan>, page: nat): (s: seq<Vachan>)
    ensures |s| <= PageSize
  {
    var start := Min(page * PageSize, |vs|);
    var end := Min(page * PageSize + PageSize, |vs|);
    vs[start..end]
  }

  /** The pages, one after the other, give back the whole verse list: every
      verse is on exactly one page, in order. */
  lemma PagesCover(vs: seq<Vachan>)
    ensures Pages(vs, TotalPages(|vs|)) == vs
  {
    PagesPrefix(vs, TotalPages(|vs|));
    assert vs[..Min(TotalPages(|vs|) * PageSize, |vs|)] == vs;
  }

  /** The first `count` pages, one after the other. */
  function Pages(vs: seq<Vachan>, count: nat): seq<Vachan> {
    if count == 0 then [] else Pages(vs, count - 1) + PageSlice(vs, count - 1)
  }

  lemma {:induction false} PagesPrefix(vs: seq<Vachan>, count: nat)
    ensures Pages(vs, count) == vs[..Min(count * PageSize, |vs|)]
  {
    if count > 0 {
      PagesPrefix(vs, count - 1);
      var a, b := Min((count - 1) * PageSize, |vs|), Min(count * PageSize, |vs|);
      assert vs[..b] == vs[..a] + vs[a..b];
    }
  }

  /** Every page before the last is full and the last page holds the rest, at
      least one verse. */
  lemma PageSizes(vs: seq<Vachan>, page: nat)
    requires page < TotalPages(|vs|)
    ensures page < TotalPages(|vs|) - 1 ==> |PageSlice(vs, page)| == PageSize
    ensures page == TotalPages(|vs|) - 1 ==> |PageSlice(vs, page)| == |vs| - page * PageSize > 0
  {
  }

  /** The pager under a long list: the position text and whether the two
      buttons are disabled (script.js:224-237). */
  datatype Pager = Pager(position: string, prevDisabled: bool, nextDisabled: bool)

  /** What `renderVachanPage` shows: the links of the page and, when there is
      more than one page, the pager. */
  datatype PageView = PageView(links: seq<Link>, pager: Option<Pager>)

  function RenderVachanPage(vs: seq<Vachan>, page: nat): PageView {
    var totalPages := TotalPages(|vs|);
    PageView(LinksFor(PageSlice(vs, page)),
      if totalPages > 1 then
        Some(Pager(" " + NatStr(page + 1) + " / " + NatStr(totalPages) + " ",
                   page == 0, page == totalPages - 1))
      else None)
  }

  /** Starting from the first page and pressing only buttons that are not
      disabled, the page stays a valid page: `<<` is disabled on the first page
      and `>>` on the last. */
  lemma PagerStaysInRange(vs: seq<Vachan>, page: nat)
    requires page < TotalPages(|vs|)
    ensures var view := RenderVachanPage(vs, page);
      view.pager.Some? <==> |vs| > PageSize
    ensures var view := RenderVachanPage(vs, page);
      view.pager.Some? ==>
        (!view.pager.value.prevDisabled ==> 0 <= page - 1 < TotalPages(|vs|)) &&
        (!view.pager.value.nextDisabled ==> page + 1 < TotalPages(|vs|))
  {
  }

  /** One chapter's entry: the heading, the links rendered at build time, and
      whether a pager container is present (script.js:243-281). */
  datatype TocEntry = TocEntry(heading: string, links: seq<Link>, paginated: bool)

  function TocEntryFor(p: Prakaran): TocEntry {
    TocEntry(p.title + " (" + NatStr(|p.vachans|) + ")",
             if |p.vachans| <= PageSize then LinksFor(p.vachans) else [],
             |p.vachans| > PageSize)
  }

  /** `buildPrakaranToc`: one entry per chapter, in order. */
  function BuildPrakaranToc(ps: seq<Prakaran>): seq<TocEntry> {
    seq(|ps|, k requires 0 <= k < |ps| => TocEntryFor(ps[k]))
  }

  /** What an entry lists when it is expanded for the first time: a short
      chapter all its verses, a long one its first page, which renderVachanPage
      fills in because the list is still empty (script.js:256-265). A chapter
      without verses does not expand; its heading opens the chapter instead. */
  function ExpandedLinks(p: Prakaran): seq<Link> {
    var entry := TocEntryFor(p);
    if |p.vachans| > PageSize && entry.links == [] then RenderVachanPage(p.vachans, 0).links
    else entry.links
  }

  /** Expanding a chapter with verses for the first time lists its first (up
      to) 30 verses, in order; a chapter of at most 30 verses lists all of them. */
  lemma ExpandedShowsFirstPage(p: Prakaran)
    ensures ExpandedLinks(p) == LinksFor(p.vachans[..Min(PageSize, |p.vachans|)])
    ensures |p.vachans| <= PageSize ==> ExpandedLinks(p) == LinksFor(p.vachans)
    ensures |p.vachans| > PageSize ==> TocEntryFor(p).paginated
  {
    assert p.vachans[..|p.vachans|] == p.vachans;
  }
}
