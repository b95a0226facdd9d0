/** The full-text search (script.js:380-424): a case-insensitive substring
    filter over the search index, cut to the first 50 matches, each shown as a
    snippet of its text around the first occurrence of the query. */
module Search {
  import opened Text
  import opened Document

  const MaxResults: nat := 50
  /** Characters of context kept on each side of the match (script.js:418-419). */
  const Context: nat := 40
  /** Characters shown when the query does not occur in the text (script.js:417). */
  const Fallback: nat := 150
  const Ellipsis := "..."


  /** `item.text.toLowerCase().includes(query.toLowerCase())` (script.js:388). */
  predicate Matches(e: IndexEntry, query: string) {
    Contains(Lower(e.text), Lower(query))
  }

  /** `searchIndex.filter(...)`: the matching entries, in index order. */
  function Filter(index: seq<IndexEntry>, query: string): (r: seq<IndexEntry>)
    ensures |r| <= |index|
  {
    if index == [] then []
    else
      var e := index[|index| - 1];
      Filter(index[..|index| - 1], query) + (if Matches(e, query) then [e] else [])
  }

  /** `performSearch` without the markup: nothing for a blank query, else the
      first 50 matches of the trimmed query (script.js:381-388). */
  function PerformSearch(index: seq<IndexEntry>, input: string): seq<IndexEntry> {
    var query := Trim(input);
    if |query| < 1 then []
    else
      var matches := Filter(index, query);
      matches[..Min(MaxResults, |matches|)]
  }

  /** A query that is empty once trimmed finds nothing (script.js:381-385). */
  lemma BlankQueryFindsNothing(index: seq<IndexEntry>, input: string)
    requires AllSpace(input)
    ensures PerformSearch(index, input) == []
  {
    assert input + [] == input;
    TrimPadded(input, [], []);
    assert Trim([]) == [];
  }

  /** An entry passes the filter exactly when it is in the index and matches. */
  lemma {:induction false} FilterMembers(index: seq<IndexEntry>, query: string, e: IndexEntry)
    ensures e in Filter(index, query) <==> e in index && Matches(e, query)
  {
    if index != [] {
      var init := index[..|index| - 1];
      FilterMembers(init, query, e);
      assert index == init + [index[|index| - 1]];
    }
  }

  /** The filter keeps the order of the index. */
  lemma {:induction false} FilterAppend(a: seq<IndexEntry>, b: seq<IndexEntry>, query: string)
    ensures Filter(a + b, query) == Filter(a, query) + Filter(b, query)
    decreases |b|
  {
    if b == [] {
      assert a + b == a;
    } else {
      assert (a + b)[..|a + b| - 1] == a + b[..|b| - 1];
      FilterAppend(a, b[..|b| - 1], query);
    }
  }

  /** The results are the first matches in index order: never more than 50, all
      of them when there are at most 50, each one a matching entry of the index. */
  lemma SearchResults(index: seq<IndexEntry>, input: string)
    requires Trim(input) != []
    ensures var r, m := PerformSearch(index, input), Filter(index, Trim(input));
      |r| <= MaxResults && r == m[..|r|] &&
      (|m| <= MaxResults ==> r == m) && (|m| > MaxResults ==> |r| == MaxResults) &&
      forall j :: 0 <= j < |r| ==> r[j] in index && Matches(r[j], Trim(input))
  {
    var q := Trim(input);
    var r, m := PerformSearch(index, input), Filter(index, q);
    forall j | 0 <= j < |r|
      ensures r[j] in index && Matches(r[j], q)
    {
      assert r[j] in m;
      FilterMembers(index, q, r[j]);
    }
  }

  /** The part of the text a snippet shows: up to 40 characters on each side of
      the match at `i` of length `n`, clipped to the text (script.js:418-419). */
  datatype Window = Window(start: nat, end: nat)

  function MatchWindow(len: nat, i: nat, n: nat): (w: Window)
    requires i + n <= len
    ensures w.start <= i && i + n <= w.end <= len
    ensures w.end - w.start <= n + 2 * Context
    ensures w.start > 0 <==> i > Context
    ensures w.end < len <==> i + n + Context < len
  {
    Window(if i > Context then i - Context else 0, Min(len, i + n + Context))
  }

  /** `getSnippet` (script.js:415-424). */
  function GetSnippet(text: string, query: string): string {
    var i := IndexOf(Lower(text), Lower(query));
    if i == -1 then text[..Min(Fallback, |text|)] + Ellipsis
    else
      var w := MatchWindow(|text|, i, |query|);
      (if w.start > 0 then Ellipsis else "") + text[w.start..w.end] + (if w.end < |text| then Ellipsis else "")
  }

  /** Without an occurrence, the snippet is the first 150 characters and an ellipsis. */
  lemma SnippetWithoutMatch(text: string, query: string)
    requires !Contains(Lower(text), Lower(query))
    ensures GetSnippet(text, query) == text[..Min(Fallback, |text|)] + Ellipsis
    ensures |GetSnippet(text, query)| <= Fallback + |Ellipsis|
  {
  }

  /** With an occurrence, the snippet is the window around the first one, marked
      with an ellipsis at each end where text was cut off, and never longer than
      the query, 80 characters of context and two ellipses. */
  lemma SnippetWithMatch(text: string, query: string)
    requires Contains(Lower(text), Lower(query))
    ensures var i := IndexOf(Lower(text), Lower(query));
      0 <= i && i + |query| <= |text| &&
      var w := MatchWindow(|text|, i, |query|);
      var s := GetSnippet(text, query);
      s == (if i > Context then Ellipsis else "") + text[w.start..w.end] +
           (if i + |query| + Context < |text| then Ellipsis else "") &&
      |s| <= |query| + 2 * Context + 2 * |Ellipsis|
  {
  }

  /** The snippet shows the query: lower-cased, it holds the lower-cased query. */
  lemma SnippetShowsQuery(text: string, query: string)
    requires Contains(Lower(text), Lower(query))
    ensures Contains(Lower(GetSnippet(text, query)), Lower(query))
  {
    var lt, lq := Lower(text), Lower(query);
    var i := IndexOf(lt, lq);
    var w := MatchWindow(|text|, i, |query|);
    var mid := text[w.start..w.end];
    MatchInSlice(text, lq, i, w.start, w.end);
    var pre := if w.start > 0 then Ellipsis else "";
    var post := if w.end < |text| then Ellipsis else "";
    MatchInside(pre, mid, post, lq, i - w.start);
    ContainsIff(Lower(pre + mid + post), lq);
  }

  /** A match that lies inside `s[a..b]` is a match of that slice. */
  lemma MatchInSlice(s: string, q: string, i: nat, a: nat, b: nat)
    requires a <= i && i + |q| <= b <= |s| && MatchesAt(Lower(s), q, i)
    ensures MatchesAt(Lower(s[a..b]), q, i - a)
  {
    var m := Lower(s[a..b]);
    assert m[i - a..i - a + |q|] == Lower(s)[i..i + |q|];
  }

  /** A match inside the middle part is a match of the whole, shifted by the front. */
  lemma MatchInside(pre: string, mid: string, post: string, q: string, k: nat)
    requires MatchesAt(Lower(mid), q, k)
    ensures MatchesAt(Lower(pre + mid + post), q, |pre| + k)
  {
    var l := Lower(pre + mid + post);
    assert l[|pre| + k..|pre| + k + |q|] == Lower(mid)[k..k + |q|];
  }

  /** A search result as rendered (script.js:390-400): the verse label, the
      snippet, the chapter to open, the element to scroll to, and the chapter title. */
  datatype ResultView = ResultView(numberLabel: string, snippet: string, prakaranIndex: nat, elementId: string, prakaranTitle: string)

  function VachanLabel(e: IndexEntry): string {
    if e.isVachan then
      "<span class=\"result-vachan-num\">वचन " +
      (match e.vachanNumber case Some(n) => NatStr(n) case None => "null") + ": </span>"
    else ""
  }

  function ResultFor(e: IndexEntry, query: string): ResultView {
    ResultView(VachanLabel(e), GetSnippet(e.text, query), e.prakaranIndex, e.elementId, e.prakaranTitle)
  }

  /** The rendered list: one view per result, in order. */
  function SearchViews(index: seq<IndexEntry>, input: string): (views: seq<ResultView>) {
    var r := PerformSearch(index, input);
    seq(|r|, j requires 0 <= j < |r| => ResultFor(r[j], Trim(input)))
  }

  /** Every rendered result shows the query in its snippet and leads to the
      chapter and element its entry names. */
  lemma ViewsShowQuery(index: seq<IndexEntry>, input: string)
    ensures var views, r := SearchViews(index, input), PerformSearch(index, input);
      |views| == |r| && |views| <= MaxResults &&
      forall j :: 0 <= j < |views| ==>
        Contains(Lower(views[j].snippet), Lower(Trim(input))) &&
        views[j].prakaranIndex == r[j].prakaranIndex && views[j].elementId == r[j].elementId
  {
    var views, r := SearchViews(index, input), PerformSearch(index, input);
    if Trim(input) != [] {
      SearchResults(index, input);
      forall j | 0 <= j < |views|
        ensures Contains(Lower(views[j].snippet), Lower(Trim(input)))
      {
        SnippetShowsQuery(r[j].text, Trim(input));
      }
    }
  }
}
