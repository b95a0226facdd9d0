# Sthal Pothi reader — a Dafny model

`script.js` is the single-page reader of the Sthal Pothi. The page holds the whole
text as a flat run of paragraphs. The script reads them once and builds:

- chapters (*prakaran*), each opened by a title paragraph with class `p5` and
  non-empty text;
- verses (*vachan*), the paragraphs from the first title paragraph on whose text
  starts with `वचन`, numbered from 1 inside their chapter and given the id
  `prakaran-K-vachan-J`;
- a flat list of all verses;
- a search index with one entry per non-empty paragraph from the first title
  paragraph on.

Paragraphs before the first title paragraph belong to no chapter and are neither
stored nor indexed.

From these it renders:

- a chapter table of contents that lists every verse of a chapter, paged 30
  verses at a time for chapters of more than 30 verses;
- an alphabetical table of contents, keyed by each verse's first letter;
- a popup with the commentary (`टीका :-`) and notes (`लापिका :-`) that follow a verse;
- a substring search with snippets.

This project models that logic and proves what the reader promises about it.

Module layout:

| file | module | models |
|---|---|---|
| `text.dfy` | `Text` | `trim`, `startsWith`, `indexOf`/`includes`, lower-casing, decimal rendering of numbers |
| `document.dfy` | `Document` | the records (`Block`, `ContentItem`, `Vachan`, `Prakaran`, `IndexEntry`), the id schemes, the verse display text |
| `parser.dfy` | `Parser` | `parseContent`: the loop (`ParseContent`) and its specification (`Parse`, a left fold of `Step`) |
| `parser_properties.dfy` | `ParserProperties` | what a parse looks like, against a reference defined from block positions only |
| `annotations.dfy` | `Annotations` | the sibling walk of `showTikaPopup` and the popup text |
| `alpha_toc.dfy` | `AlphaToc` | `buildAlphaToc`: filing verses by first letter, rendering the groups |
| `search.dfy` | `Search` | `performSearch` and `getSnippet` |
| `toc.dfy` | `PrakaranToc` | `buildPrakaranToc` and `renderVachanPage` |
| `navigation.dfy` | `Navigation` | `showPrakaran` as a method of the `Reader` class, and the previous/next buttons |

Some behaviour of the code worth knowing when reading the model:

- The annotation walk ends only at a sibling with class `p9` or `p5`. A verse paragraph without those classes does not end it (`script.js:136`).
- The alphabetical index has 41 letters (`script.js:288`).
- A search entry's `elementId` is the paragraph's `content-N` id for every paragraph, verses included (`script.js:60`). A search hit on a verse therefore names an id that no rendered chapter element has. The rendered verse element carries the `prakaran-K-vachan-J` id (`script.js:70`, `script.js:97`). The `content-N` id remains only on the paragraph in the `original-content` container (`script.js:46`). In the model, `Navigation.Reader.ShowPrakaran` highlights an element only when that id is among the page's ids, which it takes as given.

## Model

| member | source | states |
|---|---|---|
| Text.TrimIdempotent | script.js:381 | trimming a trimmed query changes nothing |
| Text.TrimPadded | script.js:381 | whitespace added around a query is exactly what `trim` takes away |
| Text.NatStrRoundTrip | script.js:45 | the decimal rendering of a number in a template string reads back as that number |
| Text.ContainsIff | script.js:388 | `includes` holds exactly when the query occurs at some position |
| Document.ContentIdInjective | script.js:45 | different paragraph counters give different `content-N` ids |
| Document.VachanIdInjective | script.js:50-70 | a verse id determines its chapter number and verse number |
| Document.ContentIdIsNotVachanId | script.js:45-70 | a `content-N` id never equals a verse id |
| Document.DisplayTextRoundTrip | script.js:71 | stripping `वचन`, whitespace and `[:\-–—]*` and then trimming gives back the verse text that followed the marker |
| Parser.ParseContent | script.js:40-79 | the loop over the paragraph array computes exactly `Parse`, the fold of one iteration over all blocks, followed by the final push of the open chapter |
| Parser.AddBlock | script.js:52-75 | a block joins the open chapter as one item; it yields a verse only if its text starts with `वचन`, and an index entry only if its text is non-empty |
| ParserProperties.RunShape | script.js:42-51 | after any prefix, the counter equals the number of blocks seen; a chapter is open exactly when a title block was seen; the chapter count equals the number of title blocks |
| ParserProperties.StepParse | script.js:43-78 | one more block changes the finished parse exactly as one iteration prescribes: a title block adds a chapter; any other block is dropped before the first title, else it joins the last chapter |
| ParserProperties.LastChapter | script.js:48-78 | the chapter list has one chapter per title block; the last chapter carries the last title's text and as many verses as there are verse blocks since that title |
| ParserProperties.ChaptersWellFormed | script.js:48-75 | chapter k has the id `prakaran-k` and starts with its title block; an item is a verse item iff its text starts with `वचन`; its j-th verse is numbered j+1, has the id `prakaran-k-vachan-j`, and carries chapter index k and the chapter title |
| ParserProperties.FlatListsInOrder | script.js:43-78 | the chapters' items, in order, are one item per block from the first title block on; `allVachans` is the concatenation of the chapters' verse lists |
| ParserProperties.ItemsFromFirstTitle | script.js:43-75 | there are as many items as blocks after the first title block, and the j-th item is what that block prescribes |
| ParserProperties.FirstTitleOpened | script.js:48-52 | no title block has been seen exactly when there is no first title position among the blocks |
| ParserProperties.IndexInOrder | script.js:56-65 | the search index is one entry per non-empty block from the first title on, in order, with `content-N` as its element id |
| ParserProperties.IndexLinked | script.js:56-65 | every search entry names an existing chapter and its title; a verse entry's number is a verse of that chapter |
| ParserProperties.StepGrows | script.js:49-75 | a step never removes a chapter or changes a title, and verse lists only grow |
| ParserProperties.LastVerseText | script.js:71-73 | a verse block becomes the last verse of the last chapter, under its display text |
| ParserProperties.VersesInOrder | script.js:69-73 | the verses of well-formed chapters come chapter by chapter and number by number, each anchored by its id |
| ParserProperties.VerseIdsDistinct | script.js:69-73 | no two verses of `allVachans` share an id |
| ParserProperties.ItemIdsDistinct | script.js:45-75 | no two content items of the parse share an id: a `content-N` id is told apart by its position, a verse id by its chapter and number, and the two kinds never coincide |
| ParserProperties.ExpectedIdsDistinct | script.js:45-70 | the ids of the items, from the first block on, are pairwise distinct and each was handed out before the next block |
| ParserProperties.VersesAnchored | script.js:69-73 | every verse belongs to an existing chapter and its id is `prakaran-k-vachan-(number-1)` |
| Annotations.ScanEnd | script.js:136 | the walk ends at the first sibling with class `p9` or `p5`, or after the last sibling |
| Annotations.ScanNotes | script.js:133-140 | the loop's two accumulators are the commentary and the notes of the siblings visited before the walk ends |
| Annotations.AddNote | script.js:137-138 | a sibling that starts with the prefix appends its trimmed rest and two line breaks; any other sibling leaves the accumulator unchanged |
| Annotations.TooltipHtml | script.js:142-146 | the popup markup is empty exactly when both accumulators are empty |
| Annotations.FindItem | script.js:130-131 | the lookup returns the first content item in document order that has the id; it reports none exactly when no item of the rendered chapters has that id |
| Annotations.ShowTikaPopup | script.js:126-146 | the popup shows the markup of the walk that starts at the verse element; nothing is shown for an unknown id or when nothing was collected |
| Annotations.ConcatEmpty | script.js:142-146 | concatenated notes are empty exactly when every note is empty |
| Annotations.CollectAppend | script.js:136-139 | the accumulator over two runs of siblings is the concatenation of the two accumulators |
| Annotations.CollectIgnores | script.js:137-138 | a sibling without the prefix contributes nothing |
| Annotations.CollectEmpty | script.js:136-146 | an accumulator is empty exactly when no visited sibling starts with its prefix |
| Annotations.PopupShownIff | script.js:130-146 | the popup appears exactly when the verse element exists and a visited sibling starts with one of the two prefixes |
| Annotations.ScanStopsAtMarker | script.js:136 | siblings after the one that ends the walk have no influence |
| Annotations.NoteRoundTrip | script.js:137-138 | a note written as prefix, whitespace and trimmed text contributes that text and two line breaks |
| AlphaToc.LettersAscending | script.js:288 | the index has 41 letters, in strictly ascending order, hence each appears once |
| AlphaToc.GroupVachans | script.js:289-290 | after filing, the list of each letter holds the verses whose first character is that letter, in order; no other key exists |
| AlphaToc.BucketMembers | script.js:290 | a verse is in a letter's list exactly when its text is non-empty and starts with that letter |
| AlphaToc.BucketAppend | script.js:289-290 | filing keeps the order of the verse list |
| AlphaToc.TallyCountsIndexed | script.js:288-290 | over ascending letters, the list sizes add up to the number of verses whose first character is one of those letters, so each such verse is filed exactly once |
| AlphaToc.FiledOnce | script.js:288-290 | the same for the 41 letters of the index: no verse is filed twice, and a verse with an empty text or a non-letter start is filed nowhere |
| AlphaToc.BuildAlphaToc | script.js:287-321 | the filing loop followed by rendering gives `AlphaGroups` of the verse list |
| AlphaToc.RenderGroups | script.js:295-321 | rendering walks the letters in order and emits one group for each non-empty list |
| AlphaToc.GroupsForShape | script.js:295-321 | every rendered group has a non-empty list equal to its letter's list, and every letter with a non-empty list is rendered |
| AlphaToc.GroupsForOrdered | script.js:295-321 | groups come in strictly ascending letter order |
| AlphaToc.AlphaGroupsRendered | script.js:288-321 | groups are in letter order; each is non-empty and holds its letter's list; a letter has a group exactly when some verse starts with it |
| AlphaToc.GroupAnchorInjective | script.js:300-306 | different letters have different group anchors |
| Search.Filter | script.js:388 | the filter never yields more entries than the index has |
| Search.BlankQueryFindsNothing | script.js:381-385 | a query made only of whitespace yields no results |
| Search.FilterMembers | script.js:388 | an entry passes the filter exactly when it is in the index and its lower-cased text contains the lower-cased query |
| Search.FilterAppend | script.js:388 | the filter keeps index order |
| Search.SearchResults | script.js:381-388 | the results are a prefix of the filtered list: at most 50 entries; all matches when there are at most 50; exactly 50 otherwise; each a matching index entry |
| Search.MatchWindow | script.js:418-419 | the window contains the match, is at most the query length plus 80, starts after 0 iff the match starts after 40, and ends before the text's end iff more than 40 characters of text remain after the match |
| Text.IndexOf | script.js:416 | the first position where the query occurs, or -1 when it occurs nowhere |
| Search.SnippetWithoutMatch | script.js:416-417 | with no occurrence, the snippet is the first 150 characters followed by `...` |
| Search.SnippetWithMatch | script.js:418-423 | with an occurrence, the snippet is the window around the first one, with `...` exactly where text was cut off, and at most the query length plus 86 characters long |
| Search.SnippetShowsQuery | script.js:415-424 | the lower-cased snippet contains the lower-cased query |
| Search.ViewsShowQuery | script.js:390-400 | there is one rendered result per search result, at most 50; each snippet shows the query, and each result leads to its entry's chapter and element |
| PrakaranToc.LinkText | script.js:218 | the link text is at most the number's digits plus 40 characters long |
| PrakaranToc.LinkTextReadsBack | script.js:218 | the link text's leading digits read back as the verse number; then come `. `, the first 35 characters of the verse text (or all of a shorter one) and `...` |
| PrakaranToc.LinkTargets | script.js:216-217 | every link leads to its own verse's anchor |
| PrakaranToc.TotalPages | script.js:206 | the page count is the ceiling of the verse count divided by 30 |
| PrakaranToc.PageSlice | script.js:210-212 | a page holds at most 30 verses |
| PrakaranToc.PagesCover | script.js:206-212 | the pages, in order, are exactly the chapter's verse list |
| PrakaranToc.PagesPrefix | script.js:210-212 | the first `count` pages are the first `30·count` verses |
| PrakaranToc.PageSizes | script.js:206-212 | every page before the last holds 30 verses; the last holds the rest, at least one |
| PrakaranToc.PagerStaysInRange | script.js:224-237 | a pager appears exactly for more than 30 verses; an enabled `<<` or `>>` leads to an existing page |
| PrakaranToc.ExpandedShowsFirstPage | script.js:256-276 | on its first expansion a chapter lists its first 30 verses, or all of them when it has at most 30; a longer chapter has a pager container |
| Navigation.Reader.constructor | script.js:115-117 | the reader starts at index -1 (script.js:28) with the welcome page active |
| Navigation.Reader.ShowPrakaran | script.js:426-457 | an out-of-range index shows the welcome page and its title and changes nothing else. An in-range index becomes current and closes the sidebar. If the chapter's page exists, it is activated under the chapter's title and scrolls to the given element (when the page has it) or to the top |
| Navigation.NavStaysInRange | script.js:101-110 | the previous button is enabled exactly when a previous chapter exists, and the next button exactly when a next one exists |

## Left out

- DOM construction is left out: element creation, `innerHTML`, class toggling and event wiring. Content items keep their text, classes, kind and id. Tag name and inner markup are not modelled.
- The markup rewrite of the verse marker in `buildPrakaranPages` (`script.js:92`) is left out. It is a regular-expression replacement on HTML that changes no id, text or order the model uses.
- Highlighting of the query in search snippets (`script.js:387`, `392`) is left out. It builds a `RegExp` from the raw query, so a query with an unbalanced parenthesis such as `(` throws before any result is shown. The model assumes the query compiles, and its snippets are the unhighlighted text.
- `toLowerCase` is modelled per character on ASCII letters only. Devanagari has no case. Full Unicode lower-casing can change a string's length, which would shift snippet offsets; the model does not capture that.
- Tooltip positioning (`script.js:149-170`) depends on layout geometry and is left out. `Annotations.ShowTikaPopup` returns the text the popup would show.
- Timers are left out: the double-tap detection on verse links (`script.js:179-193`), the double-tap that closes the tooltip (`script.js:363-372`), and the 100 ms delay before scrolling and flashing (`script.js:444-449`). `Navigation.Reader.ShowPrakaran` records the scroll target in `highlighted` immediately.
- Theme switching and font-size buttons (`script.js:344-356`) are left out; they only set styles.
- The sidebar, tab and overlay handlers (`script.js:325-342`) are left out; they toggle classes. The search-panel handlers (`script.js:374-376`) are left out too: they show the panel and focus the input, or hide the panel and clear the input and the result list.
- `Navigation.Reader.ShowPrakaran`: the set of ids present in the page is given as `anchors`, not derived from the rendered chapters. The overlay closed at `script.js:456` is not modelled.
- The search-result click handler (`script.js:402-411`) is left out. It reads the chapter index back with `parseInt` and calls `showPrakaran` with it and the element id; both come from the entry's fields, which `Search.ViewsShowQuery` exposes. It then hides the search panel and clears the input and the result list. The span markup of the alphabetical links is left out as well.
- Texts are taken to hold only characters of the Basic Multilingual Plane. The script counts string positions in UTF-16 code units, where a character outside that plane counts twice; the model counts it once. For such texts, the 35-character cut of `PrakaranToc.LinkText`, the 40- and 150-character windows of `Search.GetSnippet` and all text lengths would differ from the script.
- `PrakaranToc.ExpandedShowsFirstPage` covers only the first expansion of a chapter. After paging with `>>` (`script.js:236`) and collapsing, a later expansion shows the page last rendered, because the first page is rendered only while the list is empty (`script.js:259`). The model keeps no per-chapter list state across expansions.
- Reading paragraphs from the page (`innerText`) is left out. Each block is given as its trimmed text and its class set.
