/** The annotation popup of a verse (script.js:126-171): starting at the rendered
    element after the verse, the siblings are walked until one with class p9 or
    p5; commentary ("टीका :-") and marginal notes ("लापिका :-") met on the way are
    collected, and a popup is shown when either collection is non-empty.

    The siblings of a rendered verse are the other content items of its chapter,
    followed by the chapter's navigation bar, which carries neither class nor
    prefix and so never contributes; the walk is therefore modelled over the
    chapter's content items. */
module Annotations {
  import opened Text
  import opened Document

  /** What the walk collected: the two accumulators of script.js:133. */
  datatype Notes = Notes(tika: string, lapika: string)

  const LineBreaks := "<br><br>"

  /** A sibling with class p9 or p5 ends the walk (script.js:136). */
  predicate EndsScan(item: ContentItem) {
    VerseClass in item.classes || ChapterClass in item.classes
  }

  /** The first position at or after `from` whose item ends the walk, or the end. */
  function ScanEnd(items: seq<ContentItem>, from: nat): (e: nat)
    requires from <= |items|
    ensures from <= e <= |items|
    ensures forall j :: from <= j < e ==> !EndsScan(items[j])
    ensures e < |items| ==> EndsScan(items[e])
    decreases |items| - from
  {
    if from == |items| then from
    else if EndsScan(items[from]) then from
    else ScanEnd(items, from + 1)
  }

  /** The contribution of one sibling to the accumulator for `prefix`
      (script.js:137-138): its text after the prefix, trimmed, and two line
      breaks; nothing when its text does not start with the prefix. */
  function NoteOf(item: ContentItem, prefix: string): string {
    if StartsWith(item.text, prefix) then Trim(item.text[|prefix|..]) + LineBreaks else ""
  }

  /** The contributions of the siblings, one per sibling. */
  function NotesOf(items: seq<ContentItem>, prefix: string): seq<string> {
    seq(|items|, j requires 0 <= j < |items| => NoteOf(items[j], prefix))
  }

  /** The strings of `ss` one after the other. */
  function Concat(ss: seq<string>): string {
    if ss == [] then "" else Concat(ss[..|ss| - 1]) + ss[|ss| - 1]
  }

  /** The accumulator for `prefix` after walking `items` in order. */
  function Collect(items: seq<ContentItem>, prefix: string): string {
    Concat(NotesOf(items, prefix))
  }

  /** The siblings the walk visits after the item at position `i`. */
  function Scanned(items: seq<ContentItem>, i: nat): (s: seq<ContentItem>)
    requires i < |items|
    ensures forall j :: 0 <= j < |s| ==> !EndsScan(s[j])
  {
    items[i + 1..ScanEnd(items, i + 1)]
  }

  /** Both accumulators once the walk after position `i` is over. */
  function NotesAfter(items: seq<ContentItem>, i: nat): Notes
    requires i < |items|
  {
    var s := Scanned(items, i);
    Notes(Collect(s, TikaPrefix), Collect(s, LapikaPrefix))
  }

  /** The walk of script.js:133-140 after the verse at position `i`. */
  method ScanNotes(items: seq<ContentItem>, i: nat) returns (tikaText: string, lapikaText: string)
    requires i < |items|
    ensures Notes(tikaText, lapikaText) == NotesAfter(items, i)
  {
    tikaText, lapikaText := "", "";
    var next := i + 1;
    assert items[i + 1..next] == [];
    while next < |items| && !EndsScan(items[next])
      invariant i + 1 <= next <= |items|
      invariant ScanEnd(items, next) == ScanEnd(items, i + 1)
      invariant tikaText == Collect(items[i + 1..next], TikaPrefix)
      invariant lapikaText == Collect(items[i + 1..next], LapikaPrefix)
      decreases |items| - next
    {
      var item := items[next];
      assert items[i + 1..next + 1] == items[i + 1..next] + [item];
      CollectSnoc(items[i + 1..next], item, TikaPrefix);
      CollectSnoc(items[i + 1..next], item, LapikaPrefix);
      tikaText := AddNote(tikaText, item, TikaPrefix);
      lapikaText := AddNote(lapikaText, item, LapikaPrefix);
      next := next + 1;
    }
  }

  /** One line of the walk's body (script.js:137 for commentary, 138 for notes):
      a sibling whose text starts with `prefix` adds its note to the accumulator. */
  method AddNote(acc: string, item: ContentItem, prefix: string) returns (acc': string)
    ensures acc' == acc + NoteOf(item, prefix)
    ensures StartsWith(item.text, prefix) ==> |acc'| > |acc|
    ensures !StartsWith(item.text, prefix) ==> acc' == acc
  {
    acc' := acc;
    if StartsWith(item.text, prefix) {
      acc' := acc' + Trim(item.text[|prefix|..]) + LineBreaks;
    }
  }

  lemma ConcatSnoc(ss: seq<string>, x: string)
    ensures Concat(ss + [x]) == Concat(ss) + x
  {
    assert (ss + [x])[..|ss|] == ss;
  }

  lemma {:induction false} ConcatAppend(s: seq<string>, t: seq<string>)
    ensures Concat(s + t) == Concat(s) + Concat(t)
    decreases |t|
  {
    if t == [] {
      assert s + t == s;
    } else {
      var t', x := t[..|t| - 1], t[|t| - 1];
      assert s + t == (s + t') + [x];
      assert t == t' + [x];
      ConcatSnoc(s + t', x);
      ConcatSnoc(t', x);
      ConcatAppend(s, t');
    }
  }

  /** Concatenating gives nothing exactly when every part is empty. */
  lemma {:induction false} ConcatEmpty(ss: seq<string>)
    ensures Concat(ss) == "" <==> forall j :: 0 <= j < |ss| ==> ss[j] == ""
  {
    if ss != [] {
      var ss' := ss[..|ss| - 1];
      ConcatEmpty(ss');
      assert forall j :: 0 <= j < |ss'| ==> ss'[j] == ss[j];
    }
  }

  lemma CollectSnoc(s: seq<ContentItem>, x: ContentItem, prefix: string)
    ensures Collect(s + [x], prefix) == Collect(s, prefix) + NoteOf(x, prefix)
  {
    assert NotesOf(s + [x], prefix) == NotesOf(s, prefix) + [NoteOf(x, prefix)];
    ConcatSnoc(NotesOf(s, prefix), NoteOf(x, prefix));
  }

  /** The walk ends at the first sibling with class p9 or p5. */
  lemma {:induction false} ScanEndIs(items: seq<ContentItem>, from: nat, e: nat)
    requires from <= e <= |items|
    requires forall j :: from <= j < e ==> !EndsScan(items[j])
    requires e < |items| ==> EndsScan(items[e])
    ensures ScanEnd(items, from) == e
    decreases e - from
  {
    if from < e {
      ScanEndIs(items, from + 1, e);
    }
  }

  /** The markup of the popup (script.js:142-144): notes first, then commentary,
      each part only when its accumulator is non-empty. */
  function TooltipHtml(n: Notes): (html: string)
    ensures html == "" <==> n.tika == "" && n.lapika == ""
  {
    (if n.lapika != "" then "<h4>लापिका</h4><p class=\"tooltip-lapika\">" + n.lapika + "</p>" else "") +
    (if n.tika != "" then "<h4>टीका</h4><p class=\"tooltip-tika\">" + n.tika + "</p>" else "")
  }

  /** The first position in `items` at or after `from` whose id is `id`. */
  function FindIn(items: seq<ContentItem>, id: string, from: nat): (r: Option<nat>)
    requires from <= |items|
    ensures r.Some? ==> from <= r.value < |items| && items[r.value].id == id
    ensures forall j :: from <= j < |items| && (r.None? || j < r.value) ==> items[j].id != id
    decreases |items| - from
  {
    if from == |items| then None
    else if items[from].id == id then Some(from)
    else FindIn(items, id, from + 1)
  }

  /** `document.getElementById` over the rendered chapters, in document order:
      the chapter and position of the first content item with id `id`. */
  function FindItem(ps: seq<Prakaran>, id: string, k: nat): (r: Option<(nat, nat)>)
    requires k <= |ps|
    ensures r.Some? ==> k <= r.value.0 < |ps| && r.value.1 < |ps[r.value.0].content| &&
                        ps[r.value.0].content[r.value.1].id == id
    ensures forall c, j ::
      k <= c < |ps| && 0 <= j < |ps[c].content| && (r.None? || c < r.value.0 || (c == r.value.0 && j < r.value.1))
      ==> ps[c].content[j].id != id
    decreases |ps| - k
  {
    if k == |ps| then None
    else match FindIn(ps[k].content, id, 0)
      case Some(j) => Some((k, j))
      case None => FindItem(ps, id, k + 1)
  }

  /** What the popup of the verse with id `vachanId` shows: nothing when the
      element does not exist (script.js:130-131) or nothing was collected
      (script.js:146), else the popup markup. */
  function PopupFor(ps: seq<Prakaran>, vachanId: string): Option<string> {
    match FindItem(ps, vachanId, 0)
    case None => None
    case Some((k, i)) =>
      var html := TooltipHtml(NotesAfter(ps[k].content, i));
      if html == "" then None else Some(html)
  }

  /** `showTikaPopup` without the tooltip geometry: the element lookup, the walk
      and the choice whether to show. */
  method ShowTikaPopup(ps: seq<Prakaran>, vachanId: string) returns (shown: Option<string>)
    ensures shown == PopupFor(ps, vachanId)
  {
    var found := FindItem(ps, vachanId, 0);
    if found.None? {
      return None;
    }
    var (k, i) := found.value;
    var tikaText, lapikaText := ScanNotes(ps[k].content, i);
    var html := TooltipHtml(Notes(tikaText, lapikaText));
    if html == "" {
      shown := None;
    } else {
      shown := Some(html);
    }
  }

  /** The accumulator is the notes of the items one after the other. */
  lemma CollectAppend(s: seq<ContentItem>, t: seq<ContentItem>, prefix: string)
    ensures Collect(s + t, prefix) == Collect(s, prefix) + Collect(t, prefix)
  {
    assert NotesOf(s + t, prefix) == NotesOf(s, prefix) + NotesOf(t, prefix);
    ConcatAppend(NotesOf(s, prefix), NotesOf(t, prefix));
  }

  /** A sibling that starts with neither prefix changes neither accumulator. */
  lemma CollectIgnores(s: seq<ContentItem>, x: ContentItem, t: seq<ContentItem>, prefix: string)
    requires !StartsWith(x.text, prefix)
    ensures Collect(s + [x] + t, prefix) == Collect(s + t, prefix)
  {
    CollectSnoc(s, x, prefix);
    CollectAppend(s + [x], t, prefix);
    CollectAppend(s, t, prefix);
  }

  /** An accumulator is empty exactly when no visited sibling starts with its prefix. */
  lemma CollectEmpty(s: seq<ContentItem>, prefix: string)
    ensures Collect(s, prefix) == "" <==> forall j :: 0 <= j < |s| ==> !StartsWith(s[j].text, prefix)
  {
    ConcatEmpty(NotesOf(s, prefix));
    forall j | 0 <= j < |s|
      ensures NotesOf(s, prefix)[j] == "" <==> !StartsWith(s[j].text, prefix)
    {
      if StartsWith(s[j].text, prefix) {
        assert |NoteOf(s[j], prefix)| >= |LineBreaks|;
      }
    }
  }

  /** The popup is shown exactly when the element exists and some sibling
      before the next p9 or p5 sibling carries commentary or a note. */
  lemma PopupShownIff(ps: seq<Prakaran>, vachanId: string)
    ensures PopupFor(ps, vachanId).Some? <==>
      FindItem(ps, vachanId, 0).Some? &&
      var (k, i) := FindItem(ps, vachanId, 0).value;
      exists j :: 0 <= j < |Scanned(ps[k].content, i)| && HasNote(Scanned(ps[k].content, i)[j])
  {
    match FindItem(ps, vachanId, 0)
    case None =>
    case Some((k, i)) =>
      var s := Scanned(ps[k].content, i);
      CollectEmpty(s, TikaPrefix);
      CollectEmpty(s, LapikaPrefix);
  }

  predicate HasNote(item: ContentItem) {
    StartsWith(item.text, TikaPrefix) || StartsWith(item.text, LapikaPrefix)
  }

  /** Siblings after the one that ends the walk are never looked at. */
  lemma ScanStopsAtMarker(items: seq<ContentItem>, i: nat, rest: seq<ContentItem>)
    requires i < |items| && ScanEnd(items, i + 1) < |items|
    ensures NotesAfter(items + rest, i) == NotesAfter(items, i)
  {
    var e := ScanEnd(items, i + 1);
    ScanEndIs(items + rest, i + 1, e);
    assert (items + rest)[i + 1..e] == items[i + 1..e];
  }

  /** Writing a note as its prefix, whitespace and a trimmed text contributes
      exactly that text and the two line breaks. */
  lemma NoteRoundTrip(item: ContentItem, prefix: string, gap: string, d: string)
    requires item.text == prefix + gap + d && AllSpace(gap) && IsTrimmed(d)
    ensures NoteOf(item, prefix) == d + LineBreaks
  {
    assert item.text[..|prefix|] == prefix;
    assert item.text[|prefix|..] == gap + d + [];
    TrimPadded(gap, d, []);
    TrimOfTrimmed(d);
  }
}
